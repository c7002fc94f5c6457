// The operations of the timer set are the steps of the system in which no wake-up is lost:
// below 2^64 ms each method changes the timers and the flag as its step does, and asks for
// a notification exactly when the step has a thread about to notify.
module TimerSteps {
  import opened Bytes
  import opened Timers
  import W = Wakeup

  // ---- Timers by object and by address -------------------------------------------------------

  ghost function Periods(ts: seq<Timer>): map<Timer, nat>
    reads ts`ms
  {
    map t | t in ts :: t.ms
  }

  ghost predicate HasAddr(d: map<Timer, nat>, k: nat) {
    exists t <- d :: t.addr == k
  }

  // The timers with their deadlines and periods, by object and by address.
  ghost predicate View(d: map<Timer, nat>, p: map<Timer, nat>, v: map<nat, W.Armed>) {
    && (forall t <- d :: t in p && t.addr in v && v[t.addr] == W.Armed(d[t], p[t]))
    && (forall k <- v :: HasAddr(d, k))
  }

  ghost predicate Apart(d: map<Timer, nat>, t: Timer) {
    forall u <- d :: u.addr == t.addr ==> u == t
  }

  lemma ViewPut(d: map<Timer, nat>, p: map<Timer, nat>, v: map<nat, W.Armed>, t: Timer, next: nat, ms: nat)
    requires View(d, p, v) && Apart(d, t)
    ensures View(d[t := next], p[t := ms], v[t.addr := W.Armed(next, ms)])
  {
    var d' := d[t := next];
    assert t in d';
    forall k | k in v ensures HasAddr(d', k) {
      var u :| u in d && u.addr == k;
      assert u in d';
    }
  }

  lemma ViewDrop(d: map<Timer, nat>, p: map<Timer, nat>, v: map<nat, W.Armed>, t: Timer)
    requires View(d, p, v) && Apart(d, t) && t in d
    ensures View(d - {t}, p - {t}, v - {t.addr})
  {
    var d' := d - {t};
    forall k | k in v && k != t.addr ensures HasAddr(d', k) {
      var u :| u in d && u.addr == k;
      assert u in d';
    }
  }

  // The set and the flag of the manager are those of the system.
  ghost predicate Same(m: TimerManager, s: W.State)
    reads m, m.all
  {
    && m.Valid() && m.tickled == s.tickled && m.previous <= s.now && s.now + W.MAX_DELAY < TWO_64
    && View(Deadlines(m.timers), Periods(m.timers), s.timers)
  }

  lemma ApartThere(m: TimerManager, t: Timer)
    requires m.Valid() && t in m.all
    ensures Apart(Deadlines(m.timers), t)
  {
  }

  lemma Unwrapped(a: nat, b: nat)
    requires a + b < TWO_64
    ensures Deadline(a, b) == a + b
  {
  }

  // A timer at the front of the one is at the front of the other.
  lemma FrontThere(ts: seq<Timer>, d: map<Timer, nat>, p: map<Timer, nat>, v: map<nat, W.Armed>, addr: nat, x: W.Armed)
    requires View(d, p, v) && forall t :: t in d <==> t in ts
    ensures (forall u <- ts :: u.addr != addr ==> Sooner(x.next, addr, d[u], u.addr)) <==> W.AtFront(v, addr, x)
  {
    if W.AtFront(v, addr, x) {
      forall u | u in ts && u.addr != addr ensures Sooner(x.next, addr, d[u], u.addr) {
        assert u in d && u.addr in v && W.Less(addr, x, u.addr, v[u.addr]);
      }
    }
    if forall u <- ts :: u.addr != addr ==> Sooner(x.next, addr, d[u], u.addr) {
      forall k | k in v && k != addr ensures W.Less(addr, x, k, v[k]) {
        assert HasAddr(d, k);
        var u :| u in d && u.addr == k;
        assert u in ts;
      }
    }
  }

  // ---- The steps ---------------------------------------------------------------------------------

  lemma AddIs(s: W.State, id: nat, ms: nat, sampled: nat)
    requires W.Enabled(s, W.Add(id, ms, sampled))
    ensures id !in s.timers && ms < 0x8000_0000 && sampled <= s.now
    ensures var x := W.Armed(sampled + ms, ms);
      W.Apply(s, W.Add(id, ms, sampled)) == W.Insert(s, id, x)
  {
  }

  lemma InsertIs(s: W.State, id: nat, x: W.Armed)
    ensures var front := W.AtFront(s.timers, id, x) && !s.tickled;
      W.Insert(s, id, x) == s.(timers := s.timers[id := x], tickled := s.tickled || front,
                               about := s.about + if front then 1 else 0)
  {
    hide W.AtFront;
  }

  lemma ResetIs(s: W.State, id: nat, ms: nat, fromNow: bool)
    requires W.Enabled(s, W.Reset(id, ms, fromNow)) && (ms != s.timers[id].ms || fromNow)
    ensures ms < 0x8000_0000 && s.timers[id].ms <= s.timers[id].next
    ensures var start := if fromNow then s.now else s.timers[id].next - s.timers[id].ms;
      W.Apply(s, W.Reset(id, ms, fromNow))
      == W.Insert(s.(timers := s.timers - {id}), id, W.Armed(start + ms, ms))
  {
    hide W.Insert;
  }

  method Add(m: TimerManager, ghost s: W.State, addr: nat, ms: nat, cb: nat, recurring: bool, sampled: nat)
    returns (t: Timer, notify: bool, ghost s': W.State)
    requires Same(m, s) && W.Enabled(s, W.Add(addr, ms, sampled)) && forall u <- m.all :: u.addr != addr
    modifies m
    ensures s' == W.Apply(s, W.Add(addr, ms, sampled)) && Same(m, s')
    ensures fresh(t) && t in m.timers && t.addr == addr && s'.about == s.about + if notify then 1 else 0
  {
    hide Deadline, Keys, Sorted, Ordered, DistinctAddrs, View, W.AtFront, Sooner, W.Apply, W.Enabled, W.Insert;
    AddIs(s, addr, ms, sampled);
    InsertIs(s, addr, W.Armed(sampled + ms, ms));
    Unwrapped(sampled, ms);
    s' := W.Apply(s, W.Add(addr, ms, sampled));
    ghost var d: map<Timer, nat>, p: map<Timer, nat> := Deadlines(m.timers), Periods(m.timers);
    FrontThere(m.timers, d, p, s.timers, addr, W.Armed(sampled + ms, ms));
    t, notify := m.AddTimer(addr, ms, cb, recurring, sampled);
    ViewPut(d, p, s.timers, t, sampled + ms, ms);
    assert t in Deadlines(m.timers);
    assert Periods(m.timers) == p[t := ms] by {
      Members(m.timers, d[t := sampled + ms]);
    }
  }

  lemma Members(ts: seq<Timer>, d: map<Timer, nat>)
    requires Deadlines(ts) == d
    ensures forall t :: t in ts <==> t in d
  {
    forall t ensures t in ts <==> t in d {
      assert t in ts <==> t in Deadlines(ts);
    }
  }

  method Cancel(m: TimerManager, ghost s: W.State, t: Timer) returns (ghost s': W.State)
    requires Same(m, s) && t in m.timers
    modifies m, t
    ensures W.Enabled(s, W.Cancel(t.addr)) && s' == W.Apply(s, W.Cancel(t.addr)) && Same(m, s')
  {
    hide Deadline, Keys, Sorted, Ordered, View, DistinctAddrs;
    ghost var d: map<Timer, nat>, p: map<Timer, nat> := Deadlines(m.timers), Periods(m.timers);
    Shown(m, s, t);
    ApartThere(m, t);
    s' := W.Apply(s, W.Cancel(t.addr));
    ViewDrop(d, p, s.timers, t);
    var r := m.Cancel(t);
    assert Periods(m.timers) == p - {t} by {
      Members(m.timers, d - {t});
    }
  }

  lemma Shown(m: TimerManager, s: W.State, t: Timer)
    requires Same(m, s) && t in m.timers
    ensures t.addr in s.timers && s.timers[t.addr] == W.Armed(t.next, t.ms) && t in Deadlines(m.timers) && t.cb.Some?
  {
  }

  method Refresh(m: TimerManager, ghost s: W.State, t: Timer, now: nat) returns (ghost s': W.State)
    requires Same(m, s) && now == s.now && t in m.timers && t.ms < W.MAX_DELAY
    modifies m, t
    ensures W.Enabled(s, W.Refresh(t.addr)) && s' == W.Apply(s, W.Refresh(t.addr)) && Same(m, s')
  {
    hide Deadline, Keys, Sorted, Ordered, View, DistinctAddrs;
    Unwrapped(s.now, t.ms);
    ghost var d: map<Timer, nat>, p: map<Timer, nat> := Deadlines(m.timers), Periods(m.timers);
    Shown(m, s, t);
    ApartThere(m, t);
    s' := W.Apply(s, W.Refresh(t.addr));
    ViewPut(d, p, s.timers, t, now + t.ms, t.ms);
    var r := m.Refresh(t, now);
    assert Periods(m.timers) == p[t := t.ms] by {
      Members(m.timers, d[t := now + t.ms]);
    }
  }

  method Reset(m: TimerManager, ghost s: W.State, t: Timer, ms: nat, fromNow: bool, now: nat)
    returns (notify: bool, ghost s': W.State)
    requires Same(m, s) && now == s.now && t in m.timers && t.addr in s.timers
    requires W.Enabled(s, W.Reset(t.addr, ms, fromNow)) && t.next <= now + t.ms && (ms != t.ms || fromNow)
    modifies m, t
    ensures s' == W.Apply(s, W.Reset(t.addr, ms, fromNow)) && Same(m, s')
    ensures s'.about == s.about + if notify then 1 else 0
  {
    hide Deadline, Keys, Sorted, Ordered, View, DistinctAddrs, W.AtFront, Sooner, W.Apply, W.Enabled, W.Insert;
    ghost var d: map<Timer, nat>, p: map<Timer, nat> := Deadlines(m.timers), Periods(m.timers);
    Shown(m, s, t);
    ApartThere(m, t);
    ResetIs(s, t.addr, ms, fromNow);
    ghost var start := if fromNow then now else t.next - t.ms;
    InsertIs(s.(timers := s.timers - {t.addr}), t.addr, W.Armed(start + ms, ms));
    Unwrapped(start, ms);
    s' := W.Apply(s, W.Reset(t.addr, ms, fromNow));
    ResetView(m, s, t, start + ms, ms);
    var r;
    r, notify := m.Reset(t, ms, fromNow, now);
    Members(m.timers, d[t := start + ms]);
    assert Periods(m.timers) == p[t := ms];
  }

  lemma ResetView(m: TimerManager, s: W.State, t: Timer, next: nat, ms: nat)
    requires Same(m, s) && t in m.timers
    ensures View(Deadlines(m.timers)[t := next], Periods(m.timers)[t := ms],
                 (s.timers - {t.addr})[t.addr := W.Armed(next, ms)])
    ensures (forall u <- m.timers :: u != t ==> Sooner(next, t.addr, u.next, u.addr))
            <==> W.AtFront(s.timers - {t.addr}, t.addr, W.Armed(next, ms))
  {
    hide Keys, Sorted, Ordered, View, DistinctAddrs, W.AtFront, Sooner;
    var d: map<Timer, nat>, p: map<Timer, nat> := Deadlines(m.timers), Periods(m.timers);
    ApartThere(m, t);
    Shown(m, s, t);
    ViewDrop(d, p, s.timers, t);
    ViewPut(d - {t}, p - {t}, s.timers - {t.addr}, t, next, ms);
    assert (d - {t})[t := next] == d[t := next] && (p - {t})[t := ms] == p[t := ms];
    FrontThere(m.timers, d, p, s.timers, t.addr, W.Armed(next, ms));
    FrontWithout(s.timers, t.addr, W.Armed(next, ms));
    assert forall u <- m.timers :: u.addr == t.addr ==> u == t by {
      assert forall u <- m.timers :: u in d;
    }
  }

  // Asked for what it has, the timer and the system stay as they are.
  method ResetNothing(m: TimerManager, ghost s: W.State, t: Timer, now: nat) returns (notify: bool)
    requires Same(m, s) && now == s.now && t in m.timers
    modifies m, t
    ensures Same(m, s) && !notify
    ensures t.addr in s.timers && s.timers[t.addr].ms == old(t.ms)
  {
    hide Deadline, Keys, Sorted, Ordered, View, DistinctAddrs, Sooner;
    ghost var d: map<Timer, nat>, p: map<Timer, nat> := Deadlines(m.timers), Periods(m.timers);
    Shown(m, s, t);
    var r;
    r, notify := m.Reset(t, t.ms, false, now);
    Members(m.timers, d);
    assert Periods(m.timers) == p;
  }

  lemma FrontWithout(v: map<nat, W.Armed>, id: nat, x: W.Armed)
    ensures W.AtFront(v - {id}, id, x) <==> W.AtFront(v, id, x)
  {
    forall k | k in v && k != id ensures k in v - {id} {
    }
  }

  // getNextTimer, and the wait that idle() makes of its answer.
  method Sample(m: TimerManager, ghost s: W.State, now: nat) returns (r: nat, ghost a: W.Action, ghost s': W.State)
    requires Same(m, s) && now == s.now && W.Inv(s) && s.pc.Idle?
    modifies m
    ensures (a.Sample? || a.SampleNone?) && W.Enabled(s, a) && s' == W.Apply(s, a) && Same(m, s')
    ensures W.Timeout(r) >= 0 && s'.pc == W.Computed(now, W.Timeout(r))
  {
    hide Keys, Sorted, Ordered, View, DistinctAddrs, W.Inv, W.Enabled, W.Apply, W.Timeout, W.Remaining;
    ghost var d: map<Timer, nat>, p: map<Timer, nat> := Deadlines(m.timers), Periods(m.timers);
    a := FirstOf(m, s, now);
    s' := W.Apply(s, a);
    ghost var ts := m.timers;
    r := m.GetNextTimer(now);
    assert Deadlines(m.timers) == d && Periods(m.timers) == p;
    Sampled(s, a);
    if ts == [] {
      W.TimeoutIs(r);
    } else {
      RemainingIs(ts, now);
      FirstLeast(ts, now, r);
    }
  }

  lemma RemainingIs(ts: seq<Timer>, now: nat)
    ensures forall t <- ts :: W.Remaining(t.next, now) == if now >= t.next then 0 else t.next - now
  {
  }

  // The step itself.
  lemma Sampled(s: W.State, a: W.Action)
    requires W.Enabled(s, a) && (a.Sample? || a.SampleNone?)
    ensures a.Sample? ==> a.first in s.timers && W.Timeout(W.Remaining(s.timers[a.first].next, s.now)) >= 0
    ensures var next := if a.Sample? then W.Remaining(s.timers[a.first].next, s.now) else TWO_64 - 1;
      W.Apply(s, a) == s.(tickled := false, pc := W.Computed(s.now, W.Timeout(next)))
  {
    hide W.AtFront, W.Remaining;
  }

  lemma FirstLeast(ts: seq<Timer>, now: nat, r: nat)
    requires Ordered(ts) && ts != []
    requires forall t <- ts :: r <= W.Remaining(t.next, now)
    requires exists t <- ts :: r == W.Remaining(t.next, now)
    ensures r == W.Remaining(ts[0].next, now)
  {
    hide Ordered;
    FirstIsLeast(ts);
    assert ts[0] in ts;
  }

  lemma FirstSooner(ts: seq<Timer>)
    requires Ordered(ts) && ts != []
    ensures forall u <- ts :: u.addr != ts[0].addr ==> Sooner(ts[0].next, ts[0].addr, u.next, u.addr)
  {
    var ks := Keys(ts);
    forall u | u in ts && u.addr != ts[0].addr ensures Sooner(ts[0].next, ts[0].addr, u.next, u.addr) {
      var i :| 0 <= i < |ts| && ts[i] == u;
      assert Before(ks[0], ks[i]);
    }
  }

  lemma NoneThere(m: TimerManager, s: W.State)
    requires Same(m, s) && m.timers == []
    ensures s.timers == map[]
  {
    forall k ensures k !in s.timers {
      NoAddr(Deadlines(m.timers), k);
    }
  }

  lemma NoAddr(d: map<Timer, nat>, k: nat)
    requires d == map[]
    ensures !HasAddr(d, k)
  {
  }

  // The step that samples the timer at the front, if there is one.
  lemma FirstOf(m: TimerManager, s: W.State, now: nat) returns (a: W.Action)
    requires Same(m, s) && now == s.now && W.Inv(s) && s.pc.Idle?
    ensures if m.timers == [] then a == W.SampleNone else a == W.Sample(m.timers[0].addr)
    ensures W.Enabled(s, a)
    ensures m.timers != [] ==> m.timers[0].addr in s.timers && s.timers[m.timers[0].addr].next == m.timers[0].next
  {
    hide Keys, Sorted, Ordered, View, W.Timeout;
    if m.timers == [] {
      a := W.SampleNone;
      NoneThere(m, s);
    } else {
      var t := m.timers[0];
      a := W.Sample(t.addr);
      Shown(m, s, t);
      FirstSooner(m.timers);
      var d: map<Timer, nat>, p: map<Timer, nat> := Deadlines(m.timers), Periods(m.timers);
      FrontThere(m.timers, d, p, s.timers, t.addr, s.timers[t.addr]);
      W.TimeoutIs(W.Remaining(t.next, now));
    }
  }

  // What is left of the timers, by address.
  function Left(v: map<nat, W.Armed>, now: nat, rearmed: set<nat>): map<nat, W.Armed> {
    map k | k in v && (v[k].next > now || k in rearmed)
      :: if v[k].next > now then v[k] else W.Armed(now + v[k].ms, v[k].ms)
  }

  lemma ViewLeft(d: map<Timer, nat>, p: map<Timer, nat>, v: map<nat, W.Armed>, now: nat, rearmed: set<nat>,
                 d': map<Timer, nat>, p': map<Timer, nat>)
    requires View(d, p, v) && forall t <- d :: t in d' <==> d[t] > now || t.addr in rearmed
    requires forall t <- d' :: t in d && t in p' && p'[t] == p[t] && d'[t] == if d[t] > now then d[t] else now + p[t]
    ensures View(d', p', Left(v, now, rearmed))
  {
    var v' := Left(v, now, rearmed);
    forall k | k in v' ensures HasAddr(d', k) {
      assert HasAddr(d, k);
      var u :| u in d && u.addr == k;
      assert u in d';
    }
  }

  // listExpiredCb, with no step back of the clock.
  method Expire(m: TimerManager, ghost s: W.State, now: nat, probe: nat, ghost drained: bool)
    returns (cbs: seq<nat>, ghost rearmed: set<nat>, ghost s': W.State)
    requires Same(m, s) && now == s.now && W.Inv(s) && s.pc.Awake?
    modifies m, m.all
    ensures rearmed == set t | t in old(m.timers) && t.recurring :: t.addr
    ensures s' == W.Apply(s, W.Expire(rearmed, drained)) && Same(m, s')
  {
    hide Deadline, Keys, Sorted, Ordered, View, DistinctAddrs, W.Apply, W.Inv;
    ghost var d: map<Timer, nat>, p: map<Timer, nat> := Deadlines(m.timers), Periods(m.timers);
    rearmed := set t | t in m.timers && t.recurring :: t.addr;
    s' := W.Apply(s, W.Expire(rearmed, drained));
    ExpireIs(s, rearmed, drained);
    PeriodsWithin(m, s);
    Rearmed(m, rearmed);
    ghost var expired: seq<Timer>;
    cbs, expired := m.ListExpired(now, probe);
    ghost var d': map<Timer, nat> := Deadlines(m.timers);
    Members(m.timers, d');
    hide Rollover, Deadlines, Left;
    ViewExpired(d, p, s.timers, now, rearmed, expired, d', Periods(m.timers));
  }

  lemma ViewExpired(d: map<Timer, nat>, p: map<Timer, nat>, v: map<nat, W.Armed>, now: nat, rearmed: set<nat>,
                    expired: seq<Timer>, d': map<Timer, nat>, p': map<Timer, nat>)
    requires View(d, p, v)
    requires forall t <- d :: t in p && (t in expired <==> d[t] <= now) && (t.addr in rearmed <==> t.recurring)
    requires forall t :: t in d' <==> t in d && (t in expired ==> t.recurring)
    requires forall t <- d' :: t in p' && p'[t] == p[t] && d'[t] == if t in expired then now + p[t] else d[t]
    ensures View(d', p', Left(v, now, rearmed))
  {
    hide View;
    ViewLeft(d, p, v, now, rearmed, d', p');
  }

  lemma ExpireIs(s: W.State, rearmed: set<nat>, drained: bool)
    requires s.pc.Awake?
    ensures W.Apply(s, W.Expire(rearmed, drained))
         == s.(timers := Left(s.timers, s.now, rearmed), pipe := if drained then 0 else s.pipe)
  {
  }

  lemma Rearmed(m: TimerManager, rearmed: set<nat>)
    requires m.Valid() && rearmed == set t | t in m.timers && t.recurring :: t.addr
    ensures forall t <- m.timers :: t.addr in rearmed <==> t.recurring
  {
    hide Keys, Sorted, Ordered;
    forall t | t in m.timers ensures t.addr in rearmed <==> t.recurring {
      if t.addr in rearmed {
        var u :| u in m.timers && u.recurring && u.addr == t.addr;
        assert u in m.all && t in m.all;
      }
    }
  }

  lemma PeriodsWithin(m: TimerManager, s: W.State)
    requires Same(m, s) && W.Inv(s)
    ensures forall t <- m.timers :: Deadline(s.now, t.ms) == s.now + t.ms
  {
    forall t | t in m.timers ensures Deadline(s.now, t.ms) == s.now + t.ms {
      Shown(m, s, t);
      Unwrapped(s.now, t.ms);
    }
  }
}
