// The ordered timer set of timer.cc.
module Timers {
  import opened Bytes

  // ---- The ordering --------------------------------------------------------------------

  // What the comparator sees of a timer: its deadline and its address.
  datatype Key = Key(next: nat, addr: nat)

  predicate Before(a: Key, b: Key) {
    if a.next < b.next then true else if a.next > b.next then false else a.addr < b.addr
  }

  // Timer::Comparator, with null pointers first.
  predicate Comparator(a: Option<Key>, b: Option<Key>) {
    if a.None? && b.None? then false else if a.None? then true else if b.None? then false
    else Before(a.value, b.value)
  }

  // A strict total order, as std::set needs: timers that neither precedes are equal.
  lemma ComparatorOrders(a: Option<Key>, b: Option<Key>, c: Option<Key>)
    ensures !Comparator(a, a) && !(Comparator(a, b) && Comparator(b, a))
    ensures Comparator(a, b) && Comparator(b, c) ==> Comparator(a, c)
    ensures !Comparator(a, b) && !Comparator(b, a) ==> a == b
  {
  }

  predicate Sorted(ks: seq<Key>) {
    forall i, j :: 0 <= i < j < |ks| ==> Before(ks[i], ks[j])
  }

  // std::set::lower_bound.
  function LowerBound(ks: seq<Key>, k: Key): (i: nat)
    ensures i <= |ks|
    ensures forall j :: 0 <= j < i ==> Before(ks[j], k)
    ensures i < |ks| ==> !Before(ks[i], k)
  {
    if ks == [] || !Before(ks[0], k) then 0 else 1 + LowerBound(ks[1..], k)
  }

  lemma LowerBoundSplits(ks: seq<Key>, k: Key)
    requires Sorted(ks) && k !in ks
    ensures var i := LowerBound(ks, k); Sorted(ks[..i] + [k] + ks[i..])
  {
    var i := LowerBound(ks, k);
    forall j | i <= j < |ks| ensures Before(k, ks[j]) {
      if j > i {
        assert Before(ks[i], ks[j]);
      }
    }
  }

  lemma {:induction false} LowerBoundFinds(ks: seq<Key>, i: nat)
    requires Sorted(ks) && i < |ks|
    ensures LowerBound(ks, ks[i]) == i
  {
    if i > 0 {
      assert Before(ks[0], ks[i]);
      LowerBoundFinds(ks[1..], i - 1);
    }
  }

  // ---- Timers ----------------------------------------------------------------------------

  class Timer {
    const addr: nat
    const recurring: bool
    var ms: nat
    var next: nat
    var cb: Option<nat>

    constructor (addr: nat, ms: nat, cb: nat, recurring: bool, now: nat)
      requires now < TWO_64 && ms < TWO_64
      ensures this.addr == addr && this.recurring == recurring && this.ms == ms && this.cb == Some(cb)
      ensures next == Deadline(now, ms)
    {
      this.addr, this.recurring, this.ms, this.cb, this.next := addr, recurring, ms, Some(cb), Deadline(now, ms);
    }
  }

  // now + ms in 64 bits.
  function Deadline(now: nat, ms: nat): (next: nat)
    ensures next < TWO_64
  {
    (now + ms) % TWO_64
  }

  function KeyOf(t: Timer): Key
    reads t`next
  {
    Key(t.next, t.addr)
  }

  function Keys(ts: seq<Timer>): (ks: seq<Key>)
    reads ts`next
    ensures |ks| == |ts| && forall i :: 0 <= i < |ts| ==> ks[i] == KeyOf(ts[i])
  {
    if ts == [] then [] else [KeyOf(ts[0])] + Keys(ts[1..])
  }

  ghost predicate Ordered(ts: seq<Timer>)
    reads ts`next
  {
    Sorted(Keys(ts))
  }

  // new has the elements of old and t, or those but t.
  ghost predicate Plus(before: seq<Timer>, t: Timer, after: seq<Timer>) {
    (forall u <- after :: u in before || u == t) && (forall u <- before :: u in after) && t in after
  }

  ghost predicate Minus(before: seq<Timer>, t: Timer, after: seq<Timer>) {
    (forall u <- after :: u in before && u != t) && forall u <- before :: u != t ==> u in after
  }

  ghost predicate AheadOf(k: Key, ts: seq<Timer>)
    reads ts`next
  {
    forall u <- ts :: Before(k, KeyOf(u))
  }

  // Due earlier, or at the same time at a lower address.
  predicate Sooner(next: nat, addr: nat, next': nat, addr': nat) {
    next < next' || (next == next' && addr < addr')
  }

  lemma SoonerThanAll(k: Key, ts: seq<Timer>)
    ensures AheadOf(k, ts) <==> forall u <- ts :: Sooner(k.next, k.addr, u.next, u.addr)
  {
  }

  predicate DistinctAddrs(all: set<Timer>) {
    forall t, u :: t in all && u in all && t.addr == u.addr ==> t == u
  }

  // Armed timers and their deadlines.
  ghost function Deadlines(ts: seq<Timer>): map<Timer, nat>
    reads ts`next
  {
    map t | t in ts :: t.next
  }

  const HOUR: int := 3600000

  // The difference is computed in 64 bits.
  predicate Rollover(previous: nat, now: nat) {
    now < previous && now < (previous - HOUR) % TWO_64
  }

  // detectClockRollover means a step back of more than an hour. It sees just that when
  // the previous time is at least an hour; before that, any step back counts.
  lemma RolloverMeans(previous: nat, now: nat)
    requires previous < TWO_64
    ensures HOUR == 60 * 60 * 1000
    ensures HOUR <= previous ==> (Rollover(previous, now) <==> now + HOUR < previous)
    ensures previous < HOUR ==> (Rollover(previous, now) <==> now < previous)
  {
  }

  class TimerManager {
    var timers: seq<Timer>
    var tickled: bool
    var previous: nat
    ghost var all: set<Timer>

    ghost predicate Valid()
      reads this, all
    {
      && (forall t <- timers :: t in all)
      && (forall t <- all :: (t.cb.Some? <==> t in timers) && t.next < TWO_64 && t.ms < TWO_64)
      && DistinctAddrs(all)
      && Ordered(timers)
      && previous < TWO_64
    }

    constructor (now: nat)
      requires now < TWO_64
      ensures Valid() && timers == [] && all == {} && !tickled && previous == now
    {
      timers, tickled, previous, all := [], false, now, {};
    }

    // Erasing an armed timer: find succeeds, so the iterator is valid.
    method Erase(t: Timer)
      requires t in timers && Ordered(timers)
      modifies this`timers
      ensures Ordered(timers) && Minus(old(timers), t, timers)
    {
      hide Keys, Sorted, Ordered, LowerBound, Minus;
      var i := LowerBound(Keys(timers), KeyOf(t));
      FindsArmed(timers, t);
      OnlyOnce(timers, i);
      StaysOrdered(timers, i);
      timers := timers[..i] + timers[i + 1..];
    }

    method Insert(t: Timer) returns (front: bool)
      requires Ordered(timers) && KeyOf(t) !in Keys(timers)
      modifies this`timers
      ensures Ordered(timers) && Plus(old(timers), t, timers)
      ensures front <==> AheadOf(KeyOf(t), old(timers))
    {
      hide Keys, Sorted, Ordered, LowerBound;
      var i := LowerBound(Keys(timers), KeyOf(t));
      front := i == 0;
      InsertFront(timers, t);
      InsertOrdered(timers, t);
      timers := timers[..i] + [t] + timers[i..];
    }

    // addTimer under the lock: whether the idle worker is to be notified.
    method InsertAndTell(t: Timer) returns (notify: bool)
      requires Ordered(timers) && KeyOf(t) !in Keys(timers)
      modifies this`timers, this`tickled
      ensures Ordered(timers) && Plus(old(timers), t, timers)
      ensures notify <==> !old(tickled) && AheadOf(KeyOf(t), old(timers))
      ensures tickled <==> old(tickled) || notify
    {
      hide Keys, Sorted, Ordered, AheadOf, Plus;
      var front := Insert(t);
      notify := front && !tickled;
      if notify {
        tickled := true;
      }
    }

    method AddTimer(addr: nat, ms: nat, cb: nat, recurring: bool, now: nat) returns (t: Timer, notify: bool)
      requires Valid() && now < TWO_64 && ms < TWO_64 && forall u <- all :: u.addr != addr
      modifies this
      ensures Valid() && fresh(t) && all == old(all) + {t} && previous == old(previous)
      ensures t.addr == addr && t.ms == ms && t.cb == Some(cb) && t.recurring == recurring
      ensures Deadlines(timers) == old(Deadlines(timers))[t := Deadline(now, ms)]
      ensures notify <==>
        !old(tickled) && forall u <- old(timers) :: Sooner(Deadline(now, ms), addr, old(u.next), u.addr)
      ensures tickled <==> old(tickled) || notify
    {
      hide Keys, Sorted, Ordered, DistinctAddrs, AheadOf, Deadline;
      t := new Timer(addr, ms, cb, recurring, now);
      all := all + {t};
      NewAddr(all, t);
      NotInKeys(timers, t, all);
      SoonerThanAll(KeyOf(t), timers);
      notify := InsertAndTell(t);
    }

    // Timer::cancel.
    method Cancel(t: Timer) returns (r: bool)
      requires Valid() && t in all
      modifies this`timers, t`cb
      ensures Valid() && r == old(t.cb.Some?) && t.cb.None?
      ensures Deadlines(timers) == old(Deadlines(timers)) - {t}
    {
      hide Keys, Sorted, Ordered, DistinctAddrs;
      r := t.cb.Some?;
      if r {
        t.cb := None;
        Erase(t);
      }
    }

    // Timer::refresh.
    method Refresh(t: Timer, now: nat) returns (r: bool)
      requires Valid() && t in all && now < TWO_64
      modifies this`timers, t`next
      ensures Valid() && r == t.cb.Some?
      ensures Deadlines(timers) == if r then old(Deadlines(timers))[t := Deadline(now, t.ms)]
                                   else old(Deadlines(timers))
    {
      hide Keys, Sorted, Ordered, DistinctAddrs, Deadline;
      r := t.cb.Some?;
      if r {
        Erase(t);
        NotInKeys(timers, t, all);
        t.next := Deadline(now, t.ms);
        var _ := Insert(t);
      }
    }

    // Timer::reset. Asked for the period that it has, and not from now, it does nothing
    // and reports success, even for a timer that is no longer armed.
    method Reset(t: Timer, ms: nat, fromNow: bool, now: nat) returns (r: bool, notify: bool)
      requires Valid() && t in all && now < TWO_64 && ms < TWO_64
      modifies this`timers, this`tickled, t`next, t`ms
      ensures Valid() && (r <==> t.cb.Some? || (ms == old(t.ms) && !fromNow))
      ensures var start := if fromNow then now else (old(t.next) - old(t.ms)) % TWO_64;
        Deadlines(timers) == if t.cb.Some? && (ms != old(t.ms) || fromNow)
                             then old(Deadlines(timers))[t := Deadline(start, ms)] else old(Deadlines(timers))
      ensures t.ms == if t.cb.Some? then ms else old(t.ms)
      ensures tickled <==> old(tickled) || notify
      ensures var start := if fromNow then now else (old(t.next) - old(t.ms)) % TWO_64;
        notify <==> t.cb.Some? && (ms != old(t.ms) || fromNow) && !old(tickled)
                    && forall u <- old(timers) :: u != t ==> Sooner(Deadline(start, ms), t.addr, old(u.next), u.addr)
    {
      hide Keys, Sorted, Ordered, DistinctAddrs, Deadline, AheadOf;
      r, notify := true, false;
      if ms == t.ms && !fromNow {
        return;
      }
      if t.cb.None? {
        r := false;
        return;
      }
      Erase(t);
      NotInKeys(timers, t, all);
      var start := if fromNow then now else (t.next - t.ms) % TWO_64;
      t.ms := ms;
      t.next := Deadline(start, ms);
      SoonerThanAll(KeyOf(t), timers);
      notify := InsertAndTell(t);
    }

    // The time to the earliest deadline, and all bits set if there is none.
    method GetNextTimer(now: nat) returns (r: nat)
      requires Valid() && now < TWO_64
      modifies this`tickled
      ensures Valid() && !tickled
      ensures timers == [] ==> r == TWO_64 - 1
      ensures forall t <- timers :: r <= if now >= t.next then 0 else t.next - now
      ensures timers != [] ==> exists t <- timers :: r == if now >= t.next then 0 else t.next - now
    {
      tickled := false;
      if timers == [] {
        return TWO_64 - 1;
      }
      FirstIsLeast(timers);
      r := if now >= timers[0].next then 0 else timers[0].next - now;
      assert timers[0] in timers;
    }

    // How many timers at the front have expired at now. The probe is a timer with
    // deadline now at an arbitrary address.
    method ExpiredCount(rollover: bool, now: nat, probe: nat) returns (k: nat)
      requires Ordered(timers)
      ensures k <= |timers|
      ensures forall i :: 0 <= i < |timers| ==> (i < k <==> rollover || timers[i].next <= now)
    {
      k := if rollover then |timers| else LowerBound(Keys(timers), Key(now, probe));
      while k < |timers| && timers[k].next == now
        invariant k <= |timers|
        invariant forall i :: 0 <= i < k ==> rollover || timers[i].next <= now
        invariant k < |timers| && !rollover ==> timers[k].next >= now
      {
        NextIsLater(timers, k);
        k := k + 1;
      }
      LaterThan(timers, k);
    }

    // An expired timer that recurs is put back for a period from now, and one that does
    // not is disarmed.
    method Rearm(t: Timer, now: nat)
      requires Ordered(timers) && t !in timers && t in all && (forall u <- timers :: u in all) && DistinctAddrs(all)
      modifies this`timers, t`next, t`cb
      ensures Ordered(timers)
      ensures if t.recurring then Plus(old(timers), t, timers) && t.next == Deadline(now, t.ms) && t.cb == old(t.cb)
              else timers == old(timers) && t.next == old(t.next) && t.cb.None?
    {
      hide Keys, Sorted, Ordered, DistinctAddrs, Deadline, Plus, AheadOf;
      if t.recurring {
        NotInKeys(timers, t, all);
        t.next := Deadline(now, t.ms);
        var _ := Insert(t);
      } else {
        t.cb := None;
      }
    }

    // The first n of the due timers have been put back or disarmed.
    twostate predicate Dealt(due: seq<Timer>, n: nat, now: nat)
      requires n <= |due|
      reads this, all
    {
      && all == old(all) && (forall t <- timers :: t in all) && Ordered(timers)
      && (forall t <- old(all) :: t in timers <==> t in old(timers) || (t in due[..n] && t.recurring))
      && (forall t <- old(all) ::
           t.next == if t in due[..n] && t.recurring then Deadline(now, t.ms) else old(t.next))
      && (forall t <- old(all) :: t.cb == if t in due[..n] && !t.recurring then None else old(t.cb))
    }

    method RearmAll(due: seq<Timer>, now: nat) returns (cbs: seq<nat>)
      requires Ordered(timers) && DistinctAddrs(all) && forall t <- timers :: t in all
      requires forall t <- due :: t in all && t !in timers && t.cb.Some?
      requires forall i, j :: 0 <= i < j < |due| ==> due[i] != due[j]
      modifies this`timers, all`next, all`cb
      ensures Dealt(due, |due|, now)
      ensures |cbs| == |due| && forall j :: 0 <= j < |due| ==> old(due[j].cb) == Some(cbs[j])
    {
      hide Keys, Sorted, Ordered, DistinctAddrs, Deadline;
      cbs := [];
      var i := 0;
      while i < |due|
        invariant i <= |due| && Dealt(due, i, now)
        invariant |cbs| == i && forall j :: 0 <= j < i ==> old(due[j].cb) == Some(cbs[j])
      {
        assert due[i] !in due[..i] && due[i] in due && due[..i + 1] == due[..i] + [due[i]];
        cbs := cbs + [due[i].cb.value];
        Rearm(due[i], now);
        i := i + 1;
      }
    }

    // The expired timers, removed from the set.
    method TakeExpired(now: nat, probe: nat) returns (due: seq<Timer>)
      requires Ordered(timers) && timers != []
      modifies this`timers, this`previous
      ensures Ordered(timers) && previous == now
      ensures |due| <= |old(timers)| && due == old(timers)[..|due|]
      ensures forall t <- old(timers) :: t in due <==> Rollover(old(previous), now) || t.next <= now
      ensures forall i, j :: 0 <= i < j < |due| ==> due[i] != due[j]
      ensures forall t <- old(timers) :: t in due <==> t !in timers
      ensures (forall t <- due :: t in old(timers)) && forall t <- timers :: t in old(timers)
    {
      hide Keys, Sorted, Ordered, Rollover;
      var rollover := Rollover(previous, now);
      previous := now;
      var k := 0;
      if rollover || timers[0].next <= now {
        k := ExpiredCount(rollover, now, probe);
      } else {
        LaterThan(timers, 0);
      }
      due := timers[..k];
      DistinctTimers(timers);
      AfterErase(timers, k);
      Halves(timers, k);
      timers := timers[k..];
    }

    // listExpiredCb: the callbacks of exactly the timers whose deadline has come, once
    // each and in the order of their deadlines, whatever the address of the probe.
    method ListExpired(now: nat, probe: nat) returns (cbs: seq<nat>, ghost expired: seq<Timer>)
      requires Valid() && now < TWO_64
      modifies this`timers, this`previous, all`next, all`cb
      ensures Valid() && previous == if old(timers) == [] then old(previous) else now
      ensures |expired| <= |old(timers)| && expired == old(timers)[..|expired|]
      ensures forall t <- old(timers) :: t in expired <==> Rollover(old(previous), now) || old(t.next) <= now
      ensures |cbs| == |expired| && forall i :: 0 <= i < |cbs| ==> old(expired[i].cb) == Some(cbs[i])
      ensures Deadlines(timers) == map t | t in old(timers) && (t in expired ==> t.recurring)
                                       :: if t in expired then Deadline(now, t.ms) else old(t.next)
    {
      hide Keys, Sorted, Ordered, DistinctAddrs, Deadline, Rollover;
      cbs, expired := [], [];
      if timers != [] {
        var due := TakeExpired(now, probe);
        expired := due;
        cbs := RearmAll(due, now);
        assert due[..|due|] == due;
      }
    }
  }

  lemma Halves(ts: seq<Timer>, k: nat)
    requires k <= |ts| && forall i, j :: 0 <= i < j < |ts| ==> ts[i] != ts[j]
    ensures forall t <- ts :: t in ts[..k] <==> t !in ts[k..]
    ensures forall t <- ts[..k] :: t in ts
  {
    assert ts == ts[..k] + ts[k..];
  }

  lemma NextIsLater(ts: seq<Timer>, k: nat)
    requires Ordered(ts) && k < |ts|
    ensures k + 1 < |ts| ==> ts[k].next <= ts[k + 1].next
  {
    var ks := Keys(ts);
    if k + 1 < |ts| {
      assert Before(ks[k], ks[k + 1]);
    }
  }

  lemma LaterThan(ts: seq<Timer>, k: nat)
    requires Ordered(ts)
    ensures forall i :: k <= i < |ts| ==> ts[k].next <= ts[i].next
  {
    var ks := Keys(ts);
    forall i | k < i < |ts| ensures ts[k].next <= ts[i].next {
      assert Before(ks[k], ks[i]);
    }
  }

  lemma DistinctTimers(ts: seq<Timer>)
    requires Ordered(ts)
    ensures forall i, j :: 0 <= i < j < |ts| ==> ts[i] != ts[j]
  {
    var ks := Keys(ts);
    forall i, j | 0 <= i < j < |ts| ensures ts[i] != ts[j] {
      assert Before(ks[i], ks[j]);
    }
  }

  lemma AfterErase(ts: seq<Timer>, k: nat)
    requires Ordered(ts) && k <= |ts|
    ensures Ordered(ts[k..])
  {
    KeysMatch(ts[k..], Keys(ts)[k..]);
  }

  lemma KeysMatch(ts: seq<Timer>, ks: seq<Key>)
    requires |ts| == |ks| && forall i :: 0 <= i < |ts| ==> ks[i] == KeyOf(ts[i])
    ensures Keys(ts) == ks
  {
  }

  lemma FindsArmed(ts: seq<Timer>, t: Timer)
    requires Ordered(ts) && t in ts
    ensures var i := LowerBound(Keys(ts), KeyOf(t)); i < |ts| && ts[i] == t
  {
    hide Keys, Sorted, LowerBound;
    var j :| 0 <= j < |ts| && ts[j] == t;
    LowerBoundFinds(Keys(ts), j);
  }

  lemma StaysOrdered(ts: seq<Timer>, i: nat)
    requires Ordered(ts) && i < |ts|
    ensures Ordered(ts[..i] + ts[i + 1..])
  {
    KeysMatch(ts[..i] + ts[i + 1..], Keys(ts)[..i] + Keys(ts)[i + 1..]);
  }

  lemma InsertOrdered(ts: seq<Timer>, t: Timer)
    requires Ordered(ts) && KeyOf(t) !in Keys(ts)
    ensures var i := LowerBound(Keys(ts), KeyOf(t)); Ordered(ts[..i] + [t] + ts[i..])
  {
    hide LowerBound, Keys, Sorted;
    var ks, i := Keys(ts), LowerBound(Keys(ts), KeyOf(t));
    LowerBoundSplits(ks, KeyOf(t));
    KeysMatch(ts[..i] + [t] + ts[i..], ks[..i] + [KeyOf(t)] + ks[i..]);
  }

  lemma OnlyOnce(ts: seq<Timer>, i: nat)
    requires Ordered(ts) && i < |ts|
    ensures Minus(ts, ts[i], ts[..i] + ts[i + 1..])
  {
    var ks := Keys(ts);
    forall j | 0 <= j < |ts| && j != i ensures ts[j] != ts[i] {
      assert Before(ks[if j < i then j else i], ks[if j < i then i else j]);
    }
    RemoveAt(ts, i);
  }

  lemma RemoveAt(ts: seq<Timer>, i: nat)
    requires i < |ts| && forall j :: 0 <= j < |ts| && j != i ==> ts[j] != ts[i]
    ensures Minus(ts, ts[i], ts[..i] + ts[i + 1..])
  {
    var rest := ts[..i] + ts[i + 1..];
    forall u | u in ts && u != ts[i] ensures u in rest {
      var j :| 0 <= j < |ts| && ts[j] == u;
      assert u == rest[if j < i then j else j - 1];
    }
  }

  lemma NewAddr(all: set<Timer>, t: Timer)
    requires DistinctAddrs(all - {t}) && forall u <- all - {t} :: u.addr != t.addr
    ensures DistinctAddrs(all)
  {
  }

  lemma InsertFront(ts: seq<Timer>, t: Timer)
    requires Ordered(ts) && KeyOf(t) !in Keys(ts)
    ensures LowerBound(Keys(ts), KeyOf(t)) == 0 <==> AheadOf(KeyOf(t), ts)
  {
    var ks := Keys(ts);
    if ts != [] && Before(KeyOf(t), ks[0]) {
      forall u | u in ts ensures Before(KeyOf(t), KeyOf(u)) {
        var j :| 0 <= j < |ts| && ts[j] == u;
        assert j > 0 ==> Before(ks[0], ks[j]);
      }
    } else if ts != [] {
      assert ts[0] in ts && ks[0] != KeyOf(t) && !Before(KeyOf(t), KeyOf(ts[0]));
    }
  }

  lemma NotInKeys(ts: seq<Timer>, t: Timer, all: set<Timer>)
    requires t !in ts && t in all && (forall u <- ts :: u in all) && DistinctAddrs(all)
    ensures forall k <- Keys(ts) :: k.addr != t.addr
  {
    forall k | k in Keys(ts) ensures k.addr != t.addr {
      var i :| 0 <= i < |ts| && Keys(ts)[i] == k;
      assert ts[i] in ts;
    }
  }

  lemma FirstIsLeast(ts: seq<Timer>)
    requires Ordered(ts) && ts != []
    ensures forall t <- ts :: ts[0].next <= t.next
  {
    var ks := Keys(ts);
    forall t | t in ts ensures ts[0].next <= t.next {
      var i :| 0 <= i < |ts| && ts[i] == t;
      assert i > 0 ==> Before(ks[0], ks[i]);
    }
  }
}
