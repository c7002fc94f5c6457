// The wait of an idle worker and the notifications that cut it short: getNextTimer,
// the flag m_tickled, the pipe, and epoll_wait in IOManager::idle, with timers added,
// reset, refreshed and cancelled by other threads at any moment in between.
module Wakeup {
  import opened Bytes

  const MAX_TIMEOUT: int := 5000
  const MAX_DELAY: int := 0x8000_0000

  datatype Armed = Armed(next: nat, ms: nat)

  // The worker runs tasks, is about to sample the timers, has computed its wait, is
  // blocked in epoll_wait since a time, or is back from it.
  datatype Pc =
    | Away | Idle
    | Computed(sample: nat, wait: nat)
    | Blocked(sample: nat, wait: nat, since: nat)
    | Awake

  // about counts the threads that have set m_tickled and have yet to call tickle();
  // pipe counts the unread bytes. A timer's key in the map stands for its address.
  datatype State = State(now: nat, timers: map<nat, Armed>, tickled: bool, about: nat, pipe: nat, pc: Pc)

  datatype Action =
    | Tick(ms: nat)
    | Add(id: nat, ms: nat, sampled: nat)      // the deadline is sampled before the lock is taken
    | Reset(id: nat, ms: nat, fromNow: bool)
    | Refresh(id: nat)
    | Cancel(id: nat)
    | Notify                                   // a thread that set m_tickled calls tickle()
    | EnterIdle
    | Sample(first: nat)                       // getNextTimer with first at the front
    | SampleNone
    | Block
    | Interrupt                                // EINTR: epoll_wait starts anew
    | Wake
    | Expire(rearmed: set<nat>, drained: bool) // listExpiredCb and reading the pipe
    | LeaveIdle

  function ToInt32(x: nat): int {
    var low := x % TWO_32;
    if low < MAX_DELAY then low else low - TWO_32
  }

  // The argument of epoll_wait for the result of getNextTimer; if negative it means
  // no limit.
  function Timeout(next: nat): int {
    if next == TWO_64 - 1 then MAX_TIMEOUT
    else if ToInt32(next) < MAX_TIMEOUT then ToInt32(next) else MAX_TIMEOUT
  }

  function Remaining(next: nat, now: nat): nat {
    if now >= next then 0 else next - now
  }

  predicate Less(a: nat, x: Armed, b: nat, y: Armed) {
    x.next < y.next || (x.next == y.next && a < b)
  }

  predicate AtFront(timers: map<nat, Armed>, id: nat, x: Armed) {
    forall k <- timers :: k != id ==> Less(id, x, k, timers[k])
  }

  // addTimer under the lock.
  function Insert(s: State, id: nat, x: Armed): State {
    var front := AtFront(s.timers, id, x) && !s.tickled;
    s.(timers := s.timers[id := x], tickled := s.tickled || front, about := s.about + if front then 1 else 0)
  }

  predicate Waiting(p: Pc) { p.Computed? || p.Blocked? }

  predicate HasIdle(p: Pc) { !p.Away? }

  predicate Enabled(s: State, a: Action) {
    match a
    case Tick(_) => true
    case Add(id, ms, sampled) => id !in s.timers && ms < MAX_DELAY && sampled <= s.now
    case Reset(id, ms, _) => id in s.timers && ms < MAX_DELAY && s.timers[id].ms <= s.timers[id].next
    case Refresh(id) => id in s.timers
    case Cancel(id) => id in s.timers
    case Notify => s.about > 0
    case EnterIdle => s.pc.Away?
    case Sample(id) => s.pc.Idle? && id in s.timers && AtFront(s.timers, id, s.timers[id])
                       && Timeout(Remaining(s.timers[id].next, s.now)) >= 0
    case SampleNone => s.pc.Idle? && s.timers == map[]
    case Block => s.pc.Computed?
    case Interrupt => s.pc.Blocked?
    case Wake => s.pc.Blocked?
    case Expire(_, _) => s.pc.Awake?
    case LeaveIdle => s.pc.Awake?
  }

  function Apply(s: State, a: Action): State
    requires Enabled(s, a)
  {
    match a
    case Tick(ms) => s.(now := s.now + ms)
    case Add(id, ms, sampled) => Insert(s, id, Armed(sampled + ms, ms))
    case Reset(id, ms, fromNow) =>
      var x := s.timers[id];
      if ms == x.ms && !fromNow then s
      else Insert(s.(timers := s.timers - {id}), id, Armed((if fromNow then s.now else x.next - x.ms) + ms, ms))
    case Refresh(id) => s.(timers := s.timers[id := Armed(s.now + s.timers[id].ms, s.timers[id].ms)])
    case Cancel(id) => s.(timers := s.timers - {id})
    case Notify => s.(about := s.about - 1, pipe := s.pipe + if HasIdle(s.pc) then 1 else 0)
    case EnterIdle => s.(pc := Idle)
    case Sample(id) =>
      s.(tickled := false, pc := Computed(s.now, Timeout(Remaining(s.timers[id].next, s.now))))
    case SampleNone => s.(tickled := false, pc := Computed(s.now, MAX_TIMEOUT))
    case Block => s.(pc := Blocked(s.pc.sample, s.pc.wait, s.now))
    case Interrupt => s.(pc := s.pc.(since := s.now))
    case Wake => s.(pc := Awake)
    case Expire(rearmed, drained) =>
      s.(timers := map k | k in s.timers && (s.timers[k].next > s.now || k in rearmed)
                   :: if s.timers[k].next > s.now then s.timers[k] else Armed(s.now + s.timers[k].ms, s.timers[k].ms),
         pipe := if drained then 0 else s.pipe)
    case LeaveIdle => s.(pc := Away)
  }

  predicate Notified(s: State) { s.about > 0 || s.pipe > 0 }

  // No timer was armed in the future: refresh, which never notifies, cannot bring a
  // deadline forward.
  predicate DelaysOk(s: State) {
    forall k <- s.timers :: s.timers[k].ms <= s.timers[k].next <= s.now + s.timers[k].ms && s.timers[k].ms < MAX_DELAY
  }

  predicate NoneDue(timers: map<nat, Armed>, t: nat) {
    forall k <- timers :: timers[k].next >= t
  }

  predicate WaitOk(s: State) {
    Waiting(s.pc) ==>
      && s.pc.sample <= s.now && s.pc.wait <= MAX_TIMEOUT
      && (s.pc.Blocked? ==> s.pc.sample <= s.pc.since <= s.now)
      && (s.tickled ==> Notified(s))
      && (Notified(s) || s.pc.wait == 0 || NoneDue(s.timers, s.pc.sample + s.pc.wait))
  }

  predicate Inv(s: State) { DelaysOk(s) && WaitOk(s) }

  // Below 2^31 milliseconds the cast to int changes nothing; from there on the wait
  // can be without limit.
  lemma TimeoutIs(next: nat)
    requires next < TWO_64
    ensures next < 0x8000_0000 ==> Timeout(next) == if next < 5000 then next else 5000
    ensures Timeout(TWO_64 - 1) == 5000
    ensures Timeout(next) < 0 <==> next != TWO_64 - 1 && 0x8000_0000 <= next % TWO_32
  {
  }

  lemma DelaysKept(s: State, a: Action)
    requires Inv(s) && Enabled(s, a)
    ensures DelaysOk(Apply(s, a))
  {
    hide WaitOk, Timeout, AtFront;
  }

  lemma InsertWaits(s: State, id: nat, x: Armed)
    requires WaitOk(s)
    ensures WaitOk(Insert(s, id, x))
  {
    if Waiting(s.pc) && !Notified(s) && !AtFront(s.timers, id, x) {
      var k :| k in s.timers && k != id && !Less(id, x, k, s.timers[k]);
      assert s.timers[k].next <= x.next;
    }
  }

  lemma SampleWaits(s: State, id: nat)
    requires Inv(s) && Enabled(s, Sample(id))
    ensures WaitOk(Apply(s, Sample(id)))
  {
    var x := s.timers[id];
    TimeoutIs(Remaining(x.next, s.now));
    assert forall k <- s.timers :: k != id ==> Less(id, x, k, s.timers[k]);
  }

  lemma WaitKept(s: State, a: Action)
    requires Inv(s) && Enabled(s, a)
    ensures WaitOk(Apply(s, a))
  {
    hide AtFront, Timeout, Less, Insert;
    if a.Add? {
      InsertWaits(s, a.id, Armed(a.sampled + a.ms, a.ms));
    } else if a.Reset? {
      var x := s.timers[a.id];
      if a.ms != x.ms || a.fromNow {
        InsertWaits(s.(timers := s.timers - {a.id}), a.id,
                    Armed((if a.fromNow then s.now else x.next - x.ms) + a.ms, a.ms));
      }
    } else if a.Sample? {
      SampleWaits(s, a.first);
    }
  }

  ghost predicate Reaches(s: State, steps: seq<Action>, s': State)
    decreases |steps|
  {
    if steps == [] then s == s' else Enabled(s, steps[0]) && Reaches(Apply(s, steps[0]), steps[1..], s')
  }

  lemma {:induction false} RunKeeps(s: State, steps: seq<Action>, s': State)
    requires Inv(s) && Reaches(s, steps, s')
    ensures Inv(s')
    decreases |steps|
  {
    hide Apply, Enabled, DelaysOk, WaitOk;
    if steps != [] {
      DelaysKept(s, steps[0]);
      WaitKept(s, steps[0]);
      RunKeeps(Apply(s, steps[0]), steps[1..], s');
    }
  }

  function Start(now: nat): State { State(now, map[], false, 0, 0, Away) }

  // Whenever the worker is blocked for a time, a notification is in the pipe or about to
  // be written, or no armed timer is due before the wait ends, up to the time that
  // passed between sampling the timers and the latest start of epoll_wait.
  lemma NoLostWakeup(now: nat, steps: seq<Action>, s: State)
    requires Reaches(Start(now), steps, s) && s.pc.Blocked? && s.pc.wait > 0
    ensures var end := s.pc.since + s.pc.wait;
      Notified(s) || forall k <- s.timers :: s.timers[k].next >= end - (s.pc.since - s.pc.sample)
    ensures forall k <- s.timers :: s.timers[k].next <= s.now + s.timers[k].ms
  {
    RunKeeps(Start(now), steps, s);
  }

  // A pending notification is not lost while the worker waits: it is still pending
  // after every step but the one by which the worker wakes.
  lemma NotificationStays(s: State, a: Action)
    requires Enabled(s, a) && Waiting(s.pc) && Notified(s) && !a.Wake?
    ensures Waiting(Apply(s, a).pc) && Notified(Apply(s, a))
  {
    hide AtFront, Timeout;
  }

  // getNextTimer never gives epoll_wait a negative timeout in a reachable state.
  lemma SampleEnabled(now: nat, steps: seq<Action>, s: State, id: nat)
    requires Reaches(Start(now), steps, s) && id in s.timers
    ensures 0 <= Timeout(Remaining(s.timers[id].next, s.now)) <= MAX_TIMEOUT
  {
    RunKeeps(Start(now), steps, s);
    TimeoutIs(Remaining(s.timers[id].next, s.now));
  }
}
