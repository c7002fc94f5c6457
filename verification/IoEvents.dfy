// The bookkeeping of IO events in iomanager.cc: which events are registered on each
// descriptor, whom they wake, what the kernel has been asked to watch, and the
// number of pending events.
module IoEvents {
  import opened Bytes

  datatype Event = READ | WRITE
  datatype Events = Events(read: bool, write: bool)

  const NONE := Events(false, false)

  predicate Has(es: Events, e: Event) { if e.READ? then es.read else es.write }

  function Put(es: Events, e: Event, on: bool): Events {
    if e.READ? then es.(read := on) else es.(write := on)
  }

  // A call of addEvent that succeeded, and what it wakes.
  datatype Wakes = ResumeFiber(fiber: nat) | RunCallback(cb: nat)
  datatype Registration = Registration(id: nat, wakes: Wakes)

  datatype FdContext = FdContext(events: Events, read: Option<Registration>, write: Option<Registration>)

  const NO_EVENTS := FdContext(NONE, None, None)

  function ContextOf(c: FdContext, e: Event): Option<Registration> {
    if e.READ? then c.read else c.write
  }

  function PutContext(c: FdContext, e: Event, r: Option<Registration>): FdContext {
    if e.READ? then c.(read := r) else c.(write := r)
  }

  // What has become of a registration.
  datatype Fate = Waiting(fd: nat, e: Event) | Scheduled(at: nat) | Deleted

  // scheduled lists what has been handed to the scheduler; fates has one entry for each
  // registration, and asked what addEvent was asked to wake by it; deleted counts those
  // that ended without waking anything.
  datatype Table = Table(fds: seq<FdContext>, pending: nat, scheduled: seq<Registration>, fates: seq<Fate>,
                         asked: seq<Wakes>, deleted: nat)

  function CountBits(fds: seq<FdContext>): nat {
    if fds == [] then 0 else CountBits(fds[..|fds| - 1]) + BitsOf(fds[|fds| - 1])
  }

  function BitsOf(c: FdContext): nat {
    (if c.events.read then 1 else 0) + (if c.events.write then 1 else 0)
  }

  // An event context is filled exactly when its bit is set, and then its registration
  // is one that waits for this event.
  predicate FdOk(t: Table, fd: nat, e: Event) {
    fd < |t.fds| ==>
      && (Has(t.fds[fd].events, e) <==> ContextOf(t.fds[fd], e).Some?)
      && (ContextOf(t.fds[fd], e).Some? ==>
           FateIs(t, ContextOf(t.fds[fd], e).value.id, Waiting(fd, e)) && AskedIs(t, ContextOf(t.fds[fd], e).value))
  }

  predicate AskedIs(t: Table, r: Registration) {
    r.id < |t.asked| && t.asked[r.id] == r.wakes
  }

  predicate FateIs(t: Table, id: nat, fate: Fate) {
    id < |t.fates| && t.fates[id] == fate
  }

  // Conversely what a fate says is so.
  predicate FateOk(t: Table, id: nat) {
    id < |t.fates| ==>
      match t.fates[id]
      case Waiting(fd, e) => fd < |t.fds| && ContextOf(t.fds[fd], e).Some? && ContextOf(t.fds[fd], e).value.id == id
      case Scheduled(i) => i < |t.scheduled| && t.scheduled[i].id == id
      case Deleted => true
  }

  // Each registration is waiting, has been scheduled once or was deleted; the pending
  // count is the number of set bits.
  ghost predicate TableOk(t: Table) {
    && (forall fd: nat, e :: FdOk(t, fd, e))
    && (forall id: nat :: FateOk(t, id))
    && (forall i :: 0 <= i < |t.scheduled| ==> FateIs(t, t.scheduled[i].id, Scheduled(i)) && AskedIs(t, t.scheduled[i]))
    && t.pending == CountBits(t.fds) && |t.fds| >= 32
    && |t.asked| == |t.fates| == t.pending + |t.scheduled| + t.deleted
  }

  lemma {:induction false} CountUpdate(fds: seq<FdContext>, fd: nat, c: FdContext)
    requires fd < |fds|
    ensures CountBits(fds[fd := c]) + BitsOf(fds[fd]) == CountBits(fds) + BitsOf(c)
  {
    var n := |fds| - 1;
    if fd < n {
      CountUpdate(fds[..n], fd, c);
      assert fds[fd := c][..n] == fds[..n][fd := c];
    } else {
      assert fds[fd := c][..n] == fds[..n];
    }
  }

  lemma {:induction false} CountGrow(fds: seq<FdContext>, n: nat)
    ensures CountBits(fds + seq(n, _ => NO_EVENTS)) == CountBits(fds)
  {
    var s := fds + seq(n, _ => NO_EVENTS);
    if n == 0 {
      assert s == fds;
    } else {
      CountGrow(fds, n - 1);
      assert s[..|s| - 1] == fds + seq(n - 1, _ => NO_EVENTS);
    }
  }

  // ---- The changes -----------------------------------------------------------------------

  function Grown(t: Table, size: nat): Table {
    if size <= |t.fds| then t else t.(fds := t.fds + seq(size - |t.fds|, _ => NO_EVENTS))
  }

  function Added(t: Table, fd: nat, e: Event, wakes: Wakes): Table
    requires fd < |t.fds|
  {
    var c := t.fds[fd];
    var c' := PutContext(c, e, Some(Registration(|t.fates|, wakes))).(events := Put(c.events, e, true));
    t.(fds := t.fds[fd := c'], pending := t.pending + 1, fates := t.fates + [Waiting(fd, e)],
      asked := t.asked + [wakes])
  }

  // The event is removed; whom it wakes is scheduled, or not.
  function Removed(t: Table, fd: nat, e: Event, schedule: bool): Table
    requires fd < |t.fds| && ContextOf(t.fds[fd], e).Some? && t.pending > 0
  {
    var c := t.fds[fd];
    var r := ContextOf(c, e).value;
    var t' := t.(fds := t.fds[fd := PutContext(c, e, None).(events := Put(c.events, e, false))],
                 pending := t.pending - 1, scheduled := if schedule then t.scheduled + [r] else t.scheduled,
                 deleted := if schedule then t.deleted else t.deleted + 1);
    if r.id < |t.fates| then t'.(fates := t.fates[r.id := if schedule then Scheduled(|t.scheduled|) else Deleted])
    else t'
  }

  lemma GrownOk(t: Table, size: nat)
    requires TableOk(t)
    ensures TableOk(Grown(t, size))
  {
    hide CountBits;
    var t' := Grown(t, size);
    if size > |t.fds| {
      CountGrow(t.fds, size - |t.fds|);
    }
    forall fd: nat, e ensures FdOk(t', fd, e) {
      assert FdOk(t, fd, e);
    }
    forall id: nat ensures FateOk(t', id) {
      assert FateOk(t, id);
    }
  }

  lemma AddedOk(t: Table, fd: nat, e: Event, wakes: Wakes)
    requires TableOk(t) && fd < |t.fds| && !Has(t.fds[fd].events, e)
    ensures TableOk(Added(t, fd, e, wakes))
  {
    hide CountBits;
    var t' := Added(t, fd, e, wakes);
    CountUpdate(t.fds, fd, t'.fds[fd]);
    forall fd': nat, e' ensures FdOk(t', fd', e') {
      assert FdOk(t, fd', e');
    }
    forall id: nat ensures FateOk(t', id) {
      assert FateOk(t, id) && FdOk(t, fd, e);
    }
  }

  lemma SomePending(t: Table, fd: nat, e: Event)
    requires TableOk(t) && fd < |t.fds| && Has(t.fds[fd].events, e)
    ensures t.pending >= BitsOf(t.fds[fd]) > 0 && ContextOf(t.fds[fd], e).Some?
  {
    hide CountBits;
    assert FdOk(t, fd, e);
    CountUpdate(t.fds, fd, NO_EVENTS);
  }

  lemma RemovedOk(t: Table, fd: nat, e: Event, schedule: bool)
    requires TableOk(t) && fd < |t.fds| && Has(t.fds[fd].events, e)
    requires t.pending > 0 && ContextOf(t.fds[fd], e).Some?
    ensures TableOk(Removed(t, fd, e, schedule))
  {
    hide CountBits;
    var t' := Removed(t, fd, e, schedule);
    assert FdOk(t, fd, e);
    CountUpdate(t.fds, fd, t'.fds[fd]);
    forall fd': nat, e' ensures FdOk(t', fd', e') {
      assert FdOk(t, fd', e');
    }
    forall id: nat ensures FateOk(t', id) {
      assert FateOk(t, id);
    }
  }

  lemma RemovedEvents(t: Table, fd: nat, e: Event, schedule: bool)
    requires fd < |t.fds| && ContextOf(t.fds[fd], e).Some? && t.pending > 0
    ensures var t' := Removed(t, fd, e, schedule);
      && |t'.fds| == |t.fds| && |t'.fates| == |t.fates| && t'.asked == t.asked
      && t'.fds[fd].events == Put(t.fds[fd].events, e, false)
      && (forall k :: 0 <= k < |t.fds| && k != fd ==> t'.fds[k] == t.fds[k])
      && t'.scheduled == t.scheduled + if schedule then [ContextOf(t.fds[fd], e).value] else []
  {
  }

  // No registration is scheduled twice.
  lemma ScheduledOnce(t: Table, i: nat, j: nat)
    requires TableOk(t) && i < j < |t.scheduled|
    ensures t.scheduled[i].id != t.scheduled[j].id
  {
    assert FateIs(t, t.scheduled[i].id, Scheduled(i)) && FateIs(t, t.scheduled[j].id, Scheduled(j));
  }

  // ---- Any operations ----------------------------------------------------------------------

  // What the operations do to the table, one event at a time.
  datatype Change = Grow(size: nat) | Add(fd: nat, e: Event, wakes: Wakes) | Remove(fd: nat, e: Event, schedule: bool)

  predicate Possible(t: Table, c: Change) {
    match c
    case Grow(_) => true
    case Add(fd, e, _) => fd < |t.fds| && !Has(t.fds[fd].events, e)
    case Remove(fd, e, _) => fd < |t.fds| && Has(t.fds[fd].events, e) && ContextOf(t.fds[fd], e).Some? && t.pending > 0
  }

  function Changed(t: Table, c: Change): Table
    requires Possible(t, c)
  {
    match c
    case Grow(size) => Grown(t, size)
    case Add(fd, e, wakes) => Added(t, fd, e, wakes)
    case Remove(fd, e, schedule) => Removed(t, fd, e, schedule)
  }

  ghost predicate Leads(t: Table, cs: seq<Change>, t': Table)
    decreases |cs|
  {
    if cs == [] then t == t' else Possible(t, cs[0]) && Leads(Changed(t, cs[0]), cs[1..], t')
  }

  lemma ChangeKeeps(t: Table, c: Change)
    requires TableOk(t) && Possible(t, c)
    ensures TableOk(Changed(t, c)) && t.asked <= Changed(t, c).asked
  {
    hide TableOk;
    match c
    case Grow(size) => GrownOk(t, size);
    case Add(fd, e, wakes) => AddedOk(t, fd, e, wakes);
    case Remove(fd, e, schedule) => RemovedOk(t, fd, e, schedule);
  }

  // Whatever operations follow: a registration keeps what it was asked to wake, and if it is
  // ever scheduled, that is what is scheduled.
  lemma {:induction false} WakesAsAsked(t: Table, cs: seq<Change>, t': Table, id: nat, i: nat)
    requires TableOk(t) && Leads(t, cs, t') && id < |t.asked|
    ensures TableOk(t') && id < |t'.asked| && t'.asked[id] == t.asked[id]
    ensures i < |t'.scheduled| && t'.scheduled[i].id == id ==> t'.scheduled[i] == Registration(id, t.asked[id])
    decreases |cs|
  {
    hide Possible, Changed;
    if cs == [] {
      assert i < |t.scheduled| ==> AskedIs(t, t.scheduled[i]);
    } else {
      hide TableOk;
      ChangeKeeps(t, cs[0]);
      WakesAsAsked(Changed(t, cs[0]), cs[1..], t', id, i);
    }
  }

  // ---- The kernel ------------------------------------------------------------------------

  datatype CtlOp = ADD | MOD | DEL

  type Interest = map<nat, Events>

  // ADD is for a descriptor not yet watched, MOD and DEL for one that is.
  predicate Legal(op: CtlOp, fd: nat, m: Interest) {
    op.ADD? <==> fd !in m
  }

  // The kernel watches exactly the events whose bits are set.
  ghost predicate InterestOk(fds: seq<FdContext>, m: Interest) {
    forall fd: nat :: if fd < |fds| && fds[fd].events != NONE then fd in m && m[fd] == fds[fd].events else fd !in m
  }

  function Watch(m: Interest, fd: nat, es: Events): Interest {
    if es == NONE then m - {fd} else m[fd := es]
  }

  // What epoll_wait reports for a descriptor, ERR and HUP taken together.
  datatype Report = Report(input: bool, output: bool, failure: bool)

  // What the kernel can report of a descriptor: besides ERR and HUP only what it watches.
  predicate Reportable(m: Interest, fd: nat, r: Report) {
    fd in m && Subset(Events(r.input, r.output), m[fd])
  }

  function RealEvents(r: Report, es: Events): Events {
    Events(r.input || (r.failure && es.read), r.output || (r.failure && es.write))
  }

  predicate Overlap(a: Events, b: Events) { (a.read && b.read) || (a.write && b.write) }
  predicate Subset(a: Events, b: Events) { (a.read ==> b.read) && (a.write ==> b.write) }
  function Minus(a: Events, b: Events): Events { Events(a.read && !b.read, a.write && !b.write) }

  // What the contexts of these events hold, the reading one first.
  function Held(c: FdContext, es: Events): seq<Registration> {
    (if es.read && c.read.Some? then [c.read.value] else []) + if es.write && c.write.Some? then [c.write.value] else []
  }

  lemma HeldBy(t: Table, fd: nat, es: Events)
    requires TableOk(t) && fd < |t.fds|
    ensures Held(t.fds[fd], Events(true, true)) == Held(t.fds[fd], t.fds[fd].events)
    ensures !Overlap(t.fds[fd].events, es) ==> Held(t.fds[fd], es) == []
  {
    assert FdOk(t, fd, READ) && FdOk(t, fd, WRITE);
  }

  lemma NotHeld(t: Table, fd: nat, e: Event)
    requires TableOk(t) && fd < |t.fds| && !Has(t.fds[fd].events, e)
    ensures ContextOf(t.fds[fd], e).None? && |t.asked| == |t.fates|
  {
    assert FdOk(t, fd, e);
  }

  // Every event of es, all of them set, is removed and schedules whom it wakes.
  ghost function Triggered(t: Table, fd: nat, es: Events): Table
    requires TableOk(t) && fd < |t.fds| && Subset(es, t.fds[fd].events)
  {
    var t1 := if es.read then
                (SomePending(t, fd, READ); RemovedOk(t, fd, READ, true); Removed(t, fd, READ, true))
              else t;
    if es.write then
      (SomePending(t1, fd, WRITE); RemovedOk(t1, fd, WRITE, true); Removed(t1, fd, WRITE, true))
    else t1
  }

  lemma TriggeredOk(t: Table, fd: nat, es: Events)
    requires TableOk(t) && fd < |t.fds| && Subset(es, t.fds[fd].events)
    ensures var t' := Triggered(t, fd, es);
      && TableOk(t') && |t'.fds| == |t.fds| && |t'.fates| == |t.fates|
      && t'.fds[fd].events == Minus(t.fds[fd].events, es)
      && forall fd' :: 0 <= fd' < |t.fds| && fd' != fd ==> t'.fds[fd'] == t.fds[fd']
  {
    hide TableOk;
    var t1 := t;
    if es.read {
      SomePending(t, fd, READ);
      RemovedOk(t, fd, READ, true);
      t1 := Removed(t, fd, READ, true);
    }
    if es.write {
      SomePending(t1, fd, WRITE);
      RemovedOk(t1, fd, WRITE, true);
    }
  }

  lemma WatchOk(fds: seq<FdContext>, m: Interest, fd: nat, fds': seq<FdContext>)
    requires InterestOk(fds, m) && fd < |fds| == |fds'|
    requires forall fd' :: 0 <= fd' < |fds| && fd' != fd ==> fds'[fd'] == fds[fd']
    ensures InterestOk(fds', Watch(m, fd, fds'[fd].events))
  {
    var m' := Watch(m, fd, fds'[fd].events);
    forall fd': nat
      ensures if fd' < |fds'| && fds'[fd'].events != NONE then fd' in m' && m'[fd'] == fds'[fd'].events
              else fd' !in m'
    {
    }
  }

  // ---- The operations ----------------------------------------------------------------------

  class IOManager {
    var fds: seq<FdContext>
    var pending: nat
    var scheduled: seq<Registration>
    var interest: Interest
    ghost var fates: seq<Fate>
    ghost var asked: seq<Wakes>
    ghost var deleted: nat
    var registered: nat

    ghost function State(): Table
      reads this
    {
      Table(fds, pending, scheduled, fates, asked, deleted)
    }

    ghost predicate Valid()
      reads this
    {
      TableOk(State()) && InterestOk(fds, interest) && registered == |fates|
    }

    constructor ()
      ensures Valid() && |fds| == 32 && pending == 0 && scheduled == [] && interest == map[]
    {
      fds, pending, scheduled, interest := seq(32, _ => NO_EVENTS), 0, [], map[];
      fates, asked, deleted, registered := [], [], 0, 0;
      new;
      CountGrow([], 32);
      assert [] + fds == fds;
    }

    // epoll_ctl; fail stands for whatever else can make it fail.
    method EpollCtl(op: CtlOp, fd: nat, es: Events, fail: bool) returns (ok: bool)
      modifies this`interest
      ensures ok <==> !fail && Legal(op, fd, old(interest))
      ensures interest == if !ok then old(interest) else if op.DEL? then old(interest) - {fd}
                          else old(interest)[fd := es]
    {
      ok := !fail && Legal(op, fd, interest);
      if ok {
        interest := if op.DEL? then interest - {fd} else interest[fd := es];
      }
    }

    // FdContext::triggerEvent and the decrement of the count that follows every call of it.
    method Trigger(fd: nat, e: Event)
      requires TableOk(State()) && fd < |fds| && Has(fds[fd].events, e)
      requires pending > 0 && ContextOf(fds[fd], e).Some?
      modifies this`fds, this`pending, this`scheduled, this`fates
      ensures State() == Removed(old(State()), fd, e, true)
      ensures scheduled == old(scheduled) + [old(ContextOf(fds[fd], e).value)] && asked == old(asked)
    {
      var c := fds[fd];
      var r := ContextOf(c, e).value;
      assert FdOk(State(), fd, e);
      fates := fates[r.id := Fate.Scheduled(|scheduled|)];
      fds := fds[fd := PutContext(c, e, None).(events := Put(c.events, e, false))];
      scheduled := scheduled + [r];
      pending := pending - 1;
    }

    // A context is added for a descriptor beyond the table, which grows by half of the
    // descriptor's number. The event must not be registered yet.
    method AddEvent(fd: nat, e: Event, cb: Option<nat>, fiber: nat, fail: bool) returns (rt: int)
      requires Valid() && (fd < |fds| ==> !Has(fds[fd].events, e))
      modifies this
      ensures Valid() && rt == if fail then -1 else 0
      ensures var t := Grown(old(State()), if fd < |old(fds)| then 0 else fd * 3 / 2);
        fd < |t.fds| && State() == if fail then t
                                   else Added(t, fd, e, if cb.Some? then RunCallback(cb.value) else ResumeFiber(fiber))
      ensures var wakes := if cb.Some? then RunCallback(cb.value) else ResumeFiber(fiber);
        && asked == (if fail then old(asked) else old(asked) + [wakes]) && fd < |fds|
        && ContextOf(fds[fd], e) == if fail then None else Some(Registration(|old(asked)|, wakes))
      ensures forall fd': nat, e' :: fd' < |fds| && (fd', e') != (fd, e) ==>
        ContextOf(fds[fd'], e') == if fd' < |old(fds)| then ContextOf(old(fds)[fd'], e') else None
    {
      hide TableOk, InterestOk, Grown, Added;
      Grow(fd);
      assert forall k :: 0 <= k < |old(fds)| ==> fds[k] == fds[..|old(fds)|][k];
      NotHeld(State(), fd, e);
      rt := Register(fd, e, if cb.Some? then RunCallback(cb.value) else ResumeFiber(fiber), fail);
    }

    // The part of addEvent under the descriptor's lock.
    method Register(fd: nat, e: Event, wakes: Wakes, fail: bool) returns (rt: int)
      requires Valid() && fd < |fds| && !Has(fds[fd].events, e)
      modifies this
      ensures Valid() && rt == (if fail then -1 else 0) && |fds| == |old(fds)|
      ensures State() == if fail then old(State()) else Added(old(State()), fd, e, wakes)
      ensures asked == (if fail then old(asked) else old(asked) + [wakes])
      ensures ContextOf(fds[fd], e) == if fail then None else Some(Registration(|old(asked)|, wakes))
      ensures forall fd': nat, e' :: fd' < |fds| && (fd', e') != (fd, e) ==>
        ContextOf(fds[fd'], e') == ContextOf(old(fds)[fd'], e')
    {
      hide TableOk, InterestOk;
      NotHeld(State(), fd, e);
      var c := fds[fd];
      IsLegal(fds, interest, fd);
      var op := if c.events != NONE then MOD else ADD;
      var ok := EpollCtl(op, fd, Put(c.events, e, true), fail);
      if !ok {
        return -1;
      }
      AddedOk(State(), fd, e, wakes);
      WatchOk(fds, old(interest), fd, Added(State(), fd, e, wakes).fds);
      pending := pending + 1;
      fds := fds[fd := PutContext(c, e, Some(Registration(registered, wakes))).(events := Put(c.events, e, true))];
      fates, asked := fates + [Waiting(fd, e)], asked + [wakes];
      registered := registered + 1;
      rt := 0;
    }

    method Grow(fd: nat)
      requires Valid()
      modifies this`fds
      ensures Valid() && State() == Grown(old(State()), if fd < |old(fds)| then 0 else fd * 3 / 2) && fd < |fds|
      ensures fd < |old(fds)| ==> fds == old(fds)
      ensures |fds| >= |old(fds)| && fds[..|old(fds)|] == old(fds)
      ensures forall k :: |old(fds)| <= k < |fds| ==> fds[k] == NO_EVENTS
    {
      if fd >= |fds| {
        GrownOk(State(), fd * 3 / 2);
        fds := fds + seq(fd * 3 / 2 - |fds|, _ => NO_EVENTS);
      }
    }

    // delEvent and, with wake, cancelEvent.
    method DropEvent(fd: nat, e: Event, wake: bool, fail: bool) returns (r: bool)
      requires Valid()
      modifies this
      ensures Valid() && r == (fd < |old(fds)| && Has(old(fds)[fd].events, e) && !fail)
      ensures !r ==> State() == old(State())
      ensures r ==> old(pending) > 0 && ContextOf(old(fds)[fd], e).Some?
                    && State() == Removed(old(State()), fd, e, wake)
      ensures asked == old(asked)
      ensures scheduled == old(scheduled) + if r && wake then [old(ContextOf(fds[fd], e).value)] else []
    {
      hide TableOk, InterestOk;
      if fd >= |fds| || !Has(fds[fd].events, e) {
        return false;
      }
      IsLegal(fds, interest, fd);
      SomePending(State(), fd, e);
      RemovedEvents(State(), fd, e, wake);
      var left := Put(fds[fd].events, e, false);
      var ok := EpollCtl(if left != NONE then MOD else DEL, fd, left, fail);
      if !ok {
        return false;
      }
      ghost var t := Removed(State(), fd, e, wake);
      RemovedOk(State(), fd, e, wake);
      WatchOk(fds, old(interest), fd, t.fds);
      hide Removed;
      if wake {
        Trigger(fd, e);
      } else {
        Forget(fd, e);
      }
      r := true;
    }

    // The context is reset and the count decremented.
    method Forget(fd: nat, e: Event)
      requires TableOk(State()) && fd < |fds| && Has(fds[fd].events, e)
      requires pending > 0 && ContextOf(fds[fd], e).Some?
      modifies this`fds, this`pending, this`deleted, this`fates
      ensures State() == Removed(old(State()), fd, e, false)
    {
      hide TableOk;
      ContextFate(State(), fd, e);
      fates := fates[ContextOf(fds[fd], e).value.id := Deleted];
      deleted := deleted + 1;
      pending := pending - 1;
      fds := fds[fd := PutContext(fds[fd], e, None).(events := Put(fds[fd].events, e, false))];
    }

    method CancelAll(fd: nat, fail: bool) returns (r: bool)
      requires Valid()
      modifies this
      ensures Valid() && r == (fd < |old(fds)| && old(fds)[fd].events != NONE && !fail)
      ensures State() == if r then old(Triggered(State(), fd, fds[fd].events)) else old(State())
      ensures r ==> fds[fd].events == NONE
      ensures asked == old(asked)
      ensures scheduled == old(scheduled) + if r then old(Held(fds[fd], Events(true, true))) else []
    {
      hide TableOk, InterestOk, Triggered;
      if fd >= |fds| || fds[fd].events == NONE {
        return false;
      }
      IsLegal(fds, interest, fd);
      var ok := EpollCtl(DEL, fd, NONE, fail);
      if !ok {
        return false;
      }
      HeldBy(State(), fd, NONE);
      TriggeredOk(State(), fd, fds[fd].events);
      WatchOk(fds, old(interest), fd, Triggered(State(), fd, fds[fd].events).fds);
      TriggerSome(fd, fds[fd].events);
      r := true;
    }

    method TriggerSome(fd: nat, es: Events)
      requires TableOk(State()) && fd < |fds| && Subset(es, fds[fd].events)
      modifies this`fds, this`pending, this`scheduled, this`fates
      ensures State() == old(Triggered(State(), fd, es))
      ensures scheduled == old(scheduled) + old(Held(fds[fd], es))
    {
      hide TableOk;
      if es.read {
        SomePending(State(), fd, READ);
        RemovedOk(State(), fd, READ, true);
        Trigger(fd, READ);
      }
      if es.write {
        SomePending(State(), fd, WRITE);
        RemovedOk(State(), fd, WRITE, true);
        Trigger(fd, WRITE);
      }
    }

    // idle()'s handling of one report. The assertion in triggerEvent fails exactly when
    // the report has a registered event and one that is not registered, and epoll_ctl
    // succeeds. So a report that the kernel could still make is safe, and one that it could
    // make for an earlier interest set fails only if an event has ended since.
    method Deliver(fd: nat, report: Report, fail: bool) returns (asserted: bool)
      requires Valid() && fd < |fds|
      modifies this
      ensures var (es, hits) := (old(fds)[fd].events, RealEvents(report, old(fds)[fd].events));
        && (asserted <==> !fail && Overlap(es, hits) && !Subset(hits, es))
        && (Reportable(old(interest), fd, report) ==> !asserted)
        && (forall m: Interest :: Reportable(m, fd, report) && asserted ==> Minus(m[fd], es) != NONE)
        && (!asserted ==> Valid() && State() == if !fail && Overlap(es, hits) then old(Triggered(State(), fd, hits))
                                                else old(State()))
        && asked == old(asked)
        && scheduled == old(scheduled) + if !asserted && !fail then old(Held(fds[fd], hits)) else []
    {
      hide TableOk, InterestOk, Triggered;
      var es := fds[fd].events;
      var hits := RealEvents(report, es);
      HeldBy(State(), fd, hits);
      asserted := false;
      if !Overlap(es, hits) {
        return;
      }
      IsLegal(fds, interest, fd);
      var left := Minus(es, hits);
      var ok := EpollCtl(if left != NONE then MOD else DEL, fd, left, fail);
      if !ok {
        return;
      }
      if !Subset(hits, es) {
        return true;
      }
      TriggeredOk(State(), fd, hits);
      WatchOk(fds, old(interest), fd, Triggered(State(), fd, hits).fds);
      TriggerSome(fd, hits);
    }
  }

  // Such a report: epoll_wait has returned both events of a descriptor, and another
  // thread's delEvent ends one of them before the report is handled.
  method StaleReport() returns (m: IOManager, ghost asked: Interest, report: Report, asserted: bool)
    ensures Reportable(asked, 0, report) && asserted
  {
    m := new IOManager();
    report := Report(true, true, false);
    var rt := m.AddEvent(0, READ, None, 0, false);
    assert m.fds[0].events == Events(true, false);
    rt := m.AddEvent(0, WRITE, None, 1, false);
    assert m.fds[0].events == Events(true, true);
    asked := m.interest;
    var deleted := m.DropEvent(0, WRITE, false, false);
    assert m.fds[0].events == Events(true, false);
    asserted := m.Deliver(0, report, false);
  }

  lemma IsLegal(fds: seq<FdContext>, m: Interest, fd: nat)
    requires InterestOk(fds, m) && fd < |fds|
    ensures fd in m <==> fds[fd].events != NONE
    ensures fd in m ==> m[fd] == fds[fd].events
  {
  }

  lemma ContextFate(t: Table, fd: nat, e: Event)
    requires TableOk(t) && fd < |t.fds| && ContextOf(t.fds[fd], e).Some?
    ensures ContextOf(t.fds[fd], e).value.id < |t.fates|
  {
    assert FdOk(t, fd, e);
  }
}
