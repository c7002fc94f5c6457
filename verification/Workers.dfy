// Every interleaving of the scheduler's workers: one step per critical section,
// counter update, fiber switch or idle check of Scheduler::run.
module Workers {
  import opened Scheduler
  import Fibers

  // Where a worker stands in run(): before the scan, holding the task it took, inside
  // resume, back from resume, having found no task, before the check that idle()
  // makes, back from the idle fiber, or past the end of run().
  datatype Pc =
    | Scanning
    | Holding(e: Entry)
    | Executing(e: Entry, fiber: nat)
    | Returned(e: Entry)
    | NoTask | Idling | LeavingIdle | Exited

  // idleEnded: the worker's idle fiber has ended, because stopping() returned true.
  datatype Worker = Worker(pc: Pc, idleEnded: bool)

  // What has become of a ticket, and how often its task has been resumed.
  datatype Place = InQueue | With(worker: nat) | Done
  datatype Ticket = Ticket(place: Place, runs: nat)

  datatype System = System(tasks: seq<Entry>, active: nat, idle: nat, stopping: bool,
                           workers: seq<Worker>, fibers: seq<Fiber>, tickets: seq<Ticket>, completed: nat)

  // from is the worker whose running task acts, or none for a thread outside.
  datatype Action =
    | Post(from: Option<nat>, thread: int)           // schedule a callback
    | Spawn(from: Option<nat>, thread: int)          // schedule a new fiber
    | Arm(worker: nat)                             // a running fiber arms an event or timer that will wake it
    | Fire(from: Option<nat>, fiber: nat, thread: int)  // that event or timer schedules the fiber
    | Stop
    | Take(worker: nat)
    | Begin(worker: nat)
    | Yield(worker: nat)
    | End(worker: nat)
    | Finish(worker: nat)
    | EnterIdle(worker: nat)
    | CheckIdle(worker: nat)
    | LeaveIdle(worker: nat)

  import opened Bytes

  predicate At(s: System, w: nat) { w < |s.workers| }

  predicate Runs(s: System, w: nat) {
    At(s, w) && s.workers[w].pc.Executing?
  }

  // After stop() only running tasks create tasks.
  predicate MaySchedule(s: System, from: Option<nat>) {
    match from case None => !s.stopping case Some(w) => Runs(s, w)
  }

  function WakeOf(s: System, f: nat): Wake {
    if f < |s.fibers| then s.fibers[f].wake else NoWake
  }

  // A fiber arms one wake-up at a time and does not end while one is outstanding.
  predicate Enabled(s: System, a: Action) {
    match a
    case Post(from, _) => MaySchedule(s, from)
    case Spawn(from, _) => MaySchedule(s, from)
    case Arm(w) => Runs(s, w) && WakeOf(s, s.workers[w].pc.fiber).NoWake? && s.workers[w].pc.fiber < |s.fibers|
    case Fire(from, f, _) => MaySchedule(s, from) && f < |s.fibers| && s.fibers[f].wake.Armed?
    case Stop => true
    case Take(w) => At(s, w) && s.workers[w].pc.Scanning?
    case Begin(w) => At(s, w) && s.workers[w].pc.Holding?
    case Yield(w) => Runs(s, w) && s.workers[w].pc.fiber < |s.fibers|
    case End(w) => Runs(s, w) && s.workers[w].pc.fiber < |s.fibers| && WakeOf(s, s.workers[w].pc.fiber).NoWake?
    case Finish(w) => At(s, w) && s.workers[w].pc.Returned? && s.active > 0
    case EnterIdle(w) => At(s, w) && s.workers[w].pc.NoTask?
    case CheckIdle(w) => At(s, w) && s.workers[w].pc.Idling?
    case LeaveIdle(w) => At(s, w) && s.workers[w].pc.LeavingIdle? && s.idle > 0
  }

  function Go(s: System, w: nat, pc: Pc): System
    requires At(s, w)
  {
    s.(workers := s.workers[w := s.workers[w].(pc := pc)])
  }

  function Push(s: System, job: Job, thread: int): System {
    s.(tasks := s.tasks + [Entry(|s.tickets|, job, thread)], tickets := s.tickets + [Ticket(InQueue, 0)])
  }

  function SetFiber(s: System, f: nat, x: Fiber): System
    requires f < |s.fibers|
  {
    s.(fibers := s.fibers[f := x])
  }

  function SetTicket(s: System, t: nat, x: Ticket): System {
    if t < |s.tickets| then s.(tickets := s.tickets[t := x]) else s
  }

  function RunsOf(s: System, t: nat): nat {
    if t < |s.tickets| then s.tickets[t].runs else 0
  }

  function Apply(s: System, a: Action): System
    requires Enabled(s, a)
  {
    match a
    case Post(_, thread) => Push(s, Callback, thread)
    case Spawn(_, thread) =>
      Push(s.(fibers := s.fibers + [Fiber(Ready, Queued(|s.tickets|))]), Resume(|s.fibers|), thread)
    case Arm(w) =>
      var f := s.workers[w].pc.fiber;
      SetFiber(s, f, s.fibers[f].(wake := Armed))
    case Fire(_, f, thread) =>
      Push(SetFiber(s, f, s.fibers[f].(wake := Queued(|s.tickets|))), Resume(f), thread)
    case Stop => s.(stopping := true)
    case Take(w) => DoTake(s, w, First(s.tasks, w, s.fibers))
    case Begin(w) => DoBegin(s, w)
    case Yield(w) => DoLeave(s, w, Ready)
    case End(w) => DoLeave(s, w, Ended)
    case Finish(w) =>
      var t := s.workers[w].pc.e.ticket;
      Go(SetTicket(s, t, Ticket(Done, RunsOf(s, t))), w, Scanning)
      .(active := s.active - 1, completed := s.completed + 1)
    case EnterIdle(w) =>
      if s.workers[w].idleEnded then Go(s, w, Exited) else Go(s, w, Idling).(idle := s.idle + 1)
    case CheckIdle(w) =>
      var stopped := MayStop(s.stopping, s.tasks, s.active);
      s.(workers := s.workers[w := Worker(LeavingIdle, stopped)])
    case LeaveIdle(w) => Go(s, w, Scanning).(idle := s.idle - 1)
  }

  function DoTake(s: System, w: nat, k: nat): System
    requires At(s, w) && k <= |s.tasks|
  {
    if k == |s.tasks| then Go(s, w, NoTask)
    else
      var e := s.tasks[k];
      var s1 := Go(SetTicket(s, e.ticket, Ticket(With(w), RunsOf(s, e.ticket))), w, Holding(e));
      var s2 := s1.(tasks := Without(s.tasks, k), active := s.active + 1);
      if e.job.Resume? && e.job.fiber < |s.fibers|
      then SetFiber(s2, e.job.fiber, s.fibers[e.job.fiber].(wake := InHand(w))) else s2
  }

  // A callback runs in a fiber made for it.
  function DoBegin(s: System, w: nat): System
    requires At(s, w) && s.workers[w].pc.Holding?
  {
    var e := s.workers[w].pc.e;
    var f := if e.job.Resume? then e.job.fiber else |s.fibers|;
    var fibers := if f < |s.fibers| then s.fibers[f := Fiber(Running(w), NoWake)]
                  else s.fibers + [Fiber(Running(w), NoWake)];
    Go(SetTicket(s, e.ticket, Ticket(With(w), RunsOf(s, e.ticket) + 1)), w, Executing(e, f)).(fibers := fibers)
  }

  function DoLeave(s: System, w: nat, state: FiberState): System
    requires Runs(s, w) && s.workers[w].pc.fiber < |s.fibers|
  {
    var f := s.workers[w].pc.fiber;
    SetFiber(Go(s, w, Returned(s.workers[w].pc.e)), f, s.fibers[f].(state := state))
  }

  // ---- The invariant ------------------------------------------------------------------

  predicate Busy(p: Pc) { p.Holding? || p.Executing? || p.Returned? }
  predicate InIdle(p: Pc) { p.Idling? || p.LeavingIdle? }

  function BusyCount(ws: seq<Worker>): nat {
    if ws == [] then 0 else BusyCount(ws[..|ws| - 1]) + if Busy(ws[|ws| - 1].pc) then 1 else 0
  }

  function IdleCount(ws: seq<Worker>): nat {
    if ws == [] then 0 else IdleCount(ws[..|ws| - 1]) + if InIdle(ws[|ws| - 1].pc) then 1 else 0
  }

  // The counters count what they are for, and no task is lost or made up.
  predicate Counts(s: System) {
    && s.active == BusyCount(s.workers) && s.idle == IdleCount(s.workers)
    && |s.tickets| == |s.tasks| + s.active + s.completed
  }

  lemma {:induction false} BusyUpdate(ws: seq<Worker>, w: nat, x: Worker)
    requires w < |ws|
    ensures BusyCount(ws[w := x]) + (if Busy(ws[w].pc) then 1 else 0) == BusyCount(ws) + if Busy(x.pc) then 1 else 0
  {
    var n := |ws| - 1;
    if w < n {
      BusyUpdate(ws[..n], w, x);
      assert ws[w := x][..n] == ws[..n][w := x];
    } else {
      assert ws[w := x][..n] == ws[..n];
    }
  }

  lemma {:induction false} IdleUpdate(ws: seq<Worker>, w: nat, x: Worker)
    requires w < |ws|
    ensures IdleCount(ws[w := x]) + (if InIdle(ws[w].pc) then 1 else 0)
         == IdleCount(ws) + if InIdle(x.pc) then 1 else 0
  {
    var n := |ws| - 1;
    if w < n {
      IdleUpdate(ws[..n], w, x);
      assert ws[w := x][..n] == ws[..n][w := x];
    } else {
      assert ws[w := x][..n] == ws[..n];
    }
  }

  function ActorOf(a: Action): nat {
    match a
    case Take(w) => w case Begin(w) => w case Yield(w) => w case End(w) => w case Finish(w) => w
    case EnterIdle(w) => w case CheckIdle(w) => w case LeaveIdle(w) => w case _ => 0
  }

  predicate MovesWorker(a: Action) {
    !a.Post? && !a.Spawn? && !a.Arm? && !a.Fire? && !a.Stop?
  }

  lemma CountsMoved(s: System, a: Action)
    requires Enabled(s, a) && Counts(s) && MovesWorker(a)
    ensures Counts(Apply(s, a))
  {
    hide First, BusyCount, IdleCount, Eligible;
    var w, s' := ActorOf(a), Apply(s, a);
    BusyUpdate(s.workers, w, s'.workers[w]);
    IdleUpdate(s.workers, w, s'.workers[w]);
    assert s'.workers == s.workers[w := s'.workers[w]];
  }

  lemma CountsKept(s: System, a: Action)
    requires Enabled(s, a) && Counts(s)
    ensures Counts(Apply(s, a))
  {
    hide First, BusyCount, IdleCount, DoTake, DoBegin, DoLeave;
    if MovesWorker(a) {
      CountsMoved(s, a);
    }
  }

  // Every ticket is queued, with one worker or done, and has been resumed accordingly.
  ghost predicate TicketsOk(s: System) {
    && (forall i :: 0 <= i < |s.tasks| ==> TicketIs(s, s.tasks[i].ticket, Ticket(InQueue, 0)))
    && (forall i, j :: 0 <= i < j < |s.tasks| ==> s.tasks[i].ticket < s.tasks[j].ticket)
    && (forall w :: At(s, w) ==> HandTicketOk(s, w))
    && (forall t :: 0 <= t < |s.tickets| && s.tickets[t].place.Done? ==> s.tickets[t].runs == 1)
    && s.completed == DoneCount(s.tickets)
  }

  predicate TicketIs(s: System, t: nat, x: Ticket) {
    t < |s.tickets| && s.tickets[t] == x
  }

  predicate HandTicketOk(s: System, w: nat)
    requires At(s, w)
  {
    var p := s.workers[w].pc;
    Busy(p) ==> TicketIs(s, p.e.ticket, Ticket(With(w), if p.Holding? then 0 else 1))
  }

  function DoneCount(ts: seq<Ticket>): nat {
    if ts == [] then 0 else DoneCount(ts[..|ts| - 1]) + if ts[|ts| - 1].place.Done? then 1 else 0
  }

  lemma {:induction false} DoneUpdate(ts: seq<Ticket>, t: nat, x: Ticket)
    requires t < |ts|
    ensures DoneCount(ts[t := x]) + (if ts[t].place.Done? then 1 else 0)
         == DoneCount(ts) + if x.place.Done? then 1 else 0
  {
    var n := |ts| - 1;
    if t < n {
      DoneUpdate(ts[..n], t, x);
      assert ts[t := x][..n] == ts[..n][t := x];
    } else {
      assert ts[t := x][..n] == ts[..n];
    }
  }

  lemma {:induction false} AllDone(ts: seq<Ticket>)
    ensures DoneCount(ts) <= |ts|
    ensures DoneCount(ts) == |ts| ==> forall t :: 0 <= t < |ts| ==> ts[t].place.Done?
  {
    if ts != [] {
      AllDone(ts[..|ts| - 1]);
      assert forall t :: 0 <= t < |ts| - 1 ==> ts[..|ts| - 1][t] == ts[t];
    }
  }

  lemma PushTickets(s: System, job: Job, thread: int)
    requires TicketsOk(s)
    ensures TicketsOk(Push(s, job, thread))
  {
    hide DoneCount;
    DoneAppend(s.tickets, Ticket(InQueue, 0));
    var s' := Push(s, job, thread);
    forall v: nat | At(s', v) ensures HandTicketOk(s', v) {
      assert At(s, v) && HandTicketOk(s, v);
    }
  }

  lemma DoneAppend(ts: seq<Ticket>, x: Ticket)
    requires !x.place.Done?
    ensures DoneCount(ts + [x]) == DoneCount(ts)
  {
    assert (ts + [x])[..|ts|] == ts;
  }

  lemma TakeTickets(s: System, w: nat, k: nat)
    requires TicketsOk(s) && At(s, w) && !Busy(s.workers[w].pc) && k <= |s.tasks|
    ensures TicketsOk(DoTake(s, w, k))
  {
    hide DoneCount, HandTicketOk;
    if k < |s.tasks| {
      var t := s.tasks[k].ticket;
      DoneUpdate(s.tickets, t, Ticket(With(w), 0));
      assert RunsOf(s, t) == 0;
    }
    forall v: nat | At(s, v) ensures HandTicketOk(DoTake(s, w, k), v) {
      TakeHand(s, w, k, v);
    }
  }

  lemma TakeHand(s: System, w: nat, k: nat, v: nat)
    requires TicketsOk(s) && At(s, w) && !Busy(s.workers[w].pc) && k <= |s.tasks| && At(s, v)
    ensures HandTicketOk(DoTake(s, w, k), v)
  {
    hide DoneCount;
    assert HandTicketOk(s, v);
  }

  lemma BeginTickets(s: System, w: nat)
    requires TicketsOk(s) && At(s, w) && s.workers[w].pc.Holding?
    ensures TicketsOk(DoBegin(s, w))
  {
    hide DoneCount;
    var s' := DoBegin(s, w);
    assert HandTicketOk(s, w);
    DoneUpdate(s.tickets, s.workers[w].pc.e.ticket, Ticket(With(w), 1));
    forall v: nat | At(s', v) ensures HandTicketOk(s', v) {
      assert At(s, v) && HandTicketOk(s, v);
    }
  }

  lemma LeaveTickets(s: System, w: nat, state: FiberState)
    requires TicketsOk(s) && Runs(s, w) && s.workers[w].pc.fiber < |s.fibers|
    ensures TicketsOk(DoLeave(s, w, state))
  {
    hide DoneCount;
    var s' := DoLeave(s, w, state);
    forall v: nat | At(s', v) ensures HandTicketOk(s', v) {
      assert At(s, v) && HandTicketOk(s, v);
    }
  }

  lemma FinishTickets(s: System, w: nat)
    requires TicketsOk(s) && Enabled(s, Finish(w))
    ensures TicketsOk(Apply(s, Finish(w)))
  {
    hide DoneCount;
    var s' := Apply(s, Finish(w));
    assert HandTicketOk(s, w);
    DoneUpdate(s.tickets, s.workers[w].pc.e.ticket, Ticket(Done, 1));
    forall v: nat | At(s', v) ensures HandTicketOk(s', v) {
      assert At(s, v) && HandTicketOk(s, v);
    }
  }

  lemma IdleTickets(s: System, w: nat, x: Worker, idle: nat)
    requires TicketsOk(s) && At(s, w) && !Busy(x.pc)
    ensures TicketsOk(s.(workers := s.workers[w := x], idle := idle))
  {
    hide DoneCount;
    var s' := s.(workers := s.workers[w := x], idle := idle);
    forall v: nat | At(s', v) ensures HandTicketOk(s', v) {
      assert At(s, v) && HandTicketOk(s, v);
    }
  }

  lemma PushElsewhere(s: System, f: nat, x: Fiber)
    requires TicketsOk(s)
    ensures TicketsOk(s.(fibers := s.fibers + [x])) && TicketsOk(s.(stopping := true))
    ensures f < |s.fibers| ==> TicketsOk(SetFiber(s, f, x))
  {
    hide DoneCount;
    var s1, s2 := s.(fibers := s.fibers + [x]), s.(stopping := true);
    forall v: nat | At(s, v)
      ensures HandTicketOk(s1, v) && HandTicketOk(s2, v) && (f < |s.fibers| ==> HandTicketOk(SetFiber(s, f, x), v))
    {
      assert HandTicketOk(s, v);
    }
  }

  lemma TicketsKept(s: System, a: Action)
    requires Enabled(s, a) && TicketsOk(s)
    ensures TicketsOk(Apply(s, a))
  {
    hide TicketsOk, First, DoneCount, DoTake, DoBegin, DoLeave, Push, SetFiber, SetTicket, Eligible;
    match a
    case Post(_, thread) => PushTickets(s, Callback, thread);
    case Spawn(_, thread) =>
      var x := Fiber(Ready, Queued(|s.tickets|));
      PushElsewhere(s, 0, x);
      PushTickets(s.(fibers := s.fibers + [x]), Resume(|s.fibers|), thread);
    case Arm(w) => PushElsewhere(s, s.workers[w].pc.fiber, s.fibers[s.workers[w].pc.fiber].(wake := Armed));
    case Fire(_, f, thread) =>
      var x := s.fibers[f].(wake := Queued(|s.tickets|));
      PushElsewhere(s, f, x);
      PushTickets(SetFiber(s, f, x), Resume(f), thread);
    case Stop => PushElsewhere(s, 0, Fiber(Ready, NoWake));
    case Take(w) => TakeTickets(s, w, First(s.tasks, w, s.fibers));
    case Begin(w) => BeginTickets(s, w);
    case Yield(w) => LeaveTickets(s, w, Ready);
    case End(w) => LeaveTickets(s, w, Ended);
    case Finish(w) => FinishTickets(s, w);
    case EnterIdle(w) => IdleTickets(s, w, Apply(s, a).workers[w], Apply(s, a).idle);
    case CheckIdle(w) => IdleTickets(s, w, Apply(s, a).workers[w], s.idle);
    case LeaveIdle(w) => IdleTickets(s, w, Apply(s, a).workers[w], Apply(s, a).idle);
  }

  // ---- Fibers ---------------------------------------------------------------------------

  predicate FiberIn(s: System, f: nat) { f < |s.fibers| }

  predicate EndedOk(x: Fiber) { x.state.Ended? ==> x.wake.NoWake? }

  predicate HandFiberOk(s: System, w: nat)
    requires At(s, w)
  {
    var p := s.workers[w].pc;
    && (p.Holding? && p.e.job.Resume? ==>
         FiberIn(s, p.e.job.fiber) && s.fibers[p.e.job.fiber] == Fiber(Ready, InHand(w)))
    && (p.Executing? ==> FiberIn(s, p.fiber) && s.fibers[p.fiber].state == Running(w)
                         && !s.fibers[p.fiber].wake.InHand?)
  }

  // A queued fiber is waiting for just that entry; a fiber about to be resumed is
  // ready; a fiber being executed is running on that worker alone.
  ghost predicate FibersOk(s: System) {
    && (forall i :: 0 <= i < |s.tasks| && s.tasks[i].job.Resume? ==>
         FiberIn(s, s.tasks[i].job.fiber) && s.fibers[s.tasks[i].job.fiber].wake == Queued(s.tasks[i].ticket))
    && (forall w :: At(s, w) ==> HandFiberOk(s, w))
    && (forall f: nat :: FiberIn(s, f) ==> EndedOk(s.fibers[f]))
  }

  lemma PushFibers(s: System, f: nat, x: Fiber, thread: int)
    requires FibersOk(s) && TicketsOk(s) && f <= |s.fibers| && x.wake == Queued(|s.tickets|) && !x.state.Ended?
    requires f < |s.fibers| ==> s.fibers[f].wake.Armed? && x.state == s.fibers[f].state
    ensures var fibers := if f < |s.fibers| then s.fibers[f := x] else s.fibers + [x];
      FibersOk(Push(s.(fibers := fibers), Resume(f), thread))
  {
    hide DoneCount;
    var s' := Push(s.(fibers := if f < |s.fibers| then s.fibers[f := x] else s.fibers + [x]), Resume(f), thread);
    forall f': nat | FiberIn(s', f') ensures EndedOk(s'.fibers[f']) {
      assert FiberIn(s, f') ==> EndedOk(s.fibers[f']);
    }
    forall v: nat | At(s', v) ensures HandFiberOk(s', v) {
      assert At(s, v) && HandFiberOk(s, v);
    }
  }

  lemma PostFibers(s: System, thread: int)
    requires FibersOk(s)
    ensures FibersOk(Push(s, Callback, thread)) && FibersOk(s.(stopping := true))
  {
    var s1, s2 := Push(s, Callback, thread), s.(stopping := true);
    forall w: nat | At(s, w) ensures HandFiberOk(s1, w) && HandFiberOk(s2, w) {
      assert HandFiberOk(s, w);
    }
    forall f: nat | FiberIn(s, f) ensures FiberIn(s1, f) && FiberIn(s2, f) {
    }
  }

  lemma ArmFibers(s: System, w: nat)
    requires FibersOk(s) && Enabled(s, Arm(w))
    ensures FibersOk(Apply(s, Arm(w)))
  {
    var s' := Apply(s, Arm(w));
    assert HandFiberOk(s, w);
    forall f': nat | FiberIn(s', f') ensures EndedOk(s'.fibers[f']) {
      assert FiberIn(s, f') ==> EndedOk(s.fibers[f']);
    }
    forall v: nat | At(s', v) ensures HandFiberOk(s', v) {
      assert At(s, v) && HandFiberOk(s, v);
    }
  }

  lemma TakeFibers(s: System, w: nat, k: nat)
    requires FibersOk(s) && TicketsOk(s) && At(s, w) && !Busy(s.workers[w].pc) && k <= |s.tasks|
    requires k < |s.tasks| ==> !StillRunning(s.tasks[k], s.fibers)
    ensures FibersOk(DoTake(s, w, k))
  {
    hide DoneCount;
    var s' := DoTake(s, w, k);
    forall f': nat | FiberIn(s', f') ensures EndedOk(s'.fibers[f']) {
      assert FiberIn(s, f') ==> EndedOk(s.fibers[f']);
    }
    forall v: nat | At(s', v) ensures HandFiberOk(s', v) {
      assert At(s, v) && HandFiberOk(s, v);
    }
  }

  lemma BeginFibers(s: System, w: nat)
    requires FibersOk(s) && At(s, w) && s.workers[w].pc.Holding?
    ensures FibersOk(DoBegin(s, w))
  {
    var s' := DoBegin(s, w);
    assert HandFiberOk(s, w);
    forall f': nat | FiberIn(s', f') ensures EndedOk(s'.fibers[f']) {
      assert FiberIn(s, f') ==> EndedOk(s.fibers[f']);
    }
    forall v: nat | At(s', v) ensures HandFiberOk(s', v) {
      assert At(s, v) && HandFiberOk(s, v);
    }
  }

  lemma LeaveFibers(s: System, w: nat, state: FiberState)
    requires FibersOk(s) && Runs(s, w) && s.workers[w].pc.fiber < |s.fibers|
    requires state.Ready? || (state.Ended? && s.fibers[s.workers[w].pc.fiber].wake.NoWake?)
    ensures FibersOk(DoLeave(s, w, state))
  {
    var s' := DoLeave(s, w, state);
    assert HandFiberOk(s, w);
    forall f': nat | FiberIn(s', f') ensures EndedOk(s'.fibers[f']) {
      assert FiberIn(s, f') ==> EndedOk(s.fibers[f']);
    }
    forall v: nat | At(s', v) ensures HandFiberOk(s', v) {
      assert At(s, v) && HandFiberOk(s, v);
    }
  }

  lemma IdleFibers(s: System, w: nat, x: Worker, s': System)
    requires FibersOk(s) && At(s, w) && !Busy(x.pc)
    requires s'.workers == s.workers[w := x] && s'.fibers == s.fibers && s'.tasks == s.tasks
    ensures FibersOk(s')
  {
    forall f': nat | FiberIn(s', f') ensures EndedOk(s'.fibers[f']) {
      assert FiberIn(s, f') ==> EndedOk(s.fibers[f']);
    }
    forall v: nat | At(s', v) ensures HandFiberOk(s', v) {
      assert At(s, v) && HandFiberOk(s, v);
    }
  }

  lemma FibersKept(s: System, a: Action)
    requires Enabled(s, a) && FibersOk(s) && TicketsOk(s)
    ensures FibersOk(Apply(s, a))
  {
    hide TicketsOk, FibersOk, First, DoneCount, DoTake, DoBegin, DoLeave, Push, SetTicket, Elsewhere, StillRunning;
    match a
    case Post(_, thread) => PostFibers(s, thread);
    case Spawn(_, thread) => PushFibers(s, |s.fibers|, Fiber(Ready, Queued(|s.tickets|)), thread);
    case Arm(w) => ArmFibers(s, w);
    case Fire(_, f, thread) =>
      ArmedLives(s, f);
      PushFibers(s, f, s.fibers[f].(wake := Queued(|s.tickets|)), thread);
    case Stop => PostFibers(s, 0);
    case Take(w) => TakeFibers(s, w, First(s.tasks, w, s.fibers));
    case Begin(w) => BeginFibers(s, w);
    case Yield(w) => LeaveFibers(s, w, Ready);
    case End(w) => LeaveFibers(s, w, Ended);
    case Finish(w) => FinishFibers(s, w);
    case EnterIdle(w) => IdleFibers(s, w, Apply(s, a).workers[w], Apply(s, a));
    case CheckIdle(w) => IdleFibers(s, w, Apply(s, a).workers[w], Apply(s, a));
    case LeaveIdle(w) => IdleFibers(s, w, Apply(s, a).workers[w], Apply(s, a));
  }

  lemma FinishFibers(s: System, w: nat)
    requires FibersOk(s) && Enabled(s, Finish(w))
    ensures FibersOk(Apply(s, Finish(w)))
  {
    hide FibersOk;
    IdleFibers(s, w, s.workers[w].(pc := Scanning), Apply(s, Finish(w)));
  }

  lemma ArmedLives(s: System, f: nat)
    requires FibersOk(s) && f < |s.fibers| && s.fibers[f].wake.Armed?
    ensures !s.fibers[f].state.Ended?
  {
    assert FiberIn(s, f);
  }

  // ---- Quiescence -------------------------------------------------------------------------

  // stopping() has returned true for worker w.
  predicate SawStop(s: System, w: nat) {
    At(s, w) && (s.workers[w].idleEnded || s.workers[w].pc.Exited?)
  }

  predicate Quiet(s: System) {
    MayStop(s.stopping, s.tasks, s.active)
  }

  ghost predicate StopOk(s: System) {
    forall w: nat :: SawStop(s, w) ==> Quiet(s) && s.workers[w].idleEnded
  }

  lemma {:induction false} NoneBusy(ws: seq<Worker>, w: nat)
    requires BusyCount(ws) == 0 && w < |ws|
    ensures !Busy(ws[w].pc)
  {
    if w < |ws| - 1 {
      NoneBusy(ws[..|ws| - 1], w);
    }
  }

  // No step leaves quiescence.
  lemma QuietStays(s: System, a: Action)
    requires Enabled(s, a) && Counts(s) && Quiet(s) && FibersOk(s)
    ensures Quiet(Apply(s, a))
  {
    hide FibersOk, BusyCount, IdleCount, First, DoLeave, Eligible;
    forall w: nat | At(s, w) ensures !Busy(s.workers[w].pc) {
      NoneBusy(s.workers, w);
    }
    assert !a.Begin? && !a.Yield? && !a.End? && !a.Finish? && !a.Arm?;
  }

  lemma StopKept(s: System, a: Action)
    requires Enabled(s, a) && Counts(s) && StopOk(s) && FibersOk(s)
    ensures StopOk(Apply(s, a))
  {
    hide FibersOk, Counts, First, Eligible;
    var s' := Apply(s, a);
    if Quiet(s) {
      QuietStays(s, a);
    }
    forall w: nat | SawStop(s', w) ensures Quiet(s') && s'.workers[w].idleEnded {
      assert SawStop(s, w) ==> Quiet(s) && s.workers[w].idleEnded;
    }
  }

  ghost predicate Inv(s: System) {
    Counts(s) && TicketsOk(s) && FibersOk(s) && StopOk(s)
  }

  function Initial(workers: nat): System {
    System([], 0, 0, false, seq(workers, _ => Worker(Scanning, false)), [], [], 0)
  }

  lemma {:induction false} InitialCounts(n: nat)
    ensures BusyCount(seq(n, _ => Worker(Scanning, false))) == 0
    ensures IdleCount(seq(n, _ => Worker(Scanning, false))) == 0
  {
    if n > 0 {
      InitialCounts(n - 1);
      assert seq(n, _ => Worker(Scanning, false))[..n - 1] == seq(n - 1, _ => Worker(Scanning, false));
    }
  }

  lemma InitialInv(n: nat)
    ensures Inv(Initial(n))
  {
    InitialCounts(n);
  }

  // s' is reached from s by the steps as.
  ghost predicate Reaches(s: System, steps: seq<Action>, s': System)
    decreases |steps|
  {
    if steps == [] then s == s' else Enabled(s, steps[0]) && Reaches(Apply(s, steps[0]), steps[1..], s')
  }

  lemma {:induction false} RunKeeps(s: System, steps: seq<Action>, s': System)
    requires Inv(s) && Reaches(s, steps, s')
    ensures Inv(s') && (Quiet(s) ==> Quiet(s'))
    decreases |steps|
  {
    hide Counts, TicketsOk, FibersOk, StopOk, Enabled, Apply, Quiet;
    if steps != [] {
      var a := steps[0];
      CountsKept(s, a);
      TicketsKept(s, a);
      FibersKept(s, a);
      StopKept(s, a);
      if Quiet(s) {
        QuietStays(s, a);
      }
      RunKeeps(Apply(s, a), steps[1..], s');
    }
  }

  // Scheduled tasks are queued, in progress or completed, in every reachable state.
  lemma Conservation(n: nat, steps: seq<Action>, s: System)
    requires Reaches(Initial(n), steps, s)
    ensures |s.tickets| == |s.tasks| + BusyCount(s.workers) + s.completed && s.active == BusyCount(s.workers)
    ensures s.completed == DoneCount(s.tickets)
  {
    hide FibersOk, StopOk, Enabled, Apply, Initial;
    InitialInv(n);
    RunKeeps(Initial(n), steps, s);
  }

  // Once stopping() has returned true for one worker, then from then on, whatever the
  // interleaving, the queue is empty and no worker holds or executes a task; every
  // task ever scheduled has been executed, exactly once. A worker leaves run() only
  // after stopping() has returned true for it.
  lemma Quiescence(n: nat, before: seq<Action>, s: System, w: nat, after: seq<Action>, s': System)
    requires Reaches(Initial(n), before, s) && Reaches(s, after, s') && SawStop(s, w)
    ensures s'.tasks == [] && s'.completed == |s'.tickets| && s'.stopping && s.workers[w].idleEnded
    ensures forall v: nat :: At(s', v) ==> !Busy(s'.workers[v].pc)
    ensures forall t :: 0 <= t < |s'.tickets| ==> s'.tickets[t] == Ticket(Done, 1)
  {
    hide FibersOk, Enabled, Apply, Initial, BusyCount, DoneCount, IdleCount;
    InitialInv(n);
    RunKeeps(Initial(n), before, s);
    RunKeeps(s, after, s');
    forall v: nat | At(s', v) ensures !Busy(s'.workers[v].pc) {
      NoneBusy(s'.workers, v);
    }
    AllDone(s'.tickets);
  }

  // In every reachable state a fiber is executed by at most one worker, and a fiber
  // that a worker is about to resume is ready: not running, and not ended.
  lemma FiberExclusive(n: nat, steps: seq<Action>, s: System)
    requires Reaches(Initial(n), steps, s)
    ensures forall v: nat, w: nat ::
      Runs(s, v) && Runs(s, w) && s.workers[v].pc.fiber == s.workers[w].pc.fiber ==> v == w
    ensures forall w: nat :: At(s, w) && s.workers[w].pc.Holding? && s.workers[w].pc.e.job.Resume? ==>
      FiberIn(s, s.workers[w].pc.e.job.fiber) && s.fibers[s.workers[w].pc.e.job.fiber].state.Ready?
  {
    hide Counts, TicketsOk, StopOk, Enabled, Apply, Initial;
    InitialInv(n);
    RunKeeps(Initial(n), steps, s);
    forall v: nat, w: nat | Runs(s, v) && Runs(s, w) && s.workers[v].pc.fiber == s.workers[w].pc.fiber
      ensures v == w
    {
      assert HandFiberOk(s, v) && HandFiberOk(s, w);
    }
    forall w: nat | At(s, w) && s.workers[w].pc.Holding? && s.workers[w].pc.e.job.Resume?
      ensures FiberIn(s, s.workers[w].pc.e.job.fiber) && s.fibers[s.workers[w].pc.e.job.fiber].state.Ready?
    {
      assert HandFiberOk(s, w);
    }
  }

  function StateOf(x: FiberState): Fibers.State {
    match x case Ready => Fibers.READY case Running(_) => Fibers.RUNNING case Ended => Fibers.TERM
  }

  // What a step does to fiber f, if anything.
  function OpOn(s: System, a: Action, f: nat): Option<Fibers.Op>
    requires Enabled(s, a)
  {
    match a
    case Begin(w) => if s.workers[w].pc.e.job == Resume(f) then Some(Fibers.Op.Resume) else None
    case Yield(w) => if s.workers[w].pc.fiber == f then Some(Fibers.Op.Yield) else None
    case End(w) => if s.workers[w].pc.fiber == f then Some(Fibers.Op.Finish) else None
    case _ => None
  }

  function OpsOn(s: System, steps: seq<Action>, f: nat): seq<Fibers.Op>
    decreases |steps|
  {
    if steps == [] || !Enabled(s, steps[0]) then []
    else (match OpOn(s, steps[0], f) case None => [] case Some(op) => [op]) + OpsOn(Apply(s, steps[0]), steps[1..], f)
  }

  // No step of the scheduler does with a fiber what an assertion of the fiber refuses.
  lemma FiberStep(s: System, a: Action, f: nat)
    requires Enabled(s, a) && FibersOk(s) && FiberIn(s, f)
    ensures FiberIn(Apply(s, a), f)
    ensures var (x, y) := (StateOf(s.fibers[f].state), StateOf(Apply(s, a).fibers[f].state));
      match OpOn(s, a, f) case None => y == x case Some(op) => Fibers.Next(x, op) == Some(y)
  {
    hide First, Elsewhere, StillRunning;
    if a.Begin? {
      assert HandFiberOk(s, a.worker);
    } else if a.Yield? {
      assert HandFiberOk(s, a.worker);
    } else if a.End? {
      assert HandFiberOk(s, a.worker);
    }
  }

  // So in every interleaving the resumes, yields and ends of a fiber form a life that
  // Fibers.Lifecycle is about: each of its resumes is answered by one yield or by its end.
  lemma {:induction false} FiberLives(s: System, steps: seq<Action>, s': System, f: nat)
    requires Inv(s) && Reaches(s, steps, s') && FiberIn(s, f)
    ensures FiberIn(s', f)
    ensures Fibers.After(StateOf(s.fibers[f].state), OpsOn(s, steps, f)) == Some(StateOf(s'.fibers[f].state))
    decreases |steps|
  {
    hide Counts, TicketsOk, FibersOk, StopOk, Enabled, Apply, OpOn;
    if steps != [] {
      var a := steps[0];
      CountsKept(s, a);
      TicketsKept(s, a);
      FibersKept(s, a);
      StopKept(s, a);
      FiberStep(s, a, f);
      FiberLives(Apply(s, a), steps[1..], s', f);
      if OpOn(s, a, f).Some? {
        assert OpsOn(s, steps, f)[1..] == OpsOn(Apply(s, a), steps[1..], f);
      } else {
        assert OpsOn(s, steps, f) == OpsOn(Apply(s, a), steps[1..], f);
      }
    }
  }

  // In every interleaving a fiber that waits has yielded once for each time it was
  // resumed, and one that has ended once less.
  lemma ResumesAnswered(n: nat, before: seq<Action>, s: System, steps: seq<Action>, s': System, f: nat)
    requires Reaches(Initial(n), before, s) && Reaches(s, steps, s') && FiberIn(s, f) && s.fibers[f].state.Ready?
    ensures FiberIn(s', f)
    ensures var (ops, x) := (OpsOn(s, steps, f), s'.fibers[f].state);
      && Fibers.Count(ops, Fibers.Op.Resume) == Fibers.Count(ops, Fibers.Op.Yield) + (if x.Ready? then 0 else 1)
      && Fibers.Count(ops, Fibers.Op.Finish) == (if x.Ended? then 1 else 0)
  {
    hide FibersOk, Counts, TicketsOk, StopOk, Enabled, Apply, Initial, OpsOn;
    InitialInv(n);
    RunKeeps(Initial(n), before, s);
    FiberLives(s, steps, s', f);
    Fibers.Lifecycle(Fibers.READY, OpsOn(s, steps, f));
    NoResets(s, steps, f);
  }

  // The scheduler runs each callback in a fiber made for it.
  lemma {:induction false} NoResets(s: System, steps: seq<Action>, f: nat)
    ensures Fibers.Count(OpsOn(s, steps, f), Fibers.Op.Reset) == 0
    decreases |steps|
  {
    hide Enabled, Apply;
    if steps != [] && Enabled(s, steps[0]) {
      NoResets(Apply(s, steps[0]), steps[1..], f);
      var op := OpOn(s, steps[0], f);
      if op.Some? {
        assert OpsOn(s, steps, f)[1..] == OpsOn(Apply(s, steps[0]), steps[1..], f);
      } else {
        assert OpsOn(s, steps, f) == OpsOn(Apply(s, steps[0]), steps[1..], f);
      }
    }
  }

  // No step drops a queued task. The one that a scan removes is in its worker's hand,
  // and its fiber, if it names one, had yielded; the entry of a fiber that was queued
  // again before it yielded stays queued.
  lemma EntriesKept(s: System, a: Action, e: Entry)
    requires Enabled(s, a) && e in s.tasks
    ensures e in Apply(s, a).tasks
         || (a.Take? && Apply(s, a).workers[a.worker].pc == Holding(e) && !StillRunning(e, s.fibers))
  {
    hide Elsewhere, StillRunning;
    if a.Take? {
      ScanKeepsOthers(s, a.worker, First(s.tasks, a.worker, s.fibers), e);
    } else if a.Post? || a.Spawn? || a.Fire? {
      var i :| 0 <= i < |s.tasks| && s.tasks[i] == e;
      assert Apply(s, a).tasks[i] == e;
    }
  }

  lemma ScanKeepsOthers(s: System, w: nat, k: nat, e: Entry)
    requires At(s, w) && e in s.tasks && k <= |s.tasks|
    ensures e in DoTake(s, w, k).tasks
         || (k < |s.tasks| && e == s.tasks[k] && DoTake(s, w, k).workers[w].pc == Holding(e))
  {
    var i :| 0 <= i < |s.tasks| && s.tasks[i] == e;
    if i < k {
      assert k < |s.tasks| ==> Without(s.tasks, k)[i] == e;
    } else if i > k {
      assert Without(s.tasks, k)[i - 1] == e;
    }
  }
}
