// stop() can always be completed: what the idle check decides, what follows from it, and a
// way from every reachable state to the end of all workers.
module Shutdown {
  import opened Bytes
  import opened Scheduler
  import opened Workers

  // ---- The check -----------------------------------------------------------------------------

  // The idle check is true exactly when stop() was called, the queue is empty and no worker
  // has a task.
  lemma CheckDecides(s: System, w: nat)
    requires Enabled(s, CheckIdle(w))
    ensures SawStop(Apply(s, CheckIdle(w)), w) <==> s.stopping && s.tasks == [] && s.active == 0
  {
  }

  // A worker whose check was true ends when it finds no task again, and any other goes idle.
  lemma EndDecides(s: System, w: nat)
    requires Enabled(s, EnterIdle(w))
    ensures var p := Apply(s, EnterIdle(w)).workers[w].pc; if s.workers[w].idleEnded then p.Exited? else p.Idling?
  {
  }

  // ---- Whose steps ------------------------------------------------------------------------------

  predicate OwnStep(a: Action, w: nat) { MovesWorker(a) && ActorOf(a) == w }

  // A run of steps of the workers themselves.
  ghost predicate OwnRun(s: System, steps: seq<Action>, s': System) {
    Reaches(s, steps, s') && forall a <- steps :: MovesWorker(a)
  }

  lemma {:induction false} RunsOn(s: System, a: seq<Action>, u: System, b: seq<Action>, s': System)
    requires OwnRun(s, a, u) && OwnRun(u, b, s')
    ensures OwnRun(s, a + b, s')
    decreases |a|
  {
    hide Enabled, Apply;
    if a == [] {
      assert a + b == b;
    } else {
      assert (a + b)[1..] == a[1..] + b;
      RunsOn(Apply(s, a[0]), a[1..], u, b, s');
    }
  }

  lemma OneStep(s: System, a: Action)
    requires Enabled(s, a) && MovesWorker(a)
    ensures OwnRun(s, [a], Apply(s, a))
  {
    hide Enabled, Apply;
    assert Reaches(Apply(s, a), [], Apply(s, a));
    assert [a][0] == a && [a][1..] == [];
  }

  // ---- What every run keeps ---------------------------------------------------------------------

  // A task that names a worker is with that worker.
  predicate PinOk(s: System, w: nat) {
    At(s, w) && Busy(s.workers[w].pc) ==> s.workers[w].pc.e.thread == -1 || s.workers[w].pc.e.thread == w
  }

  // A running fiber is executed by the worker it runs on.
  predicate RunningOk(s: System, f: nat) {
    FiberIn(s, f) && s.fibers[f].state.Running? ==>
      Runs(s, s.fibers[f].state.worker) && s.workers[s.fibers[f].state.worker].pc.fiber == f
  }

  ghost predicate AllOk(s: System) {
    Inv(s) && (forall w: nat :: PinOk(s, w)) && forall f: nat :: RunningOk(s, f)
  }

  lemma PinsKept(s: System, a: Action)
    requires AllOk(s) && Enabled(s, a)
    ensures forall w: nat :: PinOk(Apply(s, a), w)
  {
    hide Inv, RunningOk, Enabled, Apply, PinOk;
    forall w: nat ensures PinOk(Apply(s, a), w) {
      assert PinOk(s, w);
      if a.Take? {
        PinTaken(s, a.worker, w);
      } else {
        PinStays(s, a, w);
      }
    }
  }

  lemma PinStays(s: System, a: Action, w: nat)
    requires Enabled(s, a) && PinOk(s, w) && !a.Take?
    ensures PinOk(Apply(s, a), w)
  {
    hide First, MayStop;
  }

  lemma PinTaken(s: System, v: nat, w: nat)
    requires Enabled(s, Take(v)) && PinOk(s, w)
    ensures PinOk(Apply(s, Take(v)), w)
  {
    hide First, StillRunning, Without;
  }

  lemma RunningKept(s: System, a: Action)
    requires AllOk(s) && Enabled(s, a)
    ensures forall f: nat :: RunningOk(Apply(s, a), f)
  {
    hide Counts, TicketsOk, StopOk, PinOk, RunningOk, Enabled, Apply;
    forall f: nat ensures RunningOk(Apply(s, a), f) {
      assert RunningOk(s, f);
      if MovesWorker(a) {
        ActorThere(s, a);
        assert HandFiberOk(s, ActorOf(a));
      }
      RunningKeptBy(s, a, f);
    }
  }

  lemma ActorThere(s: System, a: Action)
    requires Enabled(s, a) && MovesWorker(a)
    ensures At(s, ActorOf(a))
  {
  }

  lemma RunningKeptBy(s: System, a: Action, f: nat)
    requires Enabled(s, a) && RunningOk(s, f) && (MovesWorker(a) ==> At(s, ActorOf(a)) && HandFiberOk(s, ActorOf(a)))
    ensures RunningOk(Apply(s, a), f)
  {
    hide RunningOk, Enabled, Apply, HandFiberOk;
    if MovesWorker(a) {
      RunningMoved(s, a, f);
    } else {
      RunningStays(s, a, f);
    }
  }

  lemma RunningStays(s: System, a: Action, f: nat)
    requires Enabled(s, a) && RunningOk(s, f) && !MovesWorker(a)
    ensures RunningOk(Apply(s, a), f)
  {
    hide MaySchedule;
  }

  lemma RunningMoved(s: System, a: Action, f: nat)
    requires Enabled(s, a) && RunningOk(s, f) && MovesWorker(a) && At(s, ActorOf(a)) && HandFiberOk(s, ActorOf(a))
    ensures RunningOk(Apply(s, a), f)
  {
    hide First, Elsewhere, StillRunning, Without, MayStop;
  }

  lemma StepKeeps(s: System, a: Action)
    requires AllOk(s) && Enabled(s, a)
    ensures AllOk(Apply(s, a))
  {
    hide Counts, TicketsOk, FibersOk, StopOk, PinOk, RunningOk, Enabled, Apply;
    CountsKept(s, a);
    TicketsKept(s, a);
    FibersKept(s, a);
    StopKept(s, a);
    PinsKept(s, a);
    RunningKept(s, a);
  }

  lemma {:induction false} RunKeepsAll(s: System, steps: seq<Action>, s': System)
    requires AllOk(s) && Reaches(s, steps, s')
    ensures AllOk(s')
    decreases |steps|
  {
    hide AllOk, Enabled, Apply;
    if steps != [] {
      StepKeeps(s, steps[0]);
      RunKeepsAll(Apply(s, steps[0]), steps[1..], s');
    }
  }

  lemma StartOk(n: nat)
    ensures AllOk(Initial(n))
  {
    hide Inv;
    InitialInv(n);
  }

  // In every reachable state a worker holds or executes only tasks that name it or none.
  lemma PinnedToIts(n: nat, steps: seq<Action>, s: System, w: nat)
    requires Reaches(Initial(n), steps, s) && At(s, w) && Busy(s.workers[w].pc)
    ensures s.workers[w].pc.e.thread == -1 || s.workers[w].pc.e.thread == w
  {
    hide Inv, RunningOk, Initial;
    StartOk(n);
    RunKeepsAll(Initial(n), steps, s);
    assert PinOk(s, w);
  }

  // ---- What a task is ------------------------------------------------------------------------------

  // What a step asks the scheduler for: the job and the worker that is to do it.
  function Asked(s: System, a: Action): Option<(Job, int)> {
    match a
    case Post(_, thread) => Some((Callback, thread))
    case Spawn(_, thread) => Some((Resume(|s.fibers|), thread))
    case Fire(_, f, thread) => Some((Resume(f), thread))
    case _ => None
  }

  predicate EntryIs(e: Entry, k: nat, x: (Job, int)) { e.ticket == k ==> e.job == x.0 && e.thread == x.1 }

  // Wherever the task of ticket k is, it is x.
  ghost predicate TaskIs(s: System, k: nat, x: (Job, int)) {
    && k < |s.tickets|
    && (forall i :: 0 <= i < |s.tasks| ==> EntryIs(s.tasks[i], k, x))
    && (forall w: nat :: At(s, w) && Busy(s.workers[w].pc) ==> EntryIs(s.workers[w].pc.e, k, x))
  }

  lemma TaskBegins(s: System, a: Action)
    requires Enabled(s, a) && TicketsOk(s) && Asked(s, a).Some?
    ensures TaskIs(Apply(s, a), |s.tickets|, Asked(s, a).value)
  {
    hide First, DoneCount;
    forall w: nat | At(s, w) && Busy(s.workers[w].pc) ensures s.workers[w].pc.e.ticket < |s.tickets| {
      assert HandTicketOk(s, w);
    }
    forall i | 0 <= i < |s.tasks| ensures s.tasks[i].ticket < |s.tickets| {
      assert TicketIs(s, s.tasks[i].ticket, Ticket(InQueue, 0));
    }
  }

  lemma TaskStays(s: System, a: Action, k: nat, x: (Job, int))
    requires Enabled(s, a) && TaskIs(s, k, x)
    ensures TaskIs(Apply(s, a), k, x)
  {
    hide TaskIs, Enabled, Apply;
    if a.Take? {
      TakeStays(s, a.worker, k, x);
    } else if MovesWorker(a) {
      MoveStays(s, a, k, x);
    } else {
      PushStays(s, a, k, x);
    }
  }

  lemma PushStays(s: System, a: Action, k: nat, x: (Job, int))
    requires Enabled(s, a) && TaskIs(s, k, x) && !MovesWorker(a)
    ensures TaskIs(Apply(s, a), k, x)
  {
    hide EntryIs, Busy;
    if a.Post? || a.Spawn? || a.Fire? {
      NewEntry(|s.tickets|, Asked(s, a).value, k, x);
    }
  }

  // A worker that does not take a task keeps the one it has or gives it up.
  lemma MoveStays(s: System, a: Action, k: nat, x: (Job, int))
    requires Enabled(s, a) && TaskIs(s, k, x) && MovesWorker(a) && !a.Take?
    ensures TaskIs(Apply(s, a), k, x)
  {
    hide EntryIs, First;
  }

  lemma TakeStays(s: System, w: nat, k: nat, x: (Job, int))
    requires Enabled(s, Take(w)) && TaskIs(s, k, x)
    ensures TaskIs(Apply(s, Take(w)), k, x)
  {
    hide EntryIs, First, Without;
    var (s', i) := (Apply(s, Take(w)), First(s.tasks, w, s.fibers));
    if i < |s.tasks| {
      assert EntryIs(s.tasks[i], k, x);
      WithoutOf(s.tasks, i);
      forall j | 0 <= j < |s'.tasks| ensures EntryIs(s'.tasks[j], k, x) {
        assert Without(s.tasks, i)[j] in s.tasks;
      }
    }
  }

  lemma WithoutOf(q: seq<Entry>, i: nat)
    requires i < |q|
    ensures forall j :: 0 <= j < |Without(q, i)| ==> Without(q, i)[j] in q
  {
  }

  lemma NewEntry(t: nat, y: (Job, int), k: nat, x: (Job, int))
    requires t != k
    ensures EntryIs(Entry(t, y.0, y.1), k, x)
  {
  }

  lemma {:induction false} TaskKept(s: System, steps: seq<Action>, s': System, k: nat, x: (Job, int))
    requires Reaches(s, steps, s') && TaskIs(s, k, x)
    ensures TaskIs(s', k, x)
    decreases |steps|
  {
    hide TaskIs, Enabled, Apply;
    if steps != [] {
      TaskStays(s, steps[0], k, x);
      TaskKept(Apply(s, steps[0]), steps[1..], s', k, x);
    }
  }

  // Whatever happens between, a worker that has taken a task has the callback or the fiber
  // that was asked for, and is the worker that was named unless none was.
  lemma DoneAsAsked(n: nat, steps: seq<Action>, s: System, a: Action, more: seq<Action>, s': System, w: nat)
    requires Reaches(Initial(n), steps, s) && Enabled(s, a) && Asked(s, a).Some?
    requires Reaches(Apply(s, a), more, s') && At(s', w)
    requires Busy(s'.workers[w].pc) && s'.workers[w].pc.e.ticket == |s.tickets|
    ensures var (e, x) := (s'.workers[w].pc.e, Asked(s, a).value);
      e.job == x.0 && e.thread == x.1 && (x.1 == -1 || x.1 == w)
  {
    hide Inv, RunningOk, Initial, Apply, Enabled, Asked, TicketsOk;
    StartOk(n);
    RunKeepsAll(Initial(n), steps, s);
    StepKeeps(s, a);
    RunKeepsAll(Apply(s, a), more, s');
    TicketsIn(s);
    TaskBegins(s, a);
    TaskKept(Apply(s, a), more, s', |s.tickets|, Asked(s, a).value);
    assert PinOk(s', w);
    assert EntryIs(s'.workers[w].pc.e, |s.tickets|, Asked(s, a).value);
  }

  lemma TicketsIn(s: System)
    requires AllOk(s)
    ensures TicketsOk(s)
  {
  }

  // ---- One worker at a time ---------------------------------------------------------------------

  // What the worker does next, if it has not ended; a task gives back control at once.
  function NextStep(s: System, w: nat): Action
    requires At(s, w) && !s.workers[w].pc.Exited?
  {
    match s.workers[w].pc
    case Scanning => Take(w)
    case Holding(_) => Begin(w)
    case Executing(_, _) => Yield(w)
    case Returned(_) => Finish(w)
    case NoTask => EnterIdle(w)
    case Idling => CheckIdle(w)
    case LeavingIdle => LeaveIdle(w)
  }

  lemma {:induction false} NoneInIdle(ws: seq<Worker>, w: nat)
    requires IdleCount(ws) == 0 && w < |ws|
    ensures !InIdle(ws[w].pc)
  {
    if w < |ws| - 1 {
      NoneInIdle(ws[..|ws| - 1], w);
    }
  }

  lemma NextEnabled(s: System, w: nat)
    requires AllOk(s) && At(s, w) && !s.workers[w].pc.Exited?
    ensures Enabled(s, NextStep(s, w)) && OwnStep(NextStep(s, w), w)
  {
    hide BusyCount, IdleCount, TicketsOk, StopOk, PinOk, RunningOk;
    assert HandFiberOk(s, w);
    if s.active == 0 {
      NoneBusy(s.workers, w);
    }
    if s.idle == 0 {
      NoneInIdle(s.workers, w);
    }
  }

  // Only this worker has moved, and no task has been added.
  predicate Alone(s: System, s': System, w: nat) {
    && |s'.workers| == |s.workers| && s'.stopping == s.stopping
    && forall v: nat :: v < |s.workers| && v != w ==> s'.workers[v] == s.workers[v]
  }

  lemma MovesAlone(s: System, a: Action, w: nat)
    requires Enabled(s, a) && OwnStep(a, w)
    ensures Alone(s, Apply(s, a), w) && (!a.Take? ==> Apply(s, a).tasks == s.tasks)
  {
    hide First;
  }

  // A worker with a task gets rid of it.
  lemma {:induction false} FreeUp(s: System, w: nat) returns (steps: seq<Action>, s': System)
    requires AllOk(s) && At(s, w) && Busy(s.workers[w].pc)
    ensures OwnRun(s, steps, s') && AllOk(s') && Alone(s, s', w) && s'.tasks == s.tasks
    ensures s'.workers[w].pc.Scanning? && s'.workers[w].idleEnded == s.workers[w].idleEnded
    decreases if s.workers[w].pc.Holding? then 3 else if s.workers[w].pc.Executing? then 2 else 1
  {
    hide AllOk, Enabled, Reaches;
    var a := NextStep(s, w);
    NextEnabled(s, w);
    OneStep(s, a);
    StepKeeps(s, a);
    MovesAlone(s, a, w);
    var t := Apply(s, a);
    if a.Finish? {
      steps, s' := [a], t;
    } else {
      var more;
      more, s' := FreeUp(t, w);
      RunsOn(s, [a], t, more, s');
      steps := [a] + more;
    }
  }

  // An idle worker looks at the queue again while there are tasks in it.
  lemma {:induction false} ToScan(s: System, w: nat) returns (steps: seq<Action>, s': System)
    requires AllOk(s) && At(s, w) && !Busy(s.workers[w].pc) && s.tasks != []
    requires !s.workers[w].pc.Exited? && !s.workers[w].idleEnded
    ensures OwnRun(s, steps, s') && AllOk(s') && Alone(s, s', w) && s'.tasks == s.tasks
    ensures s'.workers[w] == Worker(Scanning, false)
    decreases match s.workers[w].pc case NoTask => 3 case Idling => 2 case LeavingIdle => 1 case _ => 0
  {
    hide AllOk, Enabled, Reaches;
    if s.workers[w].pc.Scanning? {
      steps, s' := [], s;
      Nowhere(s);
    } else {
      var a := NextStep(s, w);
      NextEnabled(s, w);
      OneStep(s, a);
      StepKeeps(s, a);
      MovesAlone(s, a, w);
      var t, more := Apply(s, a), [];
      more, s' := ToScan(t, w);
      RunsOn(s, [a], t, more, s');
      steps := [a] + more;
    }
  }

  lemma Nowhere(s: System)
    ensures OwnRun(s, [], s)
  {
  }

  // At rest every worker comes to its end.
  lemma {:induction false} ToExit(s: System, w: nat) returns (steps: seq<Action>, s': System)
    requires AllOk(s) && At(s, w) && Quiet(s)
    ensures OwnRun(s, steps, s') && AllOk(s') && Alone(s, s', w) && Quiet(s') && s'.workers[w].pc.Exited?
    decreases ExitRank(s.workers[w])
  {
    hide AllOk, Enabled, Reaches, Quiet;
    AtRest(s, w);
    if s.workers[w].pc.Exited? {
      steps, s' := [], s;
      Nowhere(s);
    } else {
      var a := NextStep(s, w);
      NextEnabled(s, w);
      OneStep(s, a);
      StepKeeps(s, a);
      MovesAlone(s, a, w);
      StaysQuiet(s, a);
      Nearer(s, w);
      var t, more := Apply(s, a), [];
      more, s' := ToExit(t, w);
      RunsOn(s, [a], t, more, s');
      steps := [a] + more;
    }
  }

  function ExitRank(x: Worker): nat {
    match x.pc
    case Exited => 0
    case NoTask => if x.idleEnded then 1 else 5
    case Scanning => if x.idleEnded then 2 else 6
    case LeavingIdle => if x.idleEnded then 3 else 7
    case Idling => 4
    case _ => 8
  }

  lemma AtRest(s: System, w: nat)
    requires AllOk(s) && At(s, w) && Quiet(s)
    ensures !Busy(s.workers[w].pc)
  {
    NoneBusy(s.workers, w);
  }

  lemma StaysQuiet(s: System, a: Action)
    requires AllOk(s) && Enabled(s, a) && Quiet(s)
    ensures Quiet(Apply(s, a))
  {
    hide Counts, FibersOk, Quiet, Apply, Enabled;
    QuietStays(s, a);
  }

  lemma Nearer(s: System, w: nat)
    requires At(s, w) && !s.workers[w].pc.Exited? && Quiet(s) && !Busy(s.workers[w].pc) && Enabled(s, NextStep(s, w))
    ensures ExitRank(Apply(s, NextStep(s, w)).workers[w]) < ExitRank(s.workers[w])
  {
  }

  // ---- All workers -------------------------------------------------------------------------------

  ghost predicate NoneWithTask(s: System, k: nat) {
    forall v: nat :: k <= v < |s.workers| ==> !Busy(s.workers[v].pc)
  }

  lemma {:induction false} FreeAll(s: System, k: nat) returns (steps: seq<Action>, s': System)
    requires AllOk(s) && k <= |s.workers| && NoneWithTask(s, k)
    ensures OwnRun(s, steps, s') && AllOk(s') && NoneWithTask(s', 0)
    ensures |s'.workers| == |s.workers| && s'.stopping == s.stopping && s'.tasks == s.tasks
    decreases k
  {
    hide AllOk, Enabled, Reaches, Apply, Busy;
    if k == 0 {
      steps, s' := [], s;
      Nowhere(s);
    } else if !Busy(s.workers[k - 1].pc) {
      steps, s' := FreeAll(s, k - 1);
    } else {
      var a, t := FreeUp(s, k - 1);
      NotBusy(t.workers[k - 1].pc);
      var b;
      b, s' := FreeAll(t, k - 1);
      RunsOn(s, a, t, b, s');
      steps := a + b;
    }
  }

  lemma NotBusy(p: Pc)
    ensures p.Scanning? || p.Exited? ==> !Busy(p)
  {
  }

  lemma {:induction false} ExitAll(s: System, k: nat) returns (steps: seq<Action>, s': System)
    requires AllOk(s) && k <= |s.workers| && Quiet(s)
    requires forall v: nat :: k <= v < |s.workers| ==> s.workers[v].pc.Exited?
    ensures OwnRun(s, steps, s') && AllOk(s') && Quiet(s') && |s'.workers| == |s.workers|
    ensures forall v: nat :: v < |s'.workers| ==> s'.workers[v].pc.Exited?
    decreases k
  {
    hide AllOk, Enabled, Reaches, Apply, Quiet;
    if k == 0 {
      steps, s' := [], s;
      Nowhere(s);
    } else {
      var a, t := ToExit(s, k - 1);
      var b;
      b, s' := ExitAll(t, k - 1);
      RunsOn(s, a, t, b, s');
      steps := a + b;
    }
  }

  // ---- The queue ------------------------------------------------------------------------------------

  // With no task in hand no fiber runs, so a worker that may take the first task does.
  lemma TakesFirst(s: System, w: nat)
    requires AllOk(s) && NoneWithTask(s, 0) && At(s, w) && s.tasks != []
    requires s.tasks[0].thread == -1 || s.tasks[0].thread == w
    ensures First(s.tasks, w, s.fibers) == 0
  {
    hide Inv, First;
    var e := s.tasks[0];
    if e.job.Resume? {
      assert RunningOk(s, e.job.fiber);
    }
    assert Eligible(e, w, s.fibers);
    FirstIs(s.tasks, w, s.fibers, 0);
  }

  lemma {:induction false} RunFirst(s: System, w: nat) returns (steps: seq<Action>, s': System)
    requires AllOk(s) && NoneWithTask(s, 0) && At(s, w) && s.workers[w].pc.Scanning? && s.tasks != []
    requires s.tasks[0].thread == -1 || s.tasks[0].thread == w
    ensures OwnRun(s, steps, s') && AllOk(s') && NoneWithTask(s', 0)
    ensures |s'.workers| == |s.workers| && s'.stopping == s.stopping && s'.tasks == s.tasks[1..]
  {
    hide AllOk, Reaches;
    var a := Take(w);
    TakesFirst(s, w);
    OneStep(s, a);
    StepKeeps(s, a);
    MovesAlone(s, a, w);
    var t := Apply(s, a);
    var more;
    more, s' := FreeUp(t, w);
    RunsOn(s, [a], t, more, s');
    steps := [a] + more;
  }

  // Every queued task may be taken by some worker.
  ghost predicate Takable(s: System) {
    forall i :: 0 <= i < |s.tasks| ==> -1 <= s.tasks[i].thread < |s.workers|
  }

  lemma NotEnded(s: System, w: nat)
    requires AllOk(s) && At(s, w) && s.tasks != []
    ensures !s.workers[w].pc.Exited? && !s.workers[w].idleEnded
  {
    hide Counts, TicketsOk, FibersOk, PinOk, RunningOk;
    assert SawStop(s, w) ==> Quiet(s);
  }

  lemma {:induction false} EmptyQueue(s: System) returns (steps: seq<Action>, s': System)
    requires AllOk(s) && NoneWithTask(s, 0) && Takable(s) && |s.workers| > 0
    ensures OwnRun(s, steps, s') && AllOk(s') && NoneWithTask(s', 0)
    ensures |s'.workers| == |s.workers| && s'.stopping == s.stopping && s'.tasks == []
    decreases |s.tasks|
  {
    hide AllOk, Enabled, Reaches, Apply;
    if s.tasks == [] {
      steps, s' := [], s;
      Nowhere(s);
    } else {
      var w: nat := if s.tasks[0].thread == -1 then 0 else s.tasks[0].thread;
      NotEnded(s, w);
      var a, t := ToScan(s, w);
      var b, u := RunFirst(t, w);
      var c;
      c, s' := EmptyQueue(u);
      RunsOn(s, a, t, b, u);
      RunsOn(s, a + b, u, c, s');
      steps := a + b + c;
    }
  }

  lemma {:induction false} NobodyCounts(ws: seq<Worker>)
    requires forall v: nat :: v < |ws| ==> !Busy(ws[v].pc)
    ensures BusyCount(ws) == 0
  {
    if ws != [] {
      var n := |ws| - 1;
      assert forall v: nat :: v < n ==> ws[..n][v] == ws[v];
      NobodyCounts(ws[..n]);
    }
  }

  // ---- The end ----------------------------------------------------------------------------------------

  lemma NoneHeld(s: System)
    requires AllOk(s) && NoneWithTask(s, 0) && s.stopping && s.tasks == []
    ensures Quiet(s)
  {
    NobodyCounts(s.workers);
  }

  lemma AllTasksDone(s: System)
    requires AllOk(s) && Quiet(s)
    ensures forall t :: 0 <= t < |s.tickets| ==> s.tickets[t] == Ticket(Done, 1)
  {
    hide BusyCount, DoneCount, FibersOk, StopOk, PinOk, RunningOk;
    AllDone(s.tickets);
  }

  // After stop(), from every reachable state of at least one worker in which no queued task
  // names a worker that there is not, some run of the workers' own steps ends them all, and
  // then every task ever scheduled has been executed once.
  lemma CanStop(n: nat, before: seq<Action>, s: System) returns (steps: seq<Action>, s': System)
    requires Reaches(Initial(n), before, s) && s.stopping && Takable(s) && |s.workers| > 0
    ensures OwnRun(s, steps, s')
    ensures forall v: nat :: At(s', v) ==> s'.workers[v].pc.Exited?
    ensures forall t :: 0 <= t < |s'.tickets| ==> s'.tickets[t] == Ticket(Done, 1)
  {
    hide AllOk, Enabled, Reaches, Apply, Initial, Quiet;
    StartOk(n);
    RunKeepsAll(Initial(n), before, s);
    var a, t := FreeAll(s, |s.workers|);
    var b, u := EmptyQueue(t);
    NoneHeld(u);
    var c;
    c, s' := ExitAll(u, |u.workers|);
    RunsOn(s, a, t, b, u);
    RunsOn(s, a + b, u, c, s');
    steps := a + b + c;
    AllTasksDone(s');
  }

  // So from every such state, stopping or not, a call of stop() and then steps of the workers
  // end them all.
  lemma StopEnds(n: nat, before: seq<Action>, s: System) returns (steps: seq<Action>, s': System)
    requires Reaches(Initial(n), before, s) && Takable(s) && |s.workers| > 0
    ensures Enabled(s, Stop) && OwnRun(Apply(s, Stop), steps, s')
    ensures forall v: nat :: At(s', v) ==> s'.workers[v].pc.Exited?
    ensures forall t :: 0 <= t < |s'.tickets| ==> s'.tickets[t] == Ticket(Done, 1)
    ensures Apply(s, Stop).tickets == s.tickets
  {
    hide OwnRun, Initial;
    var t := Apply(s, Stop);
    ReachesMore(Initial(n), before, s, Stop);
    steps, s' := CanStop(n, before + [Stop], t);
  }

  lemma {:induction false} ReachesMore(s: System, steps: seq<Action>, s': System, a: Action)
    requires Reaches(s, steps, s') && Enabled(s', a)
    ensures Reaches(s, steps + [a], Apply(s', a))
    decreases |steps|
  {
    hide Enabled, Apply;
    if steps == [] {
      assert steps + [a] == [a] && [a][0] == a && [a][1..] == [];
      assert Reaches(Apply(s, a), [], Apply(s', a));
    } else {
      assert (steps + [a])[0] == steps[0] && (steps + [a])[1..] == steps[1..] + [a];
      ReachesMore(Apply(s, steps[0]), steps[1..], s', a);
    }
  }

  // A task that names a worker that there is not stays in the queue, whatever happens, and
  // no check of a worker is true any more.
  lemma {:induction false} StuckForever(s: System, steps: seq<Action>, s': System, e: Entry)
    requires AllOk(s) && Reaches(s, steps, s') && e in s.tasks && e.thread != -1 && !(0 <= e.thread < |s.workers|)
    ensures e in s'.tasks && forall w: nat :: !SawStop(s', w)
    decreases |steps|
  {
    hide Counts, TicketsOk, FibersOk, PinOk, RunningOk, Enabled, Apply, Eligible;
    if steps == [] {
      forall w: nat ensures !SawStop(s, w) {
        assert SawStop(s, w) ==> Quiet(s);
      }
    } else {
      StepKeeps(s, steps[0]);
      Remains(s, steps[0], e);
      StuckForever(Apply(s, steps[0]), steps[1..], s', e);
    }
  }

  lemma Remains(s: System, a: Action, e: Entry)
    requires Enabled(s, a) && e in s.tasks && e.thread != -1 && !(0 <= e.thread < |s.workers|)
    ensures e in Apply(s, a).tasks && |Apply(s, a).workers| == |s.workers|
  {
    hide First, StillRunning;
    EntriesKept(s, a, e);
    if a.Take? {
      var k := First(s.tasks, a.worker, s.fibers);
      assert k < |s.tasks| ==> s.tasks[k].thread == -1 || s.tasks[k].thread == a.worker;
    }
  }
}
