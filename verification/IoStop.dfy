// How the worker of a one-worker IOManager decides that it may stop: stopping() reads
// the timers, the pending events and the task queue in separate steps.
module IoStop {
  // Running tasks, about to read the timers, the event count and the queue, blocked in
  // epoll_wait, or past the end of idle().
  datatype Pc = Between | Executing | ReadTimers | ReadEvents | ReadQueue | Waiting | Over

  // lateTimers and lateEvents are those of the timers and events that other threads
  // have added since the check in progress read the respective number; stopFirst tells
  // whether stop() had been called when the check began.
  datatype State = State(stopping: bool, tasks: nat, active: nat, timers: nat, events: nat, pc: Pc,
                         lateTimers: nat, lateEvents: nat, stopFirst: bool)

  datatype Action =
    | Stop | OtherTask | OtherTimer | OtherEvent      // other threads, before stop()
    | OtherCancel(late: bool)                         // another thread cancels a timer,
    | OtherDelete(late: bool) | OtherWake(late: bool)  // calls delEvent, or cancelEvent before stop()
    | TaskAdds(tasks: nat, timers: nat, events: nat)  // a running task schedules and registers
    | TaskCancels(timers: nat, events: nat, tasks: nat)
    | Take | Finish | Idle
    | Check                                           // the next of the three reads
    | Deliver(timers: nat, recurring: nat, events: nat)  // expired timers and ready events become tasks

  predicate Enabled(s: State, a: Action) {
    match a
    case Stop => true
    case OtherTask => !s.stopping
    case OtherTimer => !s.stopping
    case OtherEvent => !s.stopping
    case OtherCancel(late) => if late then 0 < s.lateTimers <= s.timers else s.lateTimers < s.timers
    case OtherDelete(late) => if late then 0 < s.lateEvents <= s.events else s.lateEvents < s.events
    case OtherWake(late) => !s.stopping && if late then 0 < s.lateEvents <= s.events else s.lateEvents < s.events
    case TaskAdds(_, _, _) => s.pc.Executing?
    case TaskCancels(t, e, _) => s.pc.Executing? && t <= s.timers && e <= s.events
    case Take => s.pc.Between? && s.tasks > 0
    case Finish => s.pc.Executing? && s.active > 0
    case Idle => s.pc.Between?
    case Check => s.pc.ReadTimers? || s.pc.ReadEvents? || s.pc.ReadQueue?
    case Deliver(t, _, e) => s.pc.Waiting? && t <= s.timers && e <= s.events
  }

  predicate TimersRead(p: Pc) { p.ReadEvents? || p.ReadQueue? || p.Over? }
  predicate EventsRead(p: Pc) { p.ReadQueue? || p.Over? }

  function Apply(s: State, a: Action): State
    requires Enabled(s, a)
  {
    match a
    case Stop => s.(stopping := true)
    case OtherTask => s.(tasks := s.tasks + 1)
    case OtherTimer => s.(timers := s.timers + 1, lateTimers := s.lateTimers + if TimersRead(s.pc) then 1 else 0)
    case OtherEvent => s.(events := s.events + 1, lateEvents := s.lateEvents + if EventsRead(s.pc) then 1 else 0)
    case OtherCancel(late) => s.(timers := s.timers - 1, lateTimers := s.lateTimers - if late then 1 else 0)
    case OtherDelete(late) => s.(events := s.events - 1, lateEvents := s.lateEvents - if late then 1 else 0)
    case OtherWake(late) =>
      s.(events := s.events - 1, lateEvents := s.lateEvents - (if late then 1 else 0), tasks := s.tasks + 1)
    case TaskAdds(k, t, e) => s.(tasks := s.tasks + k, timers := s.timers + t, events := s.events + e)
    case TaskCancels(t, e, k) => s.(timers := s.timers - t, events := s.events - e, tasks := s.tasks + k)
    case Take => s.(tasks := s.tasks - 1, active := s.active + 1, pc := Executing)
    case Finish => s.(active := s.active - 1, pc := Between)
    case Idle => s.(pc := ReadTimers)
    case Check =>
      if s.pc.ReadTimers? then
        s.(pc := if s.timers == 0 then ReadEvents else Waiting, lateTimers := 0, lateEvents := 0,
           stopFirst := s.stopping)
      else if s.pc.ReadEvents? then s.(pc := if s.events == 0 then ReadQueue else Waiting, lateEvents := 0,
                                       lateTimers := if s.events == 0 then s.lateTimers else 0)
      else if s.stopping && s.tasks == 0 && s.active == 0 then s.(pc := Over)
      else s.(pc := Waiting, lateTimers := 0, lateEvents := 0)
    case Deliver(t, r, e) =>
      s.(timers := s.timers - t, events := s.events - e, tasks := s.tasks + t + r + e, pc := Between)
  }

  predicate Inv(s: State) {
    && s.active == (if s.pc.Executing? then 1 else 0)
    && (if TimersRead(s.pc) then s.timers == s.lateTimers else s.lateTimers == 0)
    && (if EventsRead(s.pc) then s.events == s.lateEvents else s.lateEvents == 0)
    && (TimersRead(s.pc) && s.stopFirst ==> s.stopping && s.lateTimers == 0 && s.lateEvents == 0)
    && (s.pc.Over? ==> s.stopping && s.tasks == 0)
  }

  const START := State(false, 0, 0, 0, 0, Between, 0, 0, false)

  predicate Reaches(s: State, steps: seq<Action>, s': State)
    decreases |steps|
  {
    if steps == [] then s == s' else Enabled(s, steps[0]) && Reaches(Apply(s, steps[0]), steps[1..], s')
  }

  lemma StepKeeps(s: State, a: Action)
    requires Inv(s) && Enabled(s, a)
    ensures Inv(Apply(s, a)) && (s.pc.Over? ==> Apply(s, a).pc.Over? && Apply(s, a).stopFirst == s.stopFirst)
  {
  }

  lemma {:induction false} RunKeeps(s: State, steps: seq<Action>, s': State)
    requires Inv(s) && Reaches(s, steps, s')
    ensures Inv(s') && (s.pc.Over? ==> s'.pc.Over? && s'.stopFirst == s.stopFirst)
    decreases |steps|
  {
    hide Inv, Enabled, Apply;
    if steps != [] {
      StepKeeps(s, steps[0]);
      RunKeeps(Apply(s, steps[0]), steps[1..], s');
    }
  }

  // When the worker's stopping() has returned true, the queue stays empty and nothing
  // runs any more. The timers still armed and the events still pending are exactly those
  // that other threads added after the check had read the respective number; there are
  // none if stop() was called before the check began.
  lemma IoQuiescence(before: seq<Action>, s: State, after: seq<Action>, s': State)
    requires Reaches(START, before, s) && s.pc.Over? && Reaches(s, after, s')
    ensures s'.tasks == 0 && s'.active == 0 && s'.stopping && s'.pc.Over?
    ensures s'.timers == s'.lateTimers && s'.events == s'.lateEvents
    ensures s.stopFirst ==> s'.timers == 0 && s'.events == 0
  {
    RunKeeps(START, before, s);
    RunKeeps(s, after, s');
  }

  // What there is to do: tasks queued and running, timers and events.
  function Work(s: State): nat { s.tasks + s.active + s.timers + s.events }

  // It changes by what other threads and tasks add or take back, by the tasks that end, and by
  // the recurring timers that fire, which stay armed; nothing is lost.
  lemma WorkKept(s: State, a: Action)
    requires Enabled(s, a)
    ensures Work(Apply(s, a)) - Work(s) ==
      match a
      case OtherTask => 1 case OtherTimer => 1 case OtherEvent => 1
      case OtherCancel(_) => -1 case OtherDelete(_) => -1
      case TaskAdds(k, t, e) => k + t + e
      case TaskCancels(t, e, k) => k - t - e
      case Finish => -1
      case Deliver(_, r, _) => r
      case _ => 0
  {
  }

  // ---- The way there -------------------------------------------------------------------------

  // Three reads with no step of another thread between them say so exactly when stop() was
  // called and there is no timer, event or task.
  lemma CheckDecides(s: State)
    requires s.pc.ReadTimers?
    ensures var s1 := Apply(s, Check);
      && (s.timers != 0 ==> s1.pc.Waiting?)
      && (s.timers == 0 ==> s1.pc.ReadEvents? && (s.events != 0 ==> Apply(s1, Check).pc.Waiting?))
      && (s.timers == 0 && s.events == 0 ==> var s2 := Apply(s1, Check);
           s2.pc.ReadQueue? && var p := Apply(s2, Check).pc;
             if s.stopping && s.tasks == 0 && s.active == 0 then p.Over? else p.Waiting?)
  {
  }

  // The worker runs tasks that add nothing, checks, and waits for timers and events.
  predicate OwnStep(a: Action) {
    a.Take? || a.Finish? || a.Idle? || a.Check? || (a.Deliver? && a.recurring == 0)
  }

  ghost predicate OwnRun(s: State, steps: seq<Action>, s': State) {
    Reaches(s, steps, s') && forall a <- steps :: OwnStep(a)
  }

  lemma {:induction false} RunsOn(s: State, a: seq<Action>, u: State, b: seq<Action>, s': State)
    requires OwnRun(s, a, u) && OwnRun(u, b, s')
    ensures OwnRun(s, a + b, s')
    decreases |a|
  {
    hide Enabled, Apply, OwnStep;
    if a == [] {
      assert a + b == b;
    } else {
      assert (a + b)[1..] == a[1..] + b;
      RunsOn(Apply(s, a[0]), a[1..], u, b, s');
    }
  }

  lemma OneStep(s: State, a: Action)
    requires Enabled(s, a) && OwnStep(a)
    ensures OwnRun(s, [a], Apply(s, a))
  {
    hide Enabled, Apply, OwnStep;
    assert Reaches(Apply(s, a), [], Apply(s, a));
    assert [a][0] == a && [a][1..] == [];
  }

  lemma TwoSteps(s: State, a: Action, b: Action)
    requires Enabled(s, a) && OwnStep(a) && Enabled(Apply(s, a), b) && OwnStep(b)
    ensures OwnRun(s, [a, b], Apply(Apply(s, a), b))
  {
    hide Enabled, Apply, OwnStep, OwnRun;
    OneStep(s, a);
    OneStep(Apply(s, a), b);
    RunsOn(s, [a], Apply(s, a), [b], Apply(Apply(s, a), b));
    assert [a] + [b] == [a, b];
  }

  // All tasks are run.
  lemma {:induction false} RunTasks(s: State) returns (steps: seq<Action>)
    requires s.pc.Between? && s.active == 0
    ensures OwnRun(s, steps, s.(tasks := 0))
    decreases s.tasks
  {
    hide OwnRun;
    if s.tasks == 0 {
      steps := [];
      Nothing(s);
    } else {
      var u := Apply(Apply(s, Take), Finish);
      TwoSteps(s, Take, Finish);
      var more := RunTasks(u);
      steps := [Take, Finish] + more;
      RunsOn(s, [Take, Finish], u, more, s.(tasks := 0));
    }
  }

  lemma Nothing(s: State)
    ensures OwnRun(s, [], s)
  {
  }

  function ToGo(p: Pc): nat {
    match p
    case ReadTimers => 3 case ReadEvents => 2 case ReadQueue => 1 case Executing => 1 case Waiting => 1 case _ => 0
  }

  // To the place between tasks, or to the end.
  lemma ToBetween(s: State) returns (steps: seq<Action>, s': State)
    requires Inv(s) && s.stopping
    ensures OwnRun(s, steps, s') && Inv(s') && s'.stopping && (s'.pc.Between? || s'.pc.Over?)
    decreases ToGo(s.pc)
  {
    hide OwnRun;
    if s.pc.Between? || s.pc.Over? {
      steps, s' := [], s;
      Nothing(s);
    } else {
      var a := if s.pc.Executing? then Finish else if s.pc.Waiting? then Deliver(0, 0, 0) else Check;
      OneStep(s, a);
      StepKeeps(s, a);
      var u := Apply(s, a);
      if u.pc.Waiting? {
        OneStep(u, Deliver(0, 0, 0));
        StepKeeps(u, Deliver(0, 0, 0));
        s' := Apply(u, Deliver(0, 0, 0));
        steps := [a] + [Deliver(0, 0, 0)];
        RunsOn(s, [a], u, [Deliver(0, 0, 0)], s');
      } else {
        var more;
        more, s' := ToBetween(u);
        steps := [a] + more;
        RunsOn(s, [a], u, more, s');
      }
    }
  }

  // The timers expire and the events come: they are tasks then.
  lemma Delivered(s: State) returns (steps: seq<Action>, s': State)
    requires Inv(s) && s.pc.Between? && s.stopping && s.tasks == 0
    ensures OwnRun(s, steps, s') && Inv(s') && s'.stopping && s'.timers == 0 && s'.events == 0
    ensures s'.pc.Between? || s'.pc.Over?
  {
    hide OwnRun;
    if s.timers == 0 && s.events == 0 {
      steps, s' := [], s;
      Nothing(s);
    } else {
      var i := Apply(s, Idle);
      var w := Apply(i, Check);
      TwoSteps(s, Idle, Check);
      StepKeeps(s, Idle);
      StepKeeps(i, Check);
      steps := [Idle, Check];
      if s.timers == 0 {
        OneStep(w, Check);
        StepKeeps(w, Check);
        RunsOn(s, steps, w, [Check], Apply(w, Check));
        steps, w := steps + [Check], Apply(w, Check);
      }
      var d := Deliver(s.timers, 0, s.events);
      OneStep(w, d);
      StepKeeps(w, d);
      s' := Apply(w, d);
      RunsOn(s, steps, w, [d], s');
      steps := steps + [d];
    }
  }

  lemma Checked(s: State)
    requires s.pc.Between? && s.stopping && s.tasks == 0 && s.active == 0 && s.timers == 0 && s.events == 0
    ensures exists s' :: OwnRun(s, [Idle, Check, Check, Check], s') && s'.pc.Over?
  {
    hide OwnRun;
    var a := Apply(Apply(s, Idle), Check);
    var b := Apply(Apply(a, Check), Check);
    TwoSteps(s, Idle, Check);
    TwoSteps(a, Check, Check);
    RunsOn(s, [Idle, Check], a, [Check, Check], b);
    assert [Idle, Check] + [Check, Check] == [Idle, Check, Check, Check];
  }

  // After stop(), from every reachable state, some run in which the timers expire, the events
  // come and the tasks add nothing lets the worker's stopping() return true.
  lemma IoCanStop(before: seq<Action>, s: State) returns (steps: seq<Action>, s': State)
    requires Reaches(START, before, s) && s.stopping
    ensures OwnRun(s, steps, s') && s'.pc.Over?
  {
    hide OwnRun, Reaches;
    RunKeeps(START, before, s);
    steps, s' := ToBetween(s);
    if s'.pc.Between? {
      var a := RunTasks(s');
      var u := s'.(tasks := 0);
      RunsOn(s, steps, s', a, u);
      var b, v := Delivered(u);
      RunsOn(s, steps + a, u, b, v);
      steps, s' := steps + a + b, v;
      if v.pc.Between? {
        var c := RunTasks(v);
        var w := v.(tasks := 0);
        RunsOn(s, steps, v, c, w);
        Checked(w);
        var e :| OwnRun(w, [Idle, Check, Check, Check], e) && e.pc.Over?;
        RunsOn(s, steps + c, w, [Idle, Check, Check, Check], e);
        steps, s' := steps + c + [Idle, Check, Check, Check], e;
      }
    }
  }

  // The claim that no timer is armed then is false in general: a timer added between
  // the first two reads by the thread that goes on to call stop() is left behind.
  lemma TimerLeftBehind() returns (steps: seq<Action>, s: State)
    ensures Reaches(START, steps, s) && s.pc.Over? && s.timers == 1
  {
    steps := [Idle, Check, OtherTimer, Stop, Check, Check];
    s := State(true, 0, 0, 1, 0, Over, 1, 0, false);
    var s1 := Apply(START, Idle);
    var s2 := Apply(s1, Check);
    var s3 := Apply(s2, OtherTimer);
    var s4 := Apply(s3, Stop);
    var s5 := Apply(s4, Check);
    assert Apply(s5, Check) == s;
    assert Reaches(s5, [Check], s);
    assert Reaches(s4, [Check, Check], s);
    assert Reaches(s3, [Stop, Check, Check], s);
    assert Reaches(s2, [OtherTimer, Stop, Check, Check], s);
    assert Reaches(s1, [Check, OtherTimer, Stop, Check, Check], s);
  }
}
