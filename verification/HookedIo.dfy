// The wait, timeout and retry protocol of do_io in hook.cc, for any number of hooked
// calls on any descriptors, with timer callbacks and event deliveries as atomic steps.
module HookedIo {
  import opened Bytes

  // A descriptor and an event: at most one call waits for it at a time.
  type Slot = nat

  datatype Result = Finished | AddFailed | TimedOut

  // About to call the function; with its timer armed, about to call addEvent; waiting
  // for the answer to its yield; returned.
  datatype Pc = Trying | Armed | Parked(scheduled: nat) | Returned(r: Result)

  // flagged is the timer whose callback set timer_info.cancelled; timer is that of the
  // current attempt; waits and wakes count the yields made and the schedulings of the
  // call's fiber.
  datatype Call = Call(slot: Slot, hasTimeout: bool, pc: Pc, flagged: Option<nat>, timer: Option<nat>,
                       waits: nat, wakes: nat)

  // A condition timer is in the timer set, collected for execution, cancelled or run;
  // setFlag tells whether its callback set the flag of its call.
  datatype TimerState = Pending | Collected | Cancelled | Ran(setFlag: bool)
  datatype Timer = Timer(call: nat, state: TimerState)

  datatype World = World(calls: seq<Call>, timers: seq<Timer>, slots: map<Slot, nat>)

  datatype Action =
    | Start(slot: Slot, hasTimeout: bool)
    | Return(call: nat)                    // the function did not fail with EAGAIN
    | Block(call: nat)                     // it did: add the timer, if there is a timeout
    | Register(call: nat, fail: bool)      // addEvent, and yield if it succeeds
    | Ready(slot: Slot)                    // an event is delivered, or cancelled by another call
    | Delete(slot: Slot)                   // delEvent by another call
    | Collect(timer: nat)                  // listExpiredCb takes the callback
    | RunCallback(timer: nat, fail: bool)
    | Resume(call: nat)                    // the fiber goes on after its yield

  predicate CallIn(w: World, c: nat) { c < |w.calls| }

  // addEvent asserts that the slot is free.
  predicate Enabled(w: World, a: Action) {
    match a
    case Start(_, _) => true
    case Return(c) => CallIn(w, c) && w.calls[c].pc.Trying?
    case Block(c) => CallIn(w, c) && w.calls[c].pc.Trying?
    case Register(c, fail) => CallIn(w, c) && w.calls[c].pc.Armed? && w.calls[c].slot !in w.slots
    case Ready(s) => s in w.slots
    case Delete(s) => s in w.slots
    case Collect(t) => t < |w.timers| && w.timers[t].state.Pending?
    case RunCallback(t, _) => t < |w.timers| && w.timers[t].state.Collected? && CallIn(w, w.timers[t].call)
    case Resume(c) => CallIn(w, c) && w.calls[c].pc.Parked? && w.calls[c].pc.scheduled > 0
  }

  function SetCall(w: World, c: nat, x: Call): World
    requires CallIn(w, c)
  {
    w.(calls := w.calls[c := x])
  }

  function SetTimer(w: World, t: nat, s: TimerState): World {
    if t < |w.timers| then w.(timers := w.timers[t := w.timers[t].(state := s)]) else w
  }

  // Timer::cancel on the timer of the current attempt, if there is one: it has an effect
  // only while the timer is in the set.
  function CancelTimer(w: World, t: Option<nat>): World {
    if t.Some? && t.value < |w.timers| && w.timers[t.value].state.Pending?
    then SetTimer(w, t.value, Cancelled) else w
  }

  // triggerEvent on the slot: its registration ends and its fiber is scheduled.
  function Schedule(w: World, s: Slot): World
    requires s in w.slots
  {
    var c := w.slots[s];
    var w' := w.(slots := w.slots - {s});
    if CallIn(w, c) then SetCall(w', c, w.calls[c].(pc := Bumped(w.calls[c].pc), wakes := w.calls[c].wakes + 1)) else w'
  }

  function Bumped(pc: Pc): Pc {
    if pc.Parked? then Parked(pc.scheduled + 1) else pc
  }

  function Apply(w: World, a: Action): World
    requires Enabled(w, a)
  {
    match a
    case Start(s, timeout) => w.(calls := w.calls + [Call(s, timeout, Trying, None, None, 0, 0)])
    case Return(c) => SetCall(w, c, w.calls[c].(pc := Returned(Finished)))
    case Block(c) =>
      if w.calls[c].hasTimeout then
        SetCall(w, c, w.calls[c].(pc := Armed, timer := Some(|w.timers|)))
        .(timers := w.timers + [Timer(c, Pending)])
      else SetCall(w, c, w.calls[c].(pc := Armed, timer := None))
    case Register(c, fail) =>
      var x := w.calls[c];
      if fail then CancelTimer(SetCall(w, c, x.(pc := Returned(AddFailed))), x.timer)
      else SetCall(w, c, x.(pc := Parked(0), waits := x.waits + 1)).(slots := w.slots[x.slot := c])
    case Ready(s) => Schedule(w, s)
    case Delete(s) => w.(slots := w.slots - {s})
    case Collect(t) => SetTimer(w, t, Collected)
    case RunCallback(t, fail) => Callback(w, t, fail)
    case Resume(c) =>
      var x := w.calls[c];
      CancelTimer(SetCall(w, c, x.(pc := if x.flagged.Some? then Returned(TimedOut) else Trying)), x.timer)
  }

  // The timer's callback: nothing if the call has returned or is flagged already; else
  // it sets the flag and cancels the event, whoever waits for it.
  function Callback(w: World, t: nat, fail: bool): World
    requires t < |w.timers| && CallIn(w, w.timers[t].call)
  {
    var c := w.timers[t].call;
    var x := w.calls[c];
    if x.pc.Returned? || x.flagged.Some? then SetTimer(w, t, Ran(false))
    else
      var w' := SetCall(SetTimer(w, t, Ran(true)), c, x.(flagged := Some(t)));
      if fail || x.slot !in w.slots then w' else Schedule(w', x.slot)
  }

  // ---- The invariant -------------------------------------------------------------------

  predicate CallOk(w: World, c: nat) {
    CallIn(w, c) ==>
      var x := w.calls[c];
      && x.wakes + (if x.pc.Parked? && x.pc.scheduled == 0 then 1 else 0) == x.waits
      && (x.pc.Parked? ==> x.pc.scheduled <= 1)
      && (x.flagged.Some? ==> x.flagged.value < |w.timers| && w.timers[x.flagged.value] == Timer(c, Ran(true)))
      && (x.pc == Returned(TimedOut) ==> x.flagged.Some?)
  }

  // A slot is held by a call that waits for it and has not been scheduled.
  predicate SlotOk(w: World, s: Slot) {
    s in w.slots ==>
      CallIn(w, w.slots[s]) && w.calls[w.slots[s]].slot == s && w.calls[w.slots[s]].pc == Parked(0)
  }

  // Only the timer of the current attempt can still be in the timer set, and only
  // until the attempt ends.
  predicate TimerOk(w: World, t: nat) {
    t < |w.timers| && w.timers[t].state.Pending? ==>
      && CallIn(w, w.timers[t].call) && w.calls[w.timers[t].call].timer == Some(t)
      && (w.calls[w.timers[t].call].pc.Armed? || w.calls[w.timers[t].call].pc.Parked?)
  }

  ghost predicate Inv(w: World) {
    (forall c: nat :: CallOk(w, c)) && (forall s: nat :: SlotOk(w, s)) && (forall t: nat :: TimerOk(w, t))
    && forall t :: 0 <= t < |w.timers| ==> CallIn(w, w.timers[t].call)
  }

  lemma ScheduleCall(w: World, s: Slot, c: nat)
    requires Inv(w) && s in w.slots
    ensures CallOk(Schedule(w, s), c)
  {
    hide TimerOk;
    assert CallOk(w, c) && SlotOk(w, s);
  }

  lemma CallbackCall(w: World, t: nat, fail: bool, c: nat)
    requires Inv(w) && t < |w.timers| && CallIn(w, w.timers[t].call) && w.timers[t].state.Collected?
    ensures CallOk(Callback(w, t, fail), c)
  {
    hide TimerOk;
    assert CallOk(w, c) && SlotOk(w, w.calls[w.timers[t].call].slot);
  }

  lemma CallsKept(w: World, a: Action)
    requires Inv(w) && Enabled(w, a)
    ensures forall c: nat :: CallOk(Apply(w, a), c)
  {
    hide TimerOk, SlotOk, Schedule, Callback;
    var w' := Apply(w, a);
    forall c: nat ensures CallOk(w', c) {
      assert CallOk(w, c);
      if a.Ready? {
        ScheduleCall(w, a.slot, c);
      } else if a.RunCallback? {
        CallbackCall(w, a.timer, a.fail, c);
      }
    }
  }

  lemma SlotsKept(w: World, a: Action)
    requires Inv(w) && Enabled(w, a)
    ensures forall s: nat :: SlotOk(Apply(w, a), s)
  {
    hide TimerOk, CallOk;
    var w' := Apply(w, a);
    forall s: nat ensures SlotOk(w', s) {
      assert SlotOk(w, s);
      if a.Ready? {
        assert SlotOk(w, a.slot);
      } else if a.RunCallback? {
        assert SlotOk(w, w.calls[w.timers[a.timer].call].slot);
      }
    }
  }

  lemma TimersKept(w: World, a: Action)
    requires Inv(w) && Enabled(w, a)
    ensures forall t: nat :: TimerOk(Apply(w, a), t)
    ensures forall t :: 0 <= t < |Apply(w, a).timers| ==> CallIn(Apply(w, a), Apply(w, a).timers[t].call)
  {
    hide CallOk;
    var w' := Apply(w, a);
    forall t: nat ensures TimerOk(w', t) {
      assert TimerOk(w, t);
    }
  }

  ghost predicate Reaches(w: World, steps: seq<Action>, w': World)
    decreases |steps|
  {
    if steps == [] then w == w' else Enabled(w, steps[0]) && Reaches(Apply(w, steps[0]), steps[1..], w')
  }

  lemma {:induction false} RunKeeps(w: World, steps: seq<Action>, w': World)
    requires Inv(w) && Reaches(w, steps, w')
    ensures Inv(w')
    decreases |steps|
  {
    hide Enabled, Apply, CallOk, SlotOk, TimerOk;
    if steps != [] {
      CallsKept(w, steps[0]);
      SlotsKept(w, steps[0]);
      TimersKept(w, steps[0]);
      RunKeeps(Apply(w, steps[0]), steps[1..], w');
    }
  }

  const NOTHING := World([], [], map[])

  // In every reachable state each yield of a hooked call has been answered by at most one
  // scheduling of its fiber, from readiness or from a timeout, never both; a call reports
  // ETIMEDOUT only if the callback of a timer of its own set the flag; and a call that
  // has returned has no timer left in the timer set.
  lemma OneWakePerYield(steps: seq<Action>, w: World, c: nat)
    requires Reaches(NOTHING, steps, w) && CallIn(w, c)
    ensures var x := w.calls[c];
      && x.wakes <= x.waits <= x.wakes + 1 && (x.wakes < x.waits <==> x.pc == Parked(0))
      && (x.pc.Parked? ==> x.pc.scheduled <= 1)
      && (x.pc == Returned(TimedOut) ==> exists t: nat :: t < |w.timers| && w.timers[t] == Timer(c, Ran(true)))
      && (x.pc.Returned? ==> forall t :: 0 <= t < |w.timers| && w.timers[t].call == c ==> !w.timers[t].state.Pending?)
  {
    hide Enabled, Apply;
    RunKeeps(NOTHING, steps, w);
    assert CallOk(w, c);
    forall t: nat | t < |w.timers| && w.timers[t].call == c && w.calls[c].pc.Returned?
      ensures !w.timers[t].state.Pending?
    {
      assert TimerOk(w, t);
    }
  }

  // A call that has returned stays so, with the same result and counts, whatever else
  // happens.
  lemma {:induction false} ReturnedStays(w: World, steps: seq<Action>, w': World, c: nat)
    requires Inv(w) && Reaches(w, steps, w') && CallIn(w, c) && w.calls[c].pc.Returned?
    ensures CallIn(w', c) && w'.calls[c] == w.calls[c]
    decreases |steps|
  {
    hide CallOk, TimerOk, Enabled, Apply;
    if steps != [] {
      var a := steps[0];
      ReturnedStep(w, a, c);
      CallsKept(w, a);
      SlotsKept(w, a);
      TimersKept(w, a);
      ReturnedStays(Apply(w, a), steps[1..], w', c);
    }
  }

  lemma ReturnedStep(w: World, a: Action, c: nat)
    requires Inv(w) && Enabled(w, a) && CallIn(w, c) && w.calls[c].pc.Returned?
    ensures CallIn(Apply(w, a), c) && Apply(w, a).calls[c] == w.calls[c]
  {
    hide CallOk, TimerOk;
    if a.Ready? {
      assert SlotOk(w, a.slot);
    } else if a.RunCallback? {
      assert SlotOk(w, w.calls[w.timers[a.timer].call].slot);
    }
  }

  // The converse of the second claim fails: a callback collected in one attempt can run
  // in the next, before that attempt has registered its event. Its flag then makes the
  // new timer's callback do nothing, and the call is left waiting without a timeout.
  lemma TimeoutSpent() returns (steps: seq<Action>, w: World)
    ensures Reaches(NOTHING, steps, w) && CallIn(w, 0)
    ensures w.calls[0].pc == Parked(0) && w.slots == map[0 := 0] && w.calls[0].hasTimeout
    ensures forall t <- w.timers :: t.state.Ran?
  {
    hide Reaches, Apply, Enabled;
    var first := [Start(0, true), Block(0), Register(0, false)];
    var second := [Collect(0), Ready(0), Resume(0)];
    var third := [Block(0), RunCallback(0, false), Register(0, false)];
    var fourth := [Collect(1), RunCallback(1, false)];
    FirstWait();
    FirstAnswer();
    SecondWait();
    w := World([Call(0, true, Parked(0), Some(0), Some(1), 2, 1)], [Timer(0, Ran(true)), Timer(0, Ran(false))],
               map[0 := 0]);
    SecondTimeout(w);
    Joined(NOTHING, first, FIRST_WAIT, second, FIRST_ANSWER);
    Joined(NOTHING, first + second, FIRST_ANSWER, third, SECOND_WAIT);
    Joined(NOTHING, first + second + third, SECOND_WAIT, fourth, w);
    steps := first + second + third + fourth;
  }

  const FIRST_WAIT := World([Call(0, true, Parked(0), None, Some(0), 1, 0)], [Timer(0, Pending)], map[0 := 0])
  const FIRST_ANSWER := World([Call(0, true, Trying, None, Some(0), 1, 1)], [Timer(0, Collected)], map[])
  const SECOND_WAIT := World([Call(0, true, Parked(0), Some(0), Some(1), 2, 1)],
                             [Timer(0, Ran(true)), Timer(0, Pending)], map[0 := 0])

  lemma FirstWait()
    ensures Reaches(NOTHING, [Start(0, true), Block(0), Register(0, false)], FIRST_WAIT)
  {
    var w1 := Apply(NOTHING, Start(0, true));
    var w2 := Apply(w1, Block(0));
    assert Apply(w2, Register(0, false)) == FIRST_WAIT;
    assert Reaches(w2, [Register(0, false)], FIRST_WAIT);
    assert Reaches(w1, [Block(0), Register(0, false)], FIRST_WAIT);
  }

  lemma FirstAnswer()
    ensures Reaches(FIRST_WAIT, [Collect(0), Ready(0), Resume(0)], FIRST_ANSWER)
  {
    var w1 := Apply(FIRST_WAIT, Collect(0));
    var w2 := Apply(w1, Ready(0));
    assert Apply(w2, Resume(0)) == FIRST_ANSWER;
    assert Reaches(w2, [Resume(0)], FIRST_ANSWER);
    assert Reaches(w1, [Ready(0), Resume(0)], FIRST_ANSWER);
  }

  lemma SecondWait()
    ensures Reaches(FIRST_ANSWER, [Block(0), RunCallback(0, false), Register(0, false)], SECOND_WAIT)
  {
    var w1 := Apply(FIRST_ANSWER, Block(0));
    var w2 := Apply(w1, RunCallback(0, false));
    assert Apply(w2, Register(0, false)) == SECOND_WAIT;
    assert Reaches(w2, [Register(0, false)], SECOND_WAIT);
    assert Reaches(w1, [RunCallback(0, false), Register(0, false)], SECOND_WAIT);
  }

  lemma SecondTimeout(w: World)
    requires w == World([Call(0, true, Parked(0), Some(0), Some(1), 2, 1)],
                        [Timer(0, Ran(true)), Timer(0, Ran(false))], map[0 := 0])
    ensures Reaches(SECOND_WAIT, [Collect(1), RunCallback(1, false)], w)
  {
    var w1 := Apply(SECOND_WAIT, Collect(1));
    assert Apply(w1, RunCallback(1, false)) == w;
    assert Reaches(w1, [RunCallback(1, false)], w);
  }

  lemma {:induction false} Joined(u: World, a: seq<Action>, v: World, b: seq<Action>, w: World)
    requires Reaches(u, a, v) && Reaches(v, b, w)
    ensures Reaches(u, a + b, w)
    decreases |a|
  {
    hide Apply, Enabled;
    if a == [] {
      assert a + b == b;
    } else {
      Joined(Apply(u, a[0]), a[1..], v, b, w);
      assert (a + b)[1..] == a[1..] + b;
    }
  }
}
