// When the timeout of a hooked call can still end its wait.
module HookedTimeout {
  import opened Bytes
  import opened HookedIo

  // ---- The timer of the current attempt ---------------------------------------------------

  predicate InAttempt(pc: Pc) { pc.Armed? || pc.Parked? }

  predicate InPlay(s: TimerState) { s.Pending? || s.Collected? }

  // A call with a timeout has a timer of its own in each attempt, and as long as it is not
  // flagged that timer is in the set or collected.
  predicate TimeoutOk(w: World, c: nat) {
    CallIn(w, c) ==>
      var x := w.calls[c];
      && (x.timer.Some? ==> x.timer.value < |w.timers| && w.timers[x.timer.value].call == c)
      && (x.hasTimeout && InAttempt(x.pc) ==>
           x.timer.Some? && (x.flagged.None? ==> InPlay(w.timers[x.timer.value].state)))
  }

  ghost predicate Timed(w: World) {
    Inv(w) && forall c: nat :: TimeoutOk(w, c)
  }

  lemma ScheduleTimed(w: World, s: Slot, c: nat)
    requires TimeoutOk(w, c) && SlotOk(w, s) && s in w.slots
    ensures TimeoutOk(Schedule(w, s), c)
  {
  }

  lemma CallbackTimed(w: World, t: nat, fail: bool, c: nat)
    requires TimeoutOk(w, c) && t < |w.timers| && CallIn(w, w.timers[t].call) && w.timers[t].state.Collected?
    requires SlotOk(w, w.calls[w.timers[t].call].slot)
    ensures TimeoutOk(Callback(w, t, fail), c)
  {
  }

  lemma AttemptTimed(w: World, a: Action, c: nat)
    requires Enabled(w, a) && TimeoutOk(w, c) && (a.Register? || a.Resume?) && TimeoutOk(w, a.call)
    ensures TimeoutOk(Apply(w, a), c)
  {
    hide Schedule, Callback;
  }

  lemma TimedKept(w: World, a: Action)
    requires Timed(w) && Enabled(w, a)
    ensures Timed(Apply(w, a))
  {
    hide CallOk, SlotOk, TimerOk, Schedule, Callback, CancelTimer;
    CallsKept(w, a);
    SlotsKept(w, a);
    TimersKept(w, a);
    forall c: nat ensures TimeoutOk(Apply(w, a), c) {
      assert TimeoutOk(w, c);
      if a.Ready? {
        assert SlotOk(w, a.slot);
        ScheduleTimed(w, a.slot, c);
      } else if a.RunCallback? {
        assert SlotOk(w, w.calls[w.timers[a.timer].call].slot);
        CallbackTimed(w, a.timer, a.fail, c);
      } else if a.Register? || a.Resume? {
        assert TimeoutOk(w, a.call);
        AttemptTimed(w, a, c);
      }
    }
  }

  // ---- Whether the timeout can end the wait ------------------------------------------------

  predicate Holds(w: World, c: nat)
    requires CallIn(w, c)
  {
    w.calls[c].slot in w.slots && w.slots[w.calls[c].slot] == c
  }

  // A timer of the call is in the set or collected whose callback, if cancelEvent
  // succeeds, schedules the fiber.
  ghost predicate Effective(w: World, c: nat)
    requires CallIn(w, c)
  {
    exists t: nat :: t < |w.timers| && w.timers[t].call == c && InPlay(w.timers[t].state)
      && Callback(w, t, false).calls[c].pc == Parked(1)
  }

  lemma EffectiveWhen(w: World, c: nat)
    requires Timed(w) && CallIn(w, c) && w.calls[c].hasTimeout && w.calls[c].pc == Parked(0)
    ensures Effective(w, c) <==> w.calls[c].flagged.None? && Holds(w, c)
  {
    assert TimeoutOk(w, c) && SlotOk(w, w.calls[c].slot);
    if w.calls[c].flagged.None? && Holds(w, c) {
      var t := w.calls[c].timer.value;
      assert Callback(w, t, false).calls[c].pc == Parked(1);
    }
  }

  // ---- How a timeout is lost ------------------------------------------------------------------

  // The callback of one of the call's timers sets the flag and does not schedule the fiber,
  // which has not been scheduled either.
  predicate Spends(w: World, a: Action, c: nat)
    requires Enabled(w, a)
  {
    && a.RunCallback? && w.timers[a.timer].call == c && w.calls[c].flagged.None? && !w.calls[c].pc.Returned?
    && Apply(w, a).calls[c].pc != Parked(1)
  }

  // Another call deletes the event that the call waits for.
  predicate Drops(w: World, a: Action, c: nat)
    requires Enabled(w, a)
  {
    a.Delete? && w.slots[a.slot] == c
  }

  predicate Loses(w: World, steps: seq<Action>, c: nat)
    decreases |steps|
  {
    steps != [] && Enabled(w, steps[0])
    && (Spends(w, steps[0], c) || Drops(w, steps[0], c) || Loses(Apply(w, steps[0]), steps[1..], c))
  }

  // A callback that takes effect is spent exactly when it comes before the call has
  // registered its event in this attempt, or when cancelEvent fails or finds the event
  // deleted while the call waits.
  lemma SpendsWhen(w: World, t: nat, fail: bool)
    requires Inv(w) && Enabled(w, RunCallback(t, fail))
    ensures var c := w.timers[t].call;
      Spends(w, RunCallback(t, fail), c)
      <==> && w.calls[c].flagged.None?
           && (w.calls[c].pc.Trying? || w.calls[c].pc.Armed? || (w.calls[c].pc == Parked(0) && (fail || !Holds(w, c))))
  {
    hide TimerOk;
    var c := w.timers[t].call;
    assert CallOk(w, c) && SlotOk(w, w.calls[c].slot);
  }

  // Every timer of the call that is in the set or collected is that of its current attempt.
  ghost predicate Fresh(w: World, c: nat) {
    CallIn(w, c) && !w.calls[c].pc.Returned? ==>
      forall t: nat :: t < |w.timers| && w.timers[t].call == c && InPlay(w.timers[t].state) ==>
        InAttempt(w.calls[c].pc) && w.calls[c].timer == Some(t)
  }

  // The fiber goes on to a new attempt although cancelling its timer was too late: the
  // callback has been collected and still has to run.
  predicate CancelsLate(w: World, a: Action, c: nat)
    requires Enabled(w, a)
  {
    a == Resume(c) && w.calls[c].flagged.None? && w.calls[c].timer.Some?
    && w.calls[c].timer.value < |w.timers| && w.timers[w.calls[c].timer.value].state.Collected?
  }

  // Timers of earlier attempts are left behind by late cancelling, and by nothing else.
  lemma FreshKept(w: World, a: Action, c: nat)
    requires Timed(w) && Enabled(w, a) && Fresh(w, c)
    ensures Fresh(Apply(w, a), c) <==> !CancelsLate(w, a, c)
  {
    hide CallOk, TimerOk;
    assert TimeoutOk(w, c);
    if a.Ready? {
      assert SlotOk(w, a.slot);
    } else if a.RunCallback? {
      assert SlotOk(w, w.calls[w.timers[a.timer].call].slot);
    }
  }

  // Without them a callback is spent only by the attempt's own timer before the event is
  // registered, or with an event that is not there to be cancelled.
  lemma FreshSpends(w: World, t: nat, fail: bool)
    requires Timed(w) && Enabled(w, RunCallback(t, fail)) && Fresh(w, w.timers[t].call)
    ensures var c := w.timers[t].call;
      Spends(w, RunCallback(t, fail), c) ==>
        w.calls[c].timer == Some(t) && (w.calls[c].pc.Armed? || (w.calls[c].pc == Parked(0) && (fail || !Holds(w, c))))
  {
    hide Apply;
    SpendsWhen(w, t, fail);
  }

  // Nothing is lost yet; the wait is over.
  predicate Good(w: World, c: nat) {
    CallIn(w, c) ==> w.calls[c].flagged.None? && (w.calls[c].pc == Parked(0) ==> Holds(w, c))
  }

  predicate Over(w: World, c: nat) {
    CallIn(w, c) && (w.calls[c].pc.Returned? || (w.calls[c].pc == Parked(1) && w.calls[c].flagged.Some?))
  }

  lemma LossStays(w: World, a: Action, c: nat)
    requires Inv(w) && Enabled(w, a) && CallIn(w, c) && (!Good(w, c) || Spends(w, a, c) || Drops(w, a, c))
    ensures !Good(Apply(w, a), c)
  {
    hide TimerOk, CallOk;
    if a.Ready? {
      assert SlotOk(w, a.slot);
    } else if a.RunCallback? {
      assert SlotOk(w, w.calls[w.timers[a.timer].call].slot);
    } else if a.Delete? {
      assert SlotOk(w, a.slot);
    }
  }

  lemma NoLossStays(w: World, a: Action, c: nat)
    requires Inv(w) && Enabled(w, a) && (Good(w, c) || Over(w, c)) && !Spends(w, a, c) && !Drops(w, a, c)
    ensures Good(Apply(w, a), c) || Over(Apply(w, a), c)
  {
    hide TimerOk;
    assert CallOk(w, c);
    if a.Ready? {
      assert SlotOk(w, a.slot);
    } else if a.RunCallback? {
      assert SlotOk(w, w.calls[w.timers[a.timer].call].slot);
    }
  }

  lemma {:induction false} RunLoses(w: World, steps: seq<Action>, w': World, c: nat)
    requires Timed(w) && Reaches(w, steps, w')
    ensures Timed(w') && (CallIn(w, c) ==> CallIn(w', c))
    ensures CallIn(w, c) && !Good(w, c) ==> !Good(w', c)
    ensures Loses(w, steps, c) ==> CallIn(w', c) && !Good(w', c)
    ensures !Loses(w, steps, c) && (Good(w, c) || Over(w, c)) ==> Good(w', c) || Over(w', c)
    decreases |steps|
  {
    hide CallOk, SlotOk, TimerOk, TimeoutOk, Apply, Enabled, Good, Over;
    if steps != [] {
      var a := steps[0];
      TimedKept(w, a);
      CallsStay(w, a, c);
      if CallIn(w, c) && (!Good(w, c) || Spends(w, a, c) || Drops(w, a, c)) {
        LossStays(w, a, c);
      }
      if (Good(w, c) || Over(w, c)) && !Spends(w, a, c) && !Drops(w, a, c) {
        NoLossStays(w, a, c);
      }
      RunLoses(Apply(w, a), steps[1..], w', c);
    }
  }

  lemma CallsStay(w: World, a: Action, c: nat)
    requires Inv(w) && Enabled(w, a)
    ensures CallIn(w, c) ==> CallIn(Apply(w, a), c)
    ensures Spends(w, a, c) || Drops(w, a, c) ==> CallIn(w, c)
  {
    hide TimerOk, CallOk;
    if a.Delete? {
      assert SlotOk(w, a.slot);
    }
  }

  // For every run and every call that waits with a timeout: its timeout can still end the
  // wait exactly when no step of the run spent it and none deleted its event. It is
  // effective exactly when the call is not flagged and its event is registered.
  lemma TimeoutEffective(steps: seq<Action>, w: World, c: nat)
    requires Reaches(NOTHING, steps, w) && CallIn(w, c) && w.calls[c].hasTimeout && w.calls[c].pc == Parked(0)
    ensures Effective(w, c) <==> !Loses(NOTHING, steps, c)
    ensures Effective(w, c) <==> w.calls[c].flagged.None? && Holds(w, c)
  {
    hide Reaches, Loses, Effective;
    RunLoses(NOTHING, steps, w, c);
    EffectiveWhen(w, c);
  }
}
