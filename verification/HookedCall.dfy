// One hooked call as the loop that do_io is, run among the steps of the timers, the events
// and the other calls.
module HookedCall {
  import opened Bytes
  import opened HookedIo

  datatype Outcome = Interrupted | WouldBlock | Ended(n: int)

  // One pass of the loop: how the call of the function ends, whether addEvent fails, and
  // what others do before the call, before addEvent and during the yield.
  datatype Turn = Turn(outcome: Outcome, addFails: bool, before: seq<Action>, armed: seq<Action>, away: seq<Action>)

  predicate GoesOn(t: Turn) { t.outcome.Interrupted? || (t.outcome.WouldBlock? && !t.addFails) }

  function CountBlocked(turns: seq<Turn>): nat {
    if turns == [] then 0
    else CountBlocked(turns[..|turns| - 1]) + if turns[|turns| - 1].outcome.WouldBlock? then 1 else 0
  }

  // The steps that the fiber of the call itself takes.
  predicate Own(a: Action, c: nat) {
    (a.Return? || a.Block? || a.Register? || a.Resume?) && a.call == c
  }

  // What the steps of others leave of a call: only a wait can be answered, once.
  predicate Kept(x: Call, y: Call) {
    && y.slot == x.slot && y.hasTimeout == x.hasTimeout && y.waits == x.waits
    && (y.pc == x.pc || (x.pc == Parked(0) && y.pc == Parked(1)))
  }

  lemma OthersKeep(w: World, a: Action, c: nat)
    requires Inv(w) && Enabled(w, a) && CallIn(w, c) && !Own(a, c)
    ensures CallIn(Apply(w, a), c) && Kept(w.calls[c], Apply(w, a).calls[c])
  {
    hide CallOk, TimerOk;
    if a.Ready? {
      assert SlotOk(w, a.slot);
    } else if a.RunCallback? {
      assert SlotOk(w, w.calls[w.timers[a.timer].call].slot);
    }
  }

  // Where a step of its own leads a call.
  predicate Led(x: Call, a: Action, y: Call) {
    && y.slot == x.slot && y.hasTimeout == x.hasTimeout
    && match a
       case Return(_) => y.pc == Returned(Finished) && y.waits == x.waits
       case Block(_) => y.pc == Armed && y.waits == x.waits
       case Register(_, fail) =>
         if fail then y.pc == Returned(AddFailed) && y.waits == x.waits else y.pc == Parked(0) && y.waits == x.waits + 1
       case _ => y.pc == (if x.flagged.Some? then Returned(TimedOut) else Trying) && y.waits == x.waits
  }

  lemma OwnLeads(w: World, a: Action, c: nat)
    requires Enabled(w, a) && Own(a, c)
    ensures CallIn(w, c) && CallIn(Apply(w, a), c) && Led(w.calls[c], a, Apply(w, a).calls[c])
  {
    hide Schedule, Callback;
  }

  // All calls and timers of a process, and what one hooked call does with them.
  class Process {
    var w: World

    method Step(a: Action, ghost u: World, ghost trace: seq<Action>) returns (ghost trace': seq<Action>)
      requires Inv(w) && Enabled(w, a) && Reaches(u, trace, w)
      modifies this
      ensures w == Apply(old(w), a) && Inv(w)
      ensures Reaches(u, trace', w) && trace' == trace + [a]
    {
      assert Reaches(w, [a], Apply(w, a)) by {
        assert Reaches(Apply(w, a), [], Apply(w, a));
      }
      hide Apply, Enabled, CallOk, SlotOk, TimerOk, Reaches;
      CallsKept(w, a);
      SlotsKept(w, a);
      TimersKept(w, a);
      Joined(u, trace, w, [a], Apply(w, a));
      w := Apply(w, a);
      trace' := trace + [a];
    }

    // A step of the fiber of call c.
    method Go(a: Action, c: nat, ghost u: World, ghost trace: seq<Action>) returns (ghost trace': seq<Action>)
      requires Inv(w) && Enabled(w, a) && Own(a, c) && Reaches(u, trace, w)
      modifies this
      ensures CallIn(old(w), c) && CallIn(w, c) && Led(old(w).calls[c], a, w.calls[c])
      ensures Inv(w) && Reaches(u, trace', w) && trace' == trace + [a]
    {
      hide Inv, Apply, Enabled, Reaches;
      OwnLeads(w, a, c);
      trace' := Step(a, u, trace);
    }

    // What others do while the fiber of call c does not run; steps that are not possible
    // are left out.
    method Others(acts: seq<Action>, c: nat, ghost u: World, ghost trace: seq<Action>)
      returns (ghost trace': seq<Action>)
      requires Inv(w) && CallIn(w, c) && Reaches(u, trace, w)
      modifies this
      ensures Inv(w) && CallIn(w, c) && Kept(old(w).calls[c], w.calls[c]) && Reaches(u, trace', w)
      ensures trace <= trace' && forall k :: |trace| <= k < |trace'| ==> !Own(trace'[k], c)
    {
      hide Apply, Enabled, CallOk, SlotOk, TimerOk, Reaches, Inv;
      trace' := trace;
      for i := 0 to |acts|
        invariant Inv(w) && CallIn(w, c) && Kept(old(w).calls[c], w.calls[c]) && Reaches(u, trace', w)
        invariant trace <= trace' && forall k :: |trace| <= k < |trace'| ==> !Own(trace'[k], c)
      {
        if Enabled(w, acts[i]) && !Own(acts[i], c) {
          OthersKeep(w, acts[i], c);
          trace' := Step(acts[i], u, trace');
        }
      }
    }

    // The wait after EAGAIN, which begins with the timer and ends when the fiber goes on: it
    // leads back to the function, or to one of the two failures, or it does not end.
    method Wait(turn: Turn, c: nat, ghost u: World, ghost trace: seq<Action>)
      returns (again: bool, ghost trace': seq<Action>)
      requires Inv(w) && CallIn(w, c) && w.calls[c].pc.Trying? && Reaches(u, trace, w)
      modifies this
      ensures Inv(w) && Reaches(u, trace', w) && CallIn(w, c)
      ensures w.calls[c].slot == old(w).calls[c].slot && w.calls[c].hasTimeout == old(w).calls[c].hasTimeout
      ensures again <==> w.calls[c].pc.Trying?
      ensures match w.calls[c].pc
              case Returned(x) => x == (if turn.addFails then AddFailed else TimedOut)
              case Trying => !turn.addFails
              case _ => true
      ensures w.calls[c].pc.Returned? || w.calls[c].pc.Trying? ==>
        w.calls[c].waits == old(w).calls[c].waits + if turn.addFails then 0 else 1
    {
      hide Inv, Apply, Reaches;
      trace' := Go(Block(c), c, u, trace);
      trace' := Others(turn.armed, c, u, trace');
      if w.calls[c].slot in w.slots {
        return false, trace';
      }
      trace' := Go(Register(c, turn.addFails), c, u, trace');
      if turn.addFails {
        return false, trace';
      }
      trace' := Others(turn.away, c, u, trace');
      if w.calls[c].pc.scheduled == 0 {
        return false, trace';
      }
      var flagged := w.calls[c].flagged.Some?;
      trace' := Go(Resume(c), c, u, trace');
      again := !flagged;
    }

    // The answer is None when the turns end while the call is still under way, or when the
    // assertion in addEvent stops it. Else the call has returned that result, having waited
    // once for each time the function would have blocked, and its timers are out of the set.
    method DoIo(slot: Slot, timeout: bool, turns: seq<Turn>)
      returns (r: Option<Result>, n: int, c: nat, used: nat, ghost trace: seq<Action>)
      requires Inv(w)
      modifies this
      ensures Inv(w) && Reaches(old(w), trace, w) && c == |old(w).calls| && CallIn(w, c)
      ensures w.calls[c].slot == slot && w.calls[c].hasTimeout == timeout
      ensures match r
              case None => !w.calls[c].pc.Returned?
              case Some(x) => w.calls[c].pc == Returned(x)
      ensures r.Some? ==> 0 < used <= |turns| && forall i :: 0 <= i < used - 1 ==> GoesOn(turns[i])
      ensures r.Some? ==>
        w.calls[c].wakes == w.calls[c].waits == CountBlocked(turns[..used]) - if r == Some(AddFailed) then 1 else 0
      ensures r == Some(Finished) ==> turns[used - 1].outcome == Ended(n)
      ensures r != Some(Finished) ==> n == -1
      ensures r == Some(AddFailed) ==> turns[used - 1].outcome.WouldBlock? && turns[used - 1].addFails
      ensures r == Some(TimedOut) ==> exists t: nat :: t < |w.timers| && w.timers[t] == Timer(c, Ran(true))
      ensures r.Some? ==> forall t :: 0 <= t < |w.timers| && w.timers[t].call == c ==> !w.timers[t].state.Pending?
    {
      hide Inv;
      ghost var u := w;
      assert Reaches(u, [], w);
      hide Reaches;
      c, n, used := |w.calls|, -1, 0;
      trace := Step(Start(slot, timeout), u, []);
      hide Apply;
      while used < |turns|
        invariant Inv(w) && Reaches(u, trace, w) && CallIn(w, c) && used <= |turns|
        invariant w.calls[c].slot == slot && w.calls[c].hasTimeout == timeout && w.calls[c].pc.Trying?
        invariant forall i :: 0 <= i < used ==> GoesOn(turns[i])
        invariant w.calls[c].waits == CountBlocked(turns[..used])
      {
        var turn := turns[used];
        CountMore(turns, used);
        used := used + 1;
        trace := Others(turn.before, c, u, trace);
        if turn.outcome.Interrupted? {
          continue;
        }
        if turn.outcome.Ended? {
          trace := Go(Return(c), c, u, trace);
          Ends(w, c);
          return Some(Finished), turn.outcome.n, c, used, trace;
        }
        var again: bool;
        again, trace := Wait(turn, c, u, trace);
        if !again {
          if !w.calls[c].pc.Returned? {
            return None, -1, c, used, trace;
          }
          Ends(w, c);
          return Some(w.calls[c].pc.r), -1, c, used, trace;
        }
      }
      return None, -1, c, used, trace;
    }
  }

  lemma CountMore(turns: seq<Turn>, k: nat)
    requires k < |turns|
    ensures CountBlocked(turns[..k + 1]) == CountBlocked(turns[..k]) + if turns[k].outcome.WouldBlock? then 1 else 0
  {
    assert turns[..k + 1][..k] == turns[..k];
  }

  lemma Ends(w: World, c: nat)
    requires Inv(w) && CallIn(w, c) && w.calls[c].pc.Returned?
    ensures w.calls[c].wakes == w.calls[c].waits
    ensures w.calls[c].pc == Returned(TimedOut) ==>
      exists t: nat :: t < |w.timers| && w.timers[t] == Timer(c, Ran(true))
    ensures forall t :: 0 <= t < |w.timers| && w.timers[t].call == c ==> !w.timers[t].state.Pending?
  {
    assert CallOk(w, c);
    forall t: nat | t < |w.timers| && w.timers[t].call == c ensures !w.timers[t].state.Pending? {
      assert TimerOk(w, t);
    }
  }
}
