// The coroutine of fiber.cc: its states, and the switch between a fiber and the
// fiber that its thread goes back to.
module Fibers {
  import opened Bytes

  datatype State = READY | RUNNING | TERM

  // The thread-local fibers: the one that is current, the thread's own and the one
  // that runs the scheduler.
  class Thread {
    var current: Fiber?
    const main: Fiber
    const scheduler: Fiber

    constructor (main: Fiber, scheduler: Fiber)
      ensures this.main == main && this.scheduler == scheduler && current == main
    {
      this.main, this.scheduler, current := main, scheduler, main;
    }
  }

  // What happens to a fiber: it is resumed, it yields, its callback returns, it is
  // given a new callback.
  datatype Op = Resume | Yield | Finish | Reset

  // None is a failed assertion.
  function Next(s: State, op: Op): Option<State> {
    match (s, op)
    case (READY, Resume) => Some(RUNNING)
    case (RUNNING, Yield) => Some(READY)
    case (RUNNING, Finish) => Some(TERM)
    case (TERM, Reset) => Some(READY)
    case _ => None
  }

  class Fiber {
    const hasStack: bool
    const inScheduler: bool
    var state: State
    var cb: Option<nat>

    constructor (cb: nat, inScheduler: bool)
      ensures state == READY && this.cb == Some(cb) && hasStack && this.inScheduler == inScheduler
    {
      hasStack, this.inScheduler, state, this.cb := true, inScheduler, READY, Some(cb);
    }

    // The fiber whose context resume saves and yield goes back to.
    function Peer(t: Thread): Fiber {
      if inScheduler then t.scheduler else t.main
    }

    method Reset(cb: nat)
      requires hasStack && state == TERM
      modifies this`cb, this`state
      ensures this.cb == Some(cb) && Next(old(state), Op.Reset) == Some(state)
    {
      this.cb, state := Some(cb), READY;
    }

    method Resume(t: Thread)
      requires state != TERM && state != RUNNING
      modifies this`state, t`current
      ensures t.current == this && Next(old(state), Op.Resume) == Some(state)
    {
      t.current, state := this, RUNNING;
    }

    method Yield(t: Thread)
      requires state == RUNNING || state == TERM
      modifies this`state, t`current
      ensures t.current == Peer(t)
      ensures if old(state) == TERM then state == TERM else Next(old(state), Op.Yield) == Some(state)
    {
      t.current := Peer(t);
      if state != TERM {
        state := READY;
      }
    }

    // The end of MainFunc, once the callback has returned.
    method Finish(t: Thread)
      requires state == RUNNING
      modifies this`state, this`cb, t`current
      ensures t.current == Peer(t) && cb.None? && Next(old(state), Op.Finish) == Some(state)
    {
      cb, state := None, TERM;
      Yield(t);
    }
  }

  function After(s: State, ops: seq<Op>): Option<State>
    decreases |ops|
  {
    if ops == [] then Some(s)
    else match Next(s, ops[0])
      case None => None
      case Some(s') => After(s', ops[1..])
  }

  function Count(ops: seq<Op>, op: Op): nat {
    if ops == [] then 0 else (if ops[0] == op then 1 else 0) + Count(ops[1..], op)
  }

  // In the life of a fiber every resume is answered by one yield or by the end of its
  // callback, save for the one that is running, and it has ended once more than it has
  // been given a new callback exactly when it is in state TERM.
  lemma {:induction false} Lifecycle(s: State, ops: seq<Op>)
    requires After(s, ops).Some?
    ensures var e := After(s, ops).value;
      && Count(ops, Resume) + (if s.RUNNING? then 1 else 0)
         == Count(ops, Yield) + Count(ops, Finish) + (if e.RUNNING? then 1 else 0)
      && Count(ops, Finish) + (if s.TERM? then 1 else 0) == Count(ops, Reset) + (if e.TERM? then 1 else 0)
    decreases |ops|
  {
    if ops != [] {
      Lifecycle(Next(s, ops[0]).value, ops[1..]);
    }
  }
}
