// The coroutine scheduler of scheduler.cc: the locked task queue and its critical
// sections.
module Scheduler {
  import opened Bytes

  // A task is a fiber to resume or a callback to run in a fiber of its own. The
  // ticket numbers the calls of schedule; thread is the worker it is pinned to, or -1.
  datatype Job = Resume(fiber: nat) | Callback
  datatype Entry = Entry(ticket: nat, job: Job, thread: int)

  const ANY_THREAD := -1

  // A fiber is ready, running on a worker or ended; what is to wake it is nothing, an
  // event or timer that it has armed, a queue entry, or a worker about to resume it.
  datatype FiberState = Ready | Running(worker: nat) | Ended
  datatype Wake = NoWake | Armed | Queued(ticket: nat) | InHand(worker: nat)
  datatype Fiber = Fiber(state: FiberState, wake: Wake)

  predicate Elsewhere(e: Entry, thread: int) {
    e.thread != ANY_THREAD && e.thread != thread
  }

  // The fiber has been queued again before it could yield.
  predicate StillRunning(e: Entry, fibers: seq<Fiber>) {
    e.job.Resume? && e.job.fiber < |fibers| && fibers[e.job.fiber].state.Running?
  }

  predicate Eligible(e: Entry, thread: int, fibers: seq<Fiber>) {
    !Elsewhere(e, thread) && !StillRunning(e, fibers)
  }

  // What stopping() asks, and what the workers' check of it sees.
  predicate MayStop(stopping: bool, tasks: seq<Entry>, active: nat) {
    stopping && tasks == [] && active == 0
  }

  // The position of the first task that a worker may take, or the length of q.
  function First(q: seq<Entry>, thread: int, fibers: seq<Fiber>): (k: nat)
    ensures k <= |q| && (k < |q| ==> Eligible(q[k], thread, fibers))
    ensures forall j :: 0 <= j < k ==> !Eligible(q[j], thread, fibers)
  {
    if q == [] || Eligible(q[0], thread, fibers) then 0
    else 1 + First(q[1..], thread, fibers)
  }

  function Without(q: seq<Entry>, k: nat): seq<Entry>
    requires k < |q|
  {
    q[..k] + q[k + 1..]
  }

  class TaskQueue {
    var tasks: seq<Entry>
    var active: nat
    var stopping: bool
    var tickets: nat

    constructor ()
      ensures tasks == [] && active == 0 && !stopping && tickets == 0
    {
      tasks, active, stopping, tickets := [], 0, false, 0;
    }

    // scheduleNoLock: a task with neither fiber nor callback is dropped.
    method Schedule(job: Option<Job>, thread: int) returns (needTickle: bool)
      modifies this`tasks, this`tickets
      ensures needTickle <==> old(tasks) == []
      ensures job.None? ==> tasks == old(tasks) && tickets == old(tickets)
      ensures job.Some? ==> tasks == old(tasks) + [Entry(old(tickets), job.value, thread)]
      ensures job.Some? ==> tickets == old(tickets) + 1
    {
      needTickle := tasks == [];
      if job.Some? {
        tasks := tasks + [Entry(tickets, job.value, thread)];
        tickets := tickets + 1;
      }
    }

    // The scan that run makes under the lock: the first eligible task is taken and
    // counted as active, and every task passed over stays queued where it was.
    method Take(thread: int, fibers: seq<Fiber>) returns (task: Option<Entry>, tickleMe: bool)
      modifies this`tasks, this`active
      ensures var (q, k) := (old(tasks), First(old(tasks), thread, fibers));
        && (tickleMe <==> (exists j :: 0 <= j < k && Elsewhere(q[j], thread)) || k + 1 < |q|)
        && (k == |q| ==> task.None? && tasks == q && active == old(active))
        && (k < |q| ==> task == Some(q[k]) && tasks == Without(q, k) && active == old(active) + 1)
    {
      task, tickleMe := None, false;
      var i := 0;
      while i < |tasks|
        invariant 0 <= i <= |tasks| && tasks == old(tasks) && task.None? && active == old(active)
        invariant forall j :: 0 <= j < i ==> !Eligible(tasks[j], thread, fibers)
        invariant tickleMe <==> exists j :: 0 <= j < i && Elsewhere(tasks[j], thread)
      {
        if Elsewhere(tasks[i], thread) {
          i := i + 1;
          tickleMe := true;
          continue;
        }
        if StillRunning(tasks[i], fibers) {
          i := i + 1;
          continue;
        }
        break;
      }
      FirstIs(tasks, thread, fibers, i);
      if i < |tasks| {
        task := Some(tasks[i]);
        tasks := Without(tasks, i);
        active := active + 1;
        tickleMe := tickleMe || i != |tasks|;
      }
    }

    // A true answer is final: Workers.Quiescence.
    method Stopping() returns (r: bool)
      ensures r <==> MayStop(stopping, tasks, active)
    {
      r := stopping && tasks == [] && active == 0;
    }
  }

  lemma {:induction false} FirstIs(q: seq<Entry>, thread: int, fibers: seq<Fiber>, i: nat)
    requires i <= |q| && (i < |q| ==> Eligible(q[i], thread, fibers))
    requires forall j :: 0 <= j < i ==> !Eligible(q[j], thread, fibers)
    ensures First(q, thread, fibers) == i
  {
    hide Eligible;
    if i > 0 {
      FirstIs(q[1..], thread, fibers, i - 1);
    }
  }
}
