/**
 * The one-shot completion state shared by a `Task<Result>`, its promise and
 * its awaiters (src/task.h).
 *
 * Every mutex-guarded block of the source is one atomic step here. Coroutine
 * handles are opaque numbers, and resuming a handle appends it to the ghost
 * trace `resumed`.
 */
module Tasks {
  import opened Wrappers

  /** An opaque coroutine handle. */
  type Handle = nat

  /** `TaskState`: the completion flag, the stored result and the handles
      waiting for the result. */
  class TaskState<R> {
    var complete: bool
    var continuations: seq<Handle>
    var result: Option<R>

    /** Every handle whose `await_suspend` registered it, in registration order. */
    ghost var registered: seq<Handle>
    /** Every handle resumed by a completion, in resumption order. */
    ghost var resumed: seq<Handle>

    /** `complete` and `result` are set together; until completion the
        registrations wait in `continuations` and nothing has been resumed;
        from then on each registration has been resumed exactly once, in order. */
    ghost predicate Valid()
      reads this
    {
      && (complete <==> result.Some?)
      && (!complete ==> continuations == registered && resumed == [])
      && (complete ==> continuations == [] && resumed == registered)
    }

    /** A fresh state: not complete, no continuations, no result. */
    constructor ()
      ensures Valid()
      ensures !complete && continuations == [] && result == None
      ensures registered == [] && resumed == []
    {
      complete := false;
      continuations := [];
      result := None;
      registered := [];
      resumed := [];
    }

    /** `promise_type::return_value` (both the copying and the moving
        overload): store the value, mark the state complete and detach the
        continuations in one locked step, then resume each detached handle in
        order. */
    method ReturnValue(value: R)
      requires Valid()
      modifies this
      ensures Valid()
      ensures complete && result == Some(value) && continuations == []
      ensures registered == old(registered)
      ensures resumed == old(resumed) + old(continuations)
    {
      var detached: seq<Handle> := [];
      // Locked block.
      complete := true;
      result := Some(value);
      detached, continuations := continuations, detached;
      // Outside the lock: resume every detached continuation.
      for i := 0 to |detached|
        invariant complete && result == Some(value) && continuations == []
        invariant registered == old(registered)
        invariant resumed == old(resumed) + detached[..i]
      {
        resumed := resumed + [detached[i]];
      }
    }

    /** `task_awaiter::await_ready`: reports whether the state is complete. */
    method AwaitReady() returns (ready: bool)
      requires Valid()
      ensures ready <==> result.Some?
      ensures ready <==> complete
    {
      ready := complete;
    }

    /** `task_awaiter::await_suspend`: on a completed state, declines to
        suspend; otherwise registers `continuation` last and suspends. */
    method AwaitSuspend(continuation: Handle) returns (suspend: bool)
      requires Valid()
      modifies this
      ensures Valid()
      ensures suspend == !old(complete)
      ensures complete == old(complete) && result == old(result) && resumed == old(resumed)
      ensures continuations == if suspend then old(continuations) + [continuation] else old(continuations)
      ensures registered == if suspend then old(registered) + [continuation] else old(registered)
    {
      if complete {
        suspend := false;
      } else {
        continuations := continuations + [continuation];
        registered := registered + [continuation];
        suspend := true;
      }
    }

    /** `task_awaiter::await_resume`: the stored result, which must exist. */
    method AwaitResume() returns (value: R)
      requires Valid()
      requires result.Some?
      ensures Some(value) == result
    {
      value := result.value;
    }
  }

  /** Two coroutines await a task that has not finished, the task then
      returns `value`, and a third coroutine awaits it afterwards: the first
      two are resumed once each, in the order they awaited, the third
      continues without suspending, and all of them read `value`. */
  method AwaitThenComplete<R>(first: Handle, second: Handle, late: Handle, value: R)
    returns (ghost trace: seq<Handle>, lateSuspended: bool, got: R)
    ensures trace == [first, second]
    ensures !lateSuspended
    ensures got == value
  {
    var state := new TaskState<R>();
    var ready := state.AwaitReady();
    assert !ready;
    var s1 := state.AwaitSuspend(first);
    var s2 := state.AwaitSuspend(second);
    state.ReturnValue(value);
    lateSuspended := state.AwaitSuspend(late);
    trace := state.resumed;
    got := state.AwaitResume();
  }
}
