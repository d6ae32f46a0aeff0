/**
 * `PromiseExecutor` as a class whose fields the methods update in place.
 * Each method is proved to move the object exactly as the matching step of
 * ExecutorModel moves its state, so every property proved there holds of it.
 */
module Executor {
  import opened Outcomes
  import opened ExecutorModel
  import ExecutorProperties

  class PromiseExecutor<T, !V> {
    var queue: seq<T>                   // `_queue`
    var busy: bool                      // `_isBusy`
    var inFlight: Option<T>             // the task `execute` is awaiting
    var callback: Option<Callback<V>>   // `_callback`
    var delivered: seq<V>               // the values the callback was called with, in order

    // history, kept to state order
    ghost var submitted: seq<T>
    ghost var started: seq<T>
    ghost var resolved: seq<V>
    ghost var loopStarts: nat
    ghost var unhandled: Option<string>

    ghost function State(): ExecState<T, V>
      reads this
    {
      ExecState(queue, busy, inFlight, callback, delivered, submitted, started, resolved, loopStarts, unhandled)
    }

    ghost predicate Valid()
      reads this
    {
      Inv(State())
    }

    /** `new PromiseExecutor`: an empty queue and a clear flag. */
    constructor ()
      ensures Valid() && State() == Initial()
    {
      queue, busy, inFlight, callback := [], false, None, None;
      delivered, submitted, started, resolved, loopStarts, unhandled := [], [], [], [], 0, None;
    }

    /** `each(callback)`: store the callback, replacing any earlier one. */
    method Each(cb: Option<Callback<V>>)
      requires Valid()
      modifies this
      ensures Valid() && State() == EachStep(old(State()), cb)
    {
      callback := cb;
    }

    /** `add(lazyPromise)`: enqueue, and start a drain loop unless one is active. */
    method Add(t: T)
      requires Valid()
      modifies this
      ensures Valid() && State() == AddStep(old(State()), t)
    {
      ExecutorProperties.StepPreservesInv(State(), Event.Add(t));
      queue := queue + [t];
      submitted := submitted + [t];
      if busy {
        return;
      }
      busy := true;
      loopStarts := loopStarts + 1;
      Execute();
    }

    /**
     * `execute` from its loop head: re-check the queue; shift and invoke the
     * head and suspend at `await`, or clear the flag when the queue is empty.
     */
    method Execute()
      modifies this
      ensures State() == ExecuteStep(old(State()))
    {
      if queue != [] {
        var head := queue[0];
        queue := queue[1..];
        started := started + [head];
        inFlight := Some(head);
      } else {
        busy := false;
      }
    }

    /**
     * The awaited task settles: on a value, call the callback if set and go
     * back to the loop head; a rejection or a throwing callback ends `execute`
     * with its promise rejected, before the flag is cleared.
     */
    method Resolve(o: Settlement<V>)
      requires Valid() && inFlight.Some?
      modifies this
      ensures Valid() && State() == ResolveStep(old(State()), o)
    {
      ExecutorProperties.StepPreservesInv(State(), Event.Resolve(o));
      inFlight := None;
      match o {
        case Rejected(e) =>
          unhandled := Some(e);
        case Fulfilled(v) =>
          resolved := resolved + [v];
          if callback.Some? {
            delivered := delivered + [v];
            var c := callback.value(v);
            if c.Threw? {
              unhandled := Some(c.error);
              return;
            }
          }
          Execute();
      }
    }
  }

  /**
   * Three tasks added before any settles: the callback sees their values in
   * submission order, and the executor ends idle after one drain loop.
   */
  method ThreeTasks<T, V>(cb: Callback<V>, t1: T, t2: T, t3: T, a: V, b: V, c: V)
    returns (seen: seq<V>, idle: bool)
    requires cb(a).Returned? && cb(b).Returned? && cb(c).Returned?
    ensures seen == [a, b, c] && idle
  {
    var ex := new PromiseExecutor<T, V>();
    ex.Each(Some(cb));
    ex.Add(t1);
    ex.Add(t2);
    ex.Add(t3);
    assert ex.inFlight == Some(t1) && ex.queue == [t2, t3];
    ex.Resolve(Fulfilled(a));
    ex.Resolve(Fulfilled(b));
    ex.Resolve(Fulfilled(c));
    assert ex.loopStarts == 1;
    seen, idle := ex.delivered, !ex.busy;
  }
}
