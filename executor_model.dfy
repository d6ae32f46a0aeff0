/**
 * The serial queue of lazy promises (`PromiseExecutor`) as a state machine.
 *
 * The host runs JavaScript on one thread, and the only suspension point of the
 * drain loop is `await head()`. So an executor is a queue, a busy flag and at
 * most one awaited task, driven by three events:
 *   - Each(cb):      `each` stores the callback;
 *   - Add(t):        the synchronous part of `add`, including `execute` running
 *                    up to its first `await` when the executor was idle;
 *   - Resolve(o):    the awaited task settles; the callback runs and the loop
 *                    goes on to the next head, or clears the busy flag.
 * Besides the program's own state, ExecState keeps a history (what was
 * submitted, started, resolved and delivered) against which order is stated.
 */
module ExecutorModel {
  import opened Outcomes

  /** The callback registered with `each`: it returns or throws on a value. */
  type Callback<-V> = V -> Completion

  datatype ExecState<T, !V> = ExecState(
    queue: seq<T>,                 // `_queue`: tasks not yet started, head first
    busy: bool,                    // `_isBusy`
    inFlight: Option<T>,           // the task whose `await head()` is pending
    callback: Option<Callback<V>>, // `_callback` (None: unset or falsy)
    delivered: seq<V>,             // every value passed to the callback, in call order
    submitted: seq<T>,             // every task ever passed to `add`, in call order
    started: seq<T>,               // every task invoked by the drain loop, in invocation order
    resolved: seq<V>,              // the values the started tasks fulfilled with, in order
    loopStarts: nat,               // how many times `add` has called `execute`
    unhandled: Option<string>      // the error that rejected `execute`'s promise, if any
  )

  datatype Event<T, !V> = Each(cb: Option<Callback<V>>) | Add(task: T) | Resolve(outcome: Settlement<V>)

  function Last<X>(s: seq<X>): X
    requires |s| > 0
  {
    s[|s| - 1]
  }

  /** A drain loop was aborted by an exception: the flag stays set, nothing is awaited. */
  predicate Stalled<T, V>(s: ExecState<T, V>) {
    s.busy && s.inFlight.None?
  }

  /** The invariant every reachable state keeps. */
  ghost predicate Inv<T, V>(s: ExecState<T, V>) {
    // idle means nothing queued and nothing awaited
    (!s.busy ==> s.queue == [] && s.inFlight.None? && s.unhandled.None?) &&
    // the flag is set exactly while a loop is awaiting or that loop was aborted
    (s.inFlight.Some? ==> s.busy && s.unhandled.None?) &&
    (Stalled(s) <==> s.unhandled.Some?) &&
    // tasks start in submission order
    s.submitted == s.started + s.queue &&
    // the awaited task is the last one started, and the only one without a result
    (s.inFlight.Some? ==> |s.started| > 0 && s.inFlight.value == Last(s.started)) &&
    |s.resolved| <= |s.started| <= |s.resolved| + 1 &&
    (s.inFlight.Some? ==> |s.started| == |s.resolved| + 1) &&
    (!s.busy ==> |s.started| == |s.resolved|) &&
    |s.delivered| <= |s.resolved| &&
    (s.busy ==> s.loopStarts > 0)
  }

  /** The state `new PromiseExecutor` creates: empty queue, flag clear, no callback. */
  function Initial<T, V>(): (s: ExecState<T, V>)
    ensures Inv(s) && !Stalled(s)
  {
    ExecState([], false, None, None, [], [], [], [], 0, None)
  }

  /** `each(cb)`: the new callback replaces the previous one. */
  function EachStep<T, V>(s: ExecState<T, V>, cb: Option<Callback<V>>): ExecState<T, V> {
    s.(callback := cb)
  }

  /**
   * `execute` from its loop head to its next `await` or to its end: if the
   * queue is empty, clear the flag; otherwise shift the head and invoke it.
   */
  function ExecuteStep<T, V>(s: ExecState<T, V>): ExecState<T, V> {
    if s.queue == [] then
      s.(busy := false)
    else
      s.(queue := s.queue[1..], inFlight := Some(s.queue[0]), started := s.started + [s.queue[0]])
  }

  /** `add(t)`: push; return if busy; otherwise set the flag and call `execute`. */
  function AddStep<T, V>(s: ExecState<T, V>, t: T): ExecState<T, V> {
    var pushed := s.(queue := s.queue + [t], submitted := s.submitted + [t]);
    if s.busy then pushed
    else ExecuteStep(pushed.(busy := true, loopStarts := s.loopStarts + 1))
  }

  /**
   * The awaited task settles. A rejection makes `await` throw, which ends
   * `execute` before the flag is cleared. A value is given to the callback,
   * if one is set; a callback that throws ends `execute` the same way;
   * otherwise the loop goes back to its head.
   */
  function ResolveStep<T, V>(s: ExecState<T, V>, o: Settlement<V>): ExecState<T, V> {
    if s.inFlight.None? then s  // no awaited task: nothing can settle
    else
      match o
      case Rejected(e) => s.(inFlight := None, unhandled := Some(e))
      case Fulfilled(v) =>
        var got := s.(inFlight := None, resolved := s.resolved + [v]);
        match s.callback
        case None => ExecuteStep(got)
        case Some(cb) =>
          var called := got.(delivered := got.delivered + [v]);
          match cb(v)
          case Returned => ExecuteStep(called)
          case Threw(e) => called.(unhandled := Some(e))
  }

  /** The loop goes on after value `v`: no callback is set, or the callback returns. */
  predicate Proceeds<V>(cb: Option<Callback<V>>, v: V) {
    cb.None? || cb.value(v).Returned?
  }

  /** An event that leaves a callback registered (every event but `each` of a falsy value). */
  predicate KeepsCallback<T, V>(e: Event<T, V>) {
    !e.Each? || e.cb.Some?
  }

  /** Every recorded result is `f` of the task it belongs to. */
  ghost predicate ResultsFollow<T, V>(s: ExecState<T, V>, f: T -> V) {
    |s.resolved| <= |s.started| &&
    forall i :: 0 <= i < |s.resolved| ==> s.resolved[i] == f(s.started[i])
  }

  /** If `e` fulfills the awaited task, it does so with `f` of that task. */
  ghost predicate SettlesWith<T, V>(s: ExecState<T, V>, e: Event<T, V>, f: T -> V) {
    e.Resolve? && e.outcome.Fulfilled? && s.inFlight.Some? ==> e.outcome.value == f(s.inFlight.value)
  }

  /** Every event of `es`, taken from the state it meets, fulfills tasks with `f`. */
  ghost predicate SettlesWithThroughout<T, V>(s: ExecState<T, V>, es: seq<Event<T, V>>, f: T -> V)
    decreases |es|
  {
    es == [] || (SettlesWith(s, es[0], f) && SettlesWithThroughout(Step(s, es[0]), es[1..], f))
  }

  function Step<T, V>(s: ExecState<T, V>, e: Event<T, V>): ExecState<T, V> {
    match e
    case Each(cb) => EachStep(s, cb)
    case Add(t) => AddStep(s, t)
    case Resolve(o) => ResolveStep(s, o)
  }

  /** The state after a sequence of events, first event first. */
  function Run<T, V>(s: ExecState<T, V>, es: seq<Event<T, V>>): ExecState<T, V>
    decreases |es|
  {
    if es == [] then s else Run(Step(s, es[0]), es[1..])
  }

  function Adds<T, V>(ts: seq<T>): (es: seq<Event<T, V>>)
    ensures |es| == |ts|
  {
    if ts == [] then [] else [Add(ts[0])] + Adds(ts[1..])
  }

  function Fulfills<T, V>(vs: seq<V>): (es: seq<Event<T, V>>)
    ensures |es| == |vs|
  {
    if vs == [] then [] else [Resolve(Fulfilled(vs[0]))] + Fulfills(vs[1..])
  }
}
