/** What the executor promises, proved about the state machine of ExecutorModel. */
module ExecutorProperties {
  import opened Outcomes
  import opened ExecutorModel

  // ---- one event at a time ----

  lemma StepPreservesInv<T, V>(s: ExecState<T, V>, e: Event<T, V>)
    requires Inv(s)
    ensures Inv(Step(s, e))
  {
  }

  /** `add` puts the task at the tail of the queue, whether or not it then starts it at once. */
  lemma AddAppendsAtTail<T, V>(s: ExecState<T, V>, t: T)
    ensures var r := AddStep(s, t);
      r.submitted == s.submitted + [t] && r.busy &&
      |s.started| <= |r.started| && r.started[..|s.started|] == s.started &&
      s.queue + [t] == r.started[|s.started|..] + r.queue
  {
  }

  /** `add` on a busy executor only enqueues: no task starts and no loop is started. */
  lemma AddWhileBusy<T, V>(s: ExecState<T, V>, t: T)
    requires s.busy
    ensures var r := AddStep(s, t);
      r.queue == s.queue + [t] && r.busy && r.inFlight == s.inFlight &&
      r.started == s.started && r.resolved == s.resolved && r.delivered == s.delivered &&
      r.loopStarts == s.loopStarts && r.unhandled == s.unhandled
  {
  }

  /** `add` on an idle executor starts a drain loop that invokes the new task at once. */
  lemma AddWhileIdle<T, V>(s: ExecState<T, V>, t: T)
    requires Inv(s) && !s.busy
    ensures var r := AddStep(s, t);
      r.busy && r.inFlight == Some(t) && r.queue == [] && !Stalled(r) &&
      r.started == s.started + [t] && r.loopStarts == s.loopStarts + 1
  {
  }

  /**
   * A fulfilled task: its value is recorded, passed once to the callback if
   * one is set, and then either the next head starts, or the flag is cleared
   * (queue empty), or, when the callback throws, the loop is aborted.
   */
  lemma ResolveFulfilled<T, V>(s: ExecState<T, V>, v: V)
    requires Inv(s) && s.inFlight.Some?
    ensures var r := ResolveStep(s, Fulfilled(v));
      r.resolved == s.resolved + [v] &&
      r.delivered == s.delivered + (if s.callback.Some? then [v] else []) &&
      r.callback == s.callback && r.loopStarts == s.loopStarts
    ensures var r := ResolveStep(s, Fulfilled(v));
      Proceeds(s.callback, v) && s.queue == [] ==>
        !r.busy && r.inFlight.None? && r.queue == [] && r.started == s.started
    ensures var r := ResolveStep(s, Fulfilled(v));
      Proceeds(s.callback, v) && s.queue != [] ==>
        r.busy && r.inFlight == Some(s.queue[0]) && r.queue == s.queue[1..] &&
        r.started == s.started + [s.queue[0]] && r.unhandled.None?
    ensures var r := ResolveStep(s, Fulfilled(v));
      !Proceeds(s.callback, v) ==>
        Stalled(r) && r.queue == s.queue && r.started == s.started &&
        r.unhandled == Some(s.callback.value(v).error)
  {
  }

  /** A rejected task aborts the loop: the flag stays set and nothing else starts. */
  lemma ResolveRejected<T, V>(s: ExecState<T, V>, e: string)
    requires Inv(s) && s.inFlight.Some?
    ensures var r := ResolveStep(s, Rejected(e));
      Stalled(r) && r.unhandled == Some(e) && r.queue == s.queue && r.started == s.started &&
      r.resolved == s.resolved && r.delivered == s.delivered
  {
  }

  /** `each` replaces the callback and changes nothing else. */
  lemma EachReplacesCallback<T, V>(s: ExecState<T, V>, cb: Option<Callback<V>>)
    ensures var r := EachStep(s, cb);
      r.callback == cb && r.(callback := s.callback) == s
  {
  }

  /** The flag is cleared only by a loop that finds the queue empty after a callback returned. */
  lemma BusyClearsOnlyWhenEmpty<T, V>(s: ExecState<T, V>, e: Event<T, V>)
    requires Inv(s) && s.busy && !Step(s, e).busy
    ensures s.queue == [] && s.inFlight.Some? && e.Resolve? && e.outcome.Fulfilled?
    ensures Proceeds(s.callback, e.outcome.value)
  {
  }

  /**
   * An event starts at most one task, and only in two ways: `add` on an idle
   * executor, or the awaited task fulfilling and its callback (if any)
   * having been called with its value and returned.
   */
  lemma StartsOnlyAfterCallback<T, V>(s: ExecState<T, V>, e: Event<T, V>)
    requires Inv(s) && |Step(s, e).started| > |s.started|
    ensures |Step(s, e).started| == |s.started| + 1
    ensures (e.Add? && !s.busy) ||
            (e.Resolve? && e.outcome.Fulfilled? && s.inFlight.Some? &&
             Proceeds(s.callback, e.outcome.value) &&
             Step(s, e).resolved == s.resolved + [e.outcome.value] &&
             (s.callback.Some? ==> Step(s, e).delivered == s.delivered + [e.outcome.value]))
  {
  }

  // ---- sequences of events ----

  lemma RunCons<T, V>(s: ExecState<T, V>, e: Event<T, V>, es: seq<Event<T, V>>)
    ensures Run(s, [e] + es) == Run(Step(s, e), es)
  {
  }

  lemma {:induction false} RunConcat<T, V>(s: ExecState<T, V>, a: seq<Event<T, V>>, b: seq<Event<T, V>>)
    ensures Run(s, a + b) == Run(Run(s, a), b)
    decreases |a|
  {
    if a == [] {
      assert a + b == b;
    } else {
      assert a + b == [a[0]] + (a[1..] + b);
      RunCons(s, a[0], a[1..] + b);
      RunConcat(Step(s, a[0]), a[1..], b);
    }
  }

  lemma {:induction false} RunPreservesInv<T, V>(s: ExecState<T, V>, es: seq<Event<T, V>>)
    requires Inv(s)
    ensures Inv(Run(s, es))
    decreases |es|
  {
    if es != [] {
      StepPreservesInv(s, es[0]);
      RunPreservesInv(Step(s, es[0]), es[1..]);
    }
  }

  /** Nothing is ever withdrawn or reordered: every history only grows at its end. */
  lemma {:induction false} HistoryOnlyGrows<T, V>(s: ExecState<T, V>, es: seq<Event<T, V>>)
    ensures var r := Run(s, es);
      s.submitted <= r.submitted && s.started <= r.started &&
      s.resolved <= r.resolved && s.delivered <= r.delivered && s.loopStarts <= r.loopStarts
    decreases |es|
  {
    if es != [] {
      HistoryOnlyGrows(Step(s, es[0]), es[1..]);
    }
  }

  /**
   * From the initial state, whatever the events: tasks start in submission
   * order, at most one started task has no result yet, and the flag is set
   * exactly while a task is awaited or a loop was aborted.
   */
  lemma SerialFromStart<T, V>(es: seq<Event<T, V>>)
    ensures var r := Run(Initial(), es);
      |r.started| <= |r.submitted| && r.started == r.submitted[..|r.started|] &&
      |r.resolved| <= |r.started| <= |r.resolved| + 1 &&
      (r.busy <==> r.inFlight.Some? || r.unhandled.Some?) &&
      (r.inFlight.Some? ==> |r.started| > 0 && r.inFlight.value == r.submitted[|r.started| - 1])
  {
    RunPreservesInv(Initial(), es);
  }

  /** While a callback stays registered, every fulfilled value reaches it, in order. */
  lemma {:induction false} CallbackSeesEveryResult<T, V>(s: ExecState<T, V>, es: seq<Event<T, V>>)
    requires s.callback.Some? && s.delivered == s.resolved
    requires forall i :: 0 <= i < |es| ==> KeepsCallback(es[i])
    ensures Run(s, es).callback.Some? && Run(s, es).delivered == Run(s, es).resolved
    decreases |es|
  {
    if es != [] {
      assert KeepsCallback(es[0]);
      CallbackSeesEveryResult(Step(s, es[0]), es[1..]);
    }
  }

  /**
   * FIFO delivery: when `each` is called before anything else and never with a
   * falsy value, the callback receives exactly the results of the tasks, the
   * i-th value being the result of the i-th task passed to `add`.
   */
  lemma DeliveryInSubmissionOrder<T, V>(cb: Callback<V>, es: seq<Event<T, V>>)
    requires forall i :: 0 <= i < |es| ==> KeepsCallback(es[i])
    ensures var r := Run(Initial(), [Each(Some(cb))] + es);
      r.delivered == r.resolved && |r.delivered| <= |r.started| <= |r.submitted| &&
      r.started == r.submitted[..|r.started|]
  {
    var s1 := EachStep(Initial<T, V>(), Some(cb));
    RunConcat(Initial(), [Each(Some(cb))], es);
    assert Run(Initial(), [Each(Some(cb))]) == s1;
    CallbackSeesEveryResult(s1, es);
    RunPreservesInv(s1, es);
  }

  /**
   * When each awaited task fulfills with `f` of that task, every recorded
   * result stays paired with the task it came from.
   */
  lemma AlignStep<T, V>(s: ExecState<T, V>, e: Event<T, V>, f: T -> V)
    requires Inv(s) && ResultsFollow(s, f) && SettlesWith(s, e, f)
    ensures ResultsFollow(Step(s, e), f)
  {
    var r := Step(s, e);
    if e.Resolve? && e.outcome.Fulfilled? && s.inFlight.Some? {
      ResolveFulfilled(s, e.outcome.value);
      assert r.started[..|s.started|] == s.started;
      forall i | 0 <= i < |r.resolved|
        ensures r.resolved[i] == f(r.started[i])
      {
        if i < |s.resolved| {
          assert r.resolved[i] == s.resolved[i] && r.started[i] == s.started[i];
        } else {
          assert r.started[i] == Last(s.started) == s.inFlight.value;
        }
      }
    }
  }

  /** The pairing of results with tasks holds after any run whose tasks fulfill with `f`. */
  lemma {:induction false} ResultsFollowRun<T, V>(s: ExecState<T, V>, es: seq<Event<T, V>>, f: T -> V)
    requires Inv(s) && ResultsFollow(s, f) && SettlesWithThroughout(s, es, f)
    ensures Inv(Run(s, es)) && ResultsFollow(Run(s, es), f)
    decreases |es|
  {
    if es != [] {
      StepPreservesInv(s, es[0]);
      AlignStep(s, es[0], f);
      ResultsFollowRun(Step(s, es[0]), es[1..], f);
    }
  }

  /**
   * FIFO pairing: from a new executor with the callback registered first and
   * never cleared, if each task fulfills with `f` of itself, the i-th value
   * the callback receives is `f` of the i-th task passed to `add`.
   */
  lemma DeliveredValuesFollowTasks<T, V>(cb: Callback<V>, es: seq<Event<T, V>>, f: T -> V)
    requires forall i :: 0 <= i < |es| ==> KeepsCallback(es[i])
    requires SettlesWithThroughout(EachStep(Initial(), Some(cb)), es, f)
    ensures var r := Run(Initial(), [Each(Some(cb))] + es);
      |r.delivered| <= |r.submitted| &&
      forall i :: 0 <= i < |r.delivered| ==> r.delivered[i] == f(r.submitted[i])
  {
    var s1 := EachStep(Initial<T, V>(), Some(cb));
    RunConcat(Initial(), [Each(Some(cb))], es);
    assert Run(Initial(), [Each(Some(cb))]) == s1;
    DeliveryInSubmissionOrder(cb, es);
    ResultsFollowRun(s1, es, f);
  }

  /** `add` calls made while busy start no second loop; from idle they start exactly one. */
  lemma {:induction false} AddsWhileBusy<T, V>(s: ExecState<T, V>, ts: seq<T>)
    requires s.busy
    ensures var r := Run(s, Adds(ts));
      r.queue == s.queue + ts && r.submitted == s.submitted + ts && r.busy &&
      r.inFlight == s.inFlight && r.callback == s.callback && r.started == s.started &&
      r.resolved == s.resolved && r.delivered == s.delivered &&
      r.loopStarts == s.loopStarts && r.unhandled == s.unhandled
    decreases |ts|
  {
    if ts == [] {
      assert s.queue + ts == s.queue && s.submitted + ts == s.submitted;
    } else {
      assert Adds<T, V>(ts) == [Add(ts[0])] + Adds(ts[1..]);
      RunCons(s, Add(ts[0]), Adds(ts[1..]));
      AddsWhileBusy(AddStep(s, ts[0]), ts[1..]);
      assert s.queue + [ts[0]] + ts[1..] == s.queue + ts;
      assert s.submitted + [ts[0]] + ts[1..] == s.submitted + ts;
    }
  }

  lemma SingleDrainLoop<T, V>(s: ExecState<T, V>, ts: seq<T>)
    requires Inv(s) && !s.busy && ts != []
    ensures var r := Run(s, Adds(ts));
      r.loopStarts == s.loopStarts + 1 && r.busy && r.inFlight == Some(ts[0]) &&
      r.queue == ts[1..] && r.started == s.started + [ts[0]] && r.submitted == s.submitted + ts &&
      r.callback == s.callback && r.resolved == s.resolved && r.delivered == s.delivered
  {
    assert Adds<T, V>(ts) == [Add(ts[0])] + Adds(ts[1..]);
    RunCons(s, Add(ts[0]), Adds(ts[1..]));
    var s1 := AddStep(s, ts[0]);
    AddsWhileBusy(s1, ts[1..]);
    assert s.submitted + [ts[0]] + ts[1..] == s.submitted + ts;
  }

  /**
   * A running loop drains the queue: with one fulfilled value per remaining
   * task and callbacks that return, it starts every queued task in order,
   * delivers every value, and ends idle, in the same loop.
   */
  lemma {:induction false} DrainsToIdle<T, V>(s: ExecState<T, V>, vs: seq<V>)
    requires Inv(s) && s.inFlight.Some? && |vs| == |s.queue| + 1
    requires forall i :: 0 <= i < |vs| ==> Proceeds(s.callback, vs[i])
    ensures var r := Run(s, Fulfills(vs));
      Inv(r) && !r.busy && r.queue == [] && r.inFlight.None? &&
      r.started == s.started + s.queue && r.resolved == s.resolved + vs &&
      r.delivered == s.delivered + (if s.callback.Some? then vs else []) &&
      r.loopStarts == s.loopStarts && r.callback == s.callback
    decreases |vs|
  {
    assert Fulfills<T, V>(vs) == [Resolve(Fulfilled(vs[0]))] + Fulfills(vs[1..]);
    RunCons(s, Resolve(Fulfilled(vs[0])), Fulfills(vs[1..]));
    var s1 := ResolveStep(s, Fulfilled(vs[0]));
    assert Proceeds(s.callback, vs[0]);
    ResolveFulfilled(s, vs[0]);
    StepPreservesInv(s, Resolve(Fulfilled(vs[0])));
    if s.queue == [] {
      assert vs[1..] == [];
      assert vs == [vs[0]];
    } else {
      assert forall i :: 0 <= i < |vs[1..]| ==> Proceeds(s1.callback, vs[1..][i]);
      DrainsToIdle(s1, vs[1..]);
      assert s1.started + s1.queue == s.started + s.queue;
      assert s1.resolved + vs[1..] == s.resolved + vs;
      assert s.callback.Some? ==> s1.delivered + vs[1..] == s.delivered + vs;
    }
  }

  /** Tasks added while a task is awaited are run by the same loop, after the queued ones. */
  lemma AddedMidDrainArePickedUp<T, V>(s: ExecState<T, V>, ts: seq<T>, vs: seq<V>)
    requires Inv(s) && s.inFlight.Some? && |vs| == |s.queue| + |ts| + 1
    requires forall i :: 0 <= i < |vs| ==> Proceeds(s.callback, vs[i])
    ensures var r := Run(s, Adds(ts) + Fulfills(vs));
      !r.busy && r.queue == [] && r.started == s.started + s.queue + ts &&
      r.resolved == s.resolved + vs && r.loopStarts == s.loopStarts
  {
    RunConcat(s, Adds(ts), Fulfills(vs));
    AddsWhileBusy(s, ts);
    var s1 := Run(s, Adds(ts));
    RunPreservesInv(s, Adds(ts));
    DrainsToIdle(s1, vs);
    assert s.started + (s.queue + ts) == s.started + s.queue + ts;
  }

  /** After a full drain the executor is reusable: the next `add` starts a fresh loop. */
  lemma ReusableAfterIdle<T, V>(s: ExecState<T, V>, vs: seq<V>, t: T)
    requires Inv(s) && s.inFlight.Some? && |vs| == |s.queue| + 1
    requires forall i :: 0 <= i < |vs| ==> Proceeds(s.callback, vs[i])
    ensures var r := Run(s, Fulfills(vs) + [Add(t)]);
      r.busy && r.inFlight == Some(t) && r.queue == [] &&
      r.loopStarts == s.loopStarts + 1 && r.started == s.started + s.queue + [t]
  {
    RunConcat(s, Fulfills(vs), [Add(t)]);
    DrainsToIdle(s, vs);
    var s1 := Run(s, Fulfills(vs));
    AddWhileIdle(s1, t);
    assert Run(s1, [Add(t)]) == AddStep(s1, t);
  }

  /**
   * An aborted loop is never restarted: later `add`s only enqueue, no task
   * starts, no value is delivered and the flag stays set, whatever happens.
   */
  lemma {:induction false} StalledForever<T, V>(s: ExecState<T, V>, es: seq<Event<T, V>>)
    requires Stalled(s)
    ensures var r := Run(s, es);
      Stalled(r) && r.started == s.started && r.resolved == s.resolved &&
      r.delivered == s.delivered && r.unhandled == s.unhandled && r.loopStarts == s.loopStarts &&
      |s.submitted| <= |r.submitted| && r.queue == s.queue + r.submitted[|s.submitted|..]
    decreases |es|
  {
    if es != [] {
      var s1 := Step(s, es[0]);
      StalledForever(s1, es[1..]);
      HistoryOnlyGrows(s1, es[1..]);
      var r := Run(s1, es[1..]);
      assert s1.queue == s.queue + s1.submitted[|s.submitted|..];
      assert r.submitted[|s.submitted|..] == s1.submitted[|s.submitted|..] + r.submitted[|s1.submitted|..];
    }
  }

  /**
   * Three tasks added back to back and settling in any order of latency: the
   * callback sees their values in submission order, from one drain loop.
   */
  lemma ThreeTasksInOrder<T, V>(cb: Callback<V>, t1: T, t2: T, t3: T, a: V, b: V, c: V)
    requires cb(a).Returned? && cb(b).Returned? && cb(c).Returned?
    ensures var r := Run(Initial(), [Each(Some(cb)), Add(t1), Add(t2), Add(t3),
                                     Resolve(Fulfilled(a)), Resolve(Fulfilled(b)), Resolve(Fulfilled(c))]);
      r.delivered == [a, b, c] && r.started == [t1, t2, t3] && !r.busy && r.loopStarts == 1
  {
    var s0 := EachStep(Initial<T, V>(), Some(cb));
    var ts := [t1, t2, t3];
    var vs := [a, b, c];
    assert ts[1..] == [t2, t3] && ts[1..][1..] == [t3] && ts[1..][1..][1..] == [];
    assert Adds<T, V>([t3]) == [Add(t3)];
    assert Adds<T, V>([t2, t3]) == [Add(t2)] + Adds([t3]);
    assert Adds<T, V>(ts) == [Add(t1)] + Adds([t2, t3]);
    assert vs[1..] == [b, c] && vs[1..][1..] == [c] && vs[1..][1..][1..] == [];
    assert Fulfills<T, V>([c]) == [Resolve(Fulfilled(c))];
    assert Fulfills<T, V>([b, c]) == [Resolve(Fulfilled(b))] + Fulfills([c]);
    assert Fulfills<T, V>(vs) == [Resolve(Fulfilled(a))] + Fulfills([b, c]);
    assert [Each(Some(cb)), Add(t1), Add(t2), Add(t3),
            Resolve(Fulfilled(a)), Resolve(Fulfilled(b)), Resolve(Fulfilled(c))]
        == [Each(Some(cb))] + (Adds(ts) + Fulfills(vs));
    RunConcat(Initial(), [Each(Some(cb))], Adds(ts) + Fulfills(vs));
    assert Run(Initial(), [Each(Some(cb))]) == s0;
    RunConcat(s0, Adds(ts), Fulfills(vs));
    SingleDrainLoop(s0, ts);
    RunPreservesInv(s0, Adds(ts));
    var s1 := Run(s0, Adds(ts));
    assert s1.queue == [t2, t3];
    DrainsToIdle(s1, vs);
  }
}
