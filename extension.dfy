/**
 * How the panel script wires the executor: one executor for the whole panel,
 * a listener that adds `() => handleHttp(args)` for every finished request,
 * and an `each` callback that logs each record.
 */
module Extension {
  import opened Outcomes
  import opened ExecutorModel
  import opened ExecutorProperties
  import opened Http

  /** A task `() => handleHttp(args)`, identified by the arguments it closes over. */
  type Task = seq<Entry>

  type PanelState = ExecState<Task, Record>

  /** What the host does: a request finishes, or the awaited task's body fetch ends. */
  datatype HostEvent = Finished(args: Task) | ContentReady

  /**
   * The value the awaited `handleHttp(args)` settles with. It never rejects:
   * its whole body is one `try` whose `catch` returns a record instead
   * (index.js:62-89).
   */
  function Settle(args: Task): (o: Settlement<Record>)
    ensures o.Fulfilled? && Tagged(o.value)
  {
    Fulfilled(HandleHttp(args))
  }

  /**
   * The `each` callback as written: on a failure record it logs the message
   * and then destructures `data`, which is undefined, and so throws. On a
   * success record it only logs, and `log` is taken never to throw.
   */
  function LogRecord(r: Record): (c: Completion)
    ensures Tagged(r) ==> (c.Returned? <==> r.isSuccess)
  {
    if r.data.None? then Threw(DestructureError) else Returned
  }

  /** The callback as intended: return once the failure is logged. */
  function LogRecordFixed(r: Record): Completion {
    Returned
  }

  /** The executor right after the script has run: the callback is set before any event. */
  function Loaded(cb: Callback<Record>): (s: PanelState)
    ensures Inv(s) && !s.busy && s.callback == Some(cb) && s.delivered == s.resolved
  {
    EachStep(Initial(), Some(cb))
  }

  function HostStep(s: PanelState, h: HostEvent): PanelState {
    match h
    case Finished(args) => AddStep(s, args)
    case ContentReady => if s.inFlight.Some? then ResolveStep(s, Settle(s.inFlight.value)) else s
  }

  function HostRun(s: PanelState, hs: seq<HostEvent>): PanelState
    decreases |hs|
  {
    if hs == [] then s else HostRun(HostStep(s, hs[0]), hs[1..])
  }

  /** The state the intended callback keeps: running or idle, never aborted, all logged. */
  ghost predicate Healthy(s: PanelState) {
    Inv(s) && !Stalled(s) && s.callback == Some(LogRecordFixed) &&
    s.delivered == s.resolved && ResultsFollow(s, HandleHttp)
  }

  lemma HostStepKeepsHealthy(s: PanelState, h: HostEvent)
    requires Healthy(s)
    ensures Healthy(HostStep(s, h))
  {
    match h
    case Finished(args) =>
      StepPreservesInv(s, Add(args));
      if !s.busy { AddWhileIdle(s, args); }
    case ContentReady =>
      if s.inFlight.Some? {
        var e := Resolve(Settle(s.inFlight.value));
        ResolveFulfilled(s, HandleHttp(s.inFlight.value));
        StepPreservesInv(s, e);
        AlignStep(s, e, HandleHttp);
      }
  }

  /**
   * With the intended callback, whatever the host does, the executor never
   * stalls, requests are handled in the order they finished, and the callback
   * receives, in that order, the record of each handled request.
   */
  lemma {:induction false} EveryRequestLoggedInOrder(s: PanelState, hs: seq<HostEvent>)
    requires Healthy(s)
    ensures var r := HostRun(s, hs);
      !Stalled(r) && r.delivered == r.resolved && |r.delivered| <= |r.started| <= |r.submitted| &&
      r.started == r.submitted[..|r.started|] &&
      forall i :: 0 <= i < |r.delivered| ==> r.delivered[i] == HandleHttp(r.submitted[i])
    decreases |hs|
  {
    if hs == [] {
      assert |s.resolved| <= |s.started| <= |s.submitted|;
    } else {
      HostStepKeepsHealthy(s, hs[0]);
      EveryRequestLoggedInOrder(HostStep(s, hs[0]), hs[1..]);
    }
  }

  /** The panel as intended: from load time on, every record is logged in request order. */
  lemma PanelLogsInOrder(hs: seq<HostEvent>)
    ensures var r := HostRun(Loaded(LogRecordFixed), hs);
      !Stalled(r) && |r.delivered| <= |r.submitted| &&
      forall i :: 0 <= i < |r.delivered| ==> r.delivered[i] == HandleHttp(r.submitted[i])
  {
    EveryRequestLoggedInOrder(Loaded(LogRecordFixed), hs);
  }

  /**
   * As written, one failed body fetch stops the panel: after its record
   * reaches the callback the loop is aborted, and no request that finishes
   * later is ever handled.
   */
  lemma FailureRecordStallsPanel(s: PanelState, hs: seq<HostEvent>)
    requires Inv(s) && s.inFlight.Some? && s.callback == Some(LogRecord)
    requires !HandleHttp(s.inFlight.value).isSuccess
    ensures var r := HostRun(HostStep(s, ContentReady), hs);
      Stalled(r) && r.started == s.started && r.unhandled == Some(DestructureError) &&
      r.delivered == s.delivered + [HandleHttp(s.inFlight.value)]
  {
    var v := HandleHttp(s.inFlight.value);
    ResolveFulfilled(s, v);
    HostRunStalled(HostStep(s, ContentReady), hs);
  }

  lemma {:induction false} HostRunStalled(s: PanelState, hs: seq<HostEvent>)
    requires Stalled(s)
    ensures var r := HostRun(s, hs);
      Stalled(r) && r.started == s.started && r.delivered == s.delivered && r.unhandled == s.unhandled
    decreases |hs|
  {
    if hs != [] {
      HostRunStalled(HostStep(s, hs[0]), hs[1..]);
    }
  }

  /**
   * A concrete run of the script as written: a request whose body fetch
   * fails, then a good request. The good one is queued but never handled.
   */
  lemma FailedFetchBlocksNextRequest(bad: Request, good: Request, boom: string, body: string)
    ensures var r := HostRun(Loaded(LogRecord),
                             [Finished([Entry(Some(bad), Failed(boom))]), ContentReady,
                              Finished([Entry(Some(good), Content(body))]), ContentReady]);
      r.busy && r.started == [[Entry(Some(bad), Failed(boom))]] &&
      r.queue == [[Entry(Some(good), Content(body))]] &&
      r.delivered == [Record(false, None, Some(boom))]
  {
    var t1 := [Entry(Some(bad), Failed(boom))];
    var t2 := [Entry(Some(good), Content(body))];
    var hs := [Finished(t1), ContentReady, Finished(t2), ContentReady];
    var s0 := Loaded(LogRecord);
    var s1 := HostStep(s0, hs[0]);
    assert s1.inFlight == Some(t1) && s1.queue == [];
    var s2 := HostStep(s1, hs[1]);
    assert Stalled(s2) && s2.delivered == [Record(false, None, Some(boom))];
    var s3 := HostStep(s2, hs[2]);
    assert s3.queue == [t2];
    var s4 := HostStep(s3, hs[3]);
    assert s4 == s3;
    assert hs[1..][1..][1..][1..] == [];
    assert HostRun(s0, hs) == HostRun(s1, hs[1..]) == HostRun(s2, hs[1..][1..])
        == HostRun(s3, hs[1..][1..][1..]) == HostRun(s4, []);
  }
}
