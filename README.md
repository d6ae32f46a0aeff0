# Serial promise executor of a devtools network-logging panel

The panel script listens for finished network requests. For each one it adds
a lazy task `() => handleHttp(args)` to a `PromiseExecutor`. That executor is a
serial queue of lazy promises: `add` pushes a task, and while no drain loop is
active it sets `_isBusy` and calls `execute`. `execute` shifts the head,
awaits it, hands the value to the callback registered with `each`, re-checks
the queue on every pass, and clears `_isBusy` once the queue is empty.
`handleHttp` never throws: it fulfills with a tagged record
(`isSuccess: true` plus the request fields and body, or `isSuccess: false`
plus a message).

The host runs JavaScript on one thread, and the drain loop suspends only at
`await head()`. So the executor is modelled as a state machine driven by three
events:

- `Each(cb)`: `each` stores the callback.
- `Add(t)`: the synchronous part of `add`. When the executor was idle, this
  includes `execute` running up to its first `await`.
- `Resolve(o)`: the awaited task settles. The callback runs, then the loop
  starts the next head or clears the flag.

Files:

- `outcomes.dfy`, module `Outcomes`: `Option`, `Completion` (a call returns or
  throws) and `Settlement` (a promise fulfills or rejects).
- `executor_model.dfy`, module `ExecutorModel`: the state `ExecState`. It holds
  the queue, the flag, the awaited task, the callback and the delivered values.
  It also holds a history (submitted, started and resolved tasks, loop starts,
  the error that rejected `execute`). The module defines the steps, `Run` over
  event sequences, and the invariant `Inv`.
- `executor_properties.dfy`, module `ExecutorProperties`: each step's effect,
  and properties of whole runs (FIFO order, a single drain loop, pick-up of
  tasks added mid-drain, reuse after idle, the permanent stall after an
  exception).
- `executor.dfy`, module `Executor`: the class `PromiseExecutor`. Its fields
  are updated in place, and each method is proved to move `State()` exactly as
  the matching step does. `ThreeTasks` drives the class through the
  three-task scenario.
- `http.dfy`, module `Http`: `HandleHttp` as a function over an abstract body
  fetch outcome.
- `extension.dfy`, module `Extension`: the wiring. It covers the listener, the
  `each` callback as written and as intended, and what each choice means for
  the panel as a whole.

Environment choices, taken as parameters:

- which host event happens next;
- how the body fetch ends (`Fetch`);
- the value a task settles with;
- whether a callback throws (a `Callback` is a function `V -> Completion`).

## Model

| member | source | states |
|---|---|---|
| ExecutorModel.EachStep | index.js:24-26 | `each`: the state with the callback replaced by the given one (None standing for a falsy argument) |
| ExecutorModel.AddStep | index.js:30-42 | `add`: push the task and the submission record; if busy, nothing more; otherwise set the flag, count one loop start and run `ExecuteStep` |
| ExecutorModel.ExecuteStep | index.js:47-54 | `execute` from its loop head: on a non-empty queue, shift the head, record it as started and await it; on an empty queue, clear the flag |
| ExecutorModel.ResolveStep | index.js:49-54 | the awaited task settles: a rejection records the error and leaves the flag set; a value is recorded and passed to the callback if one is set; a throwing callback records its error and leaves the flag set; otherwise `ExecuteStep` |
| ExecutorModel.Initial | index.js:16-22 | the new executor has an empty queue, a clear flag and no task awaited, and it satisfies the invariant |
| Executor.PromiseExecutor.constructor | index.js:16-22 | the constructed object's state is the initial state, and it satisfies the invariant |
| Executor.PromiseExecutor.Each | index.js:24-26 | the callback is replaced and every other field keeps its value; the invariant is kept |
| Executor.PromiseExecutor.Add | index.js:30-42 | the new state is ExecutorModel's `add` step of the old one (push; return if busy; otherwise set the flag and run `execute`); the invariant is kept |
| Executor.PromiseExecutor.Execute | index.js:47-54 | one pass of the loop head: when the queue is non-empty, the head is shifted, recorded as started and awaited; otherwise the flag is cleared |
| Executor.PromiseExecutor.Resolve | index.js:49-54 | the new state is the resolve step: a rejection or a throwing callback aborts `execute` with the flag still set; otherwise the value goes to the callback, if one is set, and the loop re-checks the queue |
| Executor.ThreeTasks | index.js:30-55 | tasks added back to back reach the callback in submission order, and the executor ends idle |
| ExecutorProperties.StepPreservesInv | index.js:21-54 | every event keeps the invariant: idle means nothing queued or awaited; tasks start in submission order; at most one started task lacks a result; the flag is set only while a task is awaited or after a loop aborted |
| ExecutorProperties.AddAppendsAtTail | index.js:31-48 | whatever the flag, the task ends up at the tail: the old queue plus the task equals the tasks started by this call followed by the new queue |
| ExecutorProperties.AddWhileBusy | index.js:33-35 | `add` on a busy executor only enqueues: the awaited task, the started tasks, the results and the loop count are unchanged |
| ExecutorProperties.AddWhileIdle | index.js:37-49 | `add` on an idle executor sets the flag, starts one new loop, and invokes the added task at once, leaving the queue empty |
| ExecutorProperties.ResolveFulfilled | index.js:47-54 | a fulfilled value is recorded and passed exactly once to the callback, if one is set. Next, either the queue head starts, or the flag is cleared when the queue is empty, or the loop aborts when the callback throws |
| ExecutorProperties.ResolveRejected | index.js:49-54 | a rejected task aborts the loop: the flag stays set, nothing is awaited, and the queue is untouched |
| ExecutorProperties.EachReplacesCallback | index.js:24-26 | `each` replaces the callback and changes nothing else |
| ExecutorProperties.BusyClearsOnlyWhenEmpty | index.js:47-54 | the flag is cleared only when the awaited task fulfills, its callback returns, and the queue is then empty |
| ExecutorProperties.StartsOnlyAfterCallback | index.js:37-51 | an event starts at most one task: either `add` on an idle executor, or right after the awaited task's value was delivered and its callback returned |
| ExecutorProperties.RunPreservesInv | index.js:15-56 | the invariant holds after any sequence of events |
| ExecutorProperties.HistoryOnlyGrows | index.js:31-50 | nothing is withdrawn or reordered: the submitted, started, resolved and delivered sequences only grow at their ends |
| ExecutorProperties.SerialFromStart | index.js:15-56 | from a new executor, after any events: tasks start in submission order, at most one is unsettled, and the awaited task is the last one started |
| ExecutorProperties.CallbackSeesEveryResult | index.js:50 | while a callback stays registered, the delivered values are exactly the results, in order |
| ExecutorProperties.DeliveryInSubmissionOrder | index.js:24-51 | when `each` comes first and is never given a falsy value, the values delivered are exactly the recorded results, in order, and the tasks started so far are, in order, a prefix of those added |
| ExecutorProperties.AlignStep | index.js:47-51 | if the awaited task fulfills with `f` of itself, every event keeps each recorded result equal to `f` of the task it belongs to |
| ExecutorProperties.ResultsFollowRun | index.js:47-51 | after any run in which every awaited task fulfills with `f` of itself, the invariant holds and each result is `f` of its own task |
| ExecutorProperties.DeliveredValuesFollowTasks | index.js:24-51 | when `each` comes first and is never given a falsy value, and every task fulfills with `f` of itself, the i-th value delivered is `f` of the i-th task added |
| ExecutorProperties.AddsWhileBusy | index.js:33-35 | any number of `add`s while busy start no loop and no task; they only extend the queue |
| ExecutorProperties.SingleDrainLoop | index.js:33-41 | `add`s made from idle before anything settles start exactly one drain loop, which awaits the first task |
| ExecutorProperties.DrainsToIdle | index.js:47-54 | a running loop given one value per remaining task, with callbacks that return, starts every queued task in order. It delivers every value and ends idle without starting another loop |
| ExecutorProperties.AddedMidDrainArePickedUp | index.js:33-47 | tasks added while a task is awaited run in the same loop, after those already queued |
| ExecutorProperties.ReusableAfterIdle | index.js:33-54 | after a full drain, the next `add` starts a fresh loop and invokes its task |
| ExecutorProperties.StalledForever | index.js:33-54 | after a loop aborts, no task ever starts and nothing is delivered again; the flag stays set, and everything added later waits in the queue |
| ExecutorProperties.ThreeTasksInOrder | index.js:30-55 | three tasks added before any settles are delivered in submission order by one loop, which ends idle |
| Http.HandleHttp | index.js:61-90 | the result is tagged. It is a success exactly when the argument destructures and the body fetch succeeds, and then `method`, `queryString`, `url` and the body are copied. Otherwise it is a failure carrying the thrown error's message |
| Extension.Settle | index.js:61-98 | the task the listener adds always fulfills, and with a tagged record |
| Extension.LogRecord | index.js:101-109 | the `each` callback as written: on the two shapes `handleHttp` returns, it returns exactly on a success record and throws on every failure record. This assumes `log` and `error` never throw |
| Extension.LogRecordFixed | index.js:101-109 | the callback as intended: it logs and returns on every record, including a failure record |
| Extension.HostStep | index.js:93-98 | one host event: a finished request adds the task for its arguments; when the awaited body fetch ends, that task settles with `handleHttp` of its own arguments |
| Extension.HostRun | index.js:93-98 | the executor after a sequence of host events, first event first |
| Extension.Loaded | index.js:58-101 | once the script has run, the executor is idle with the callback registered and nothing delivered |
| Extension.HostStepKeepsHealthy | index.js:93-109 | with the intended callback, every host event keeps the executor un-stalled, and each result is the record of its own request |
| Extension.EveryRequestLoggedInOrder | index.js:93-109 | with the intended callback, whatever the host does, the executor never stalls, and the i-th record delivered is `handleHttp` of the i-th finished request |
| Extension.PanelLogsInOrder | index.js:58-109 | from load time on, with the intended callback, every record is logged in request order and the panel never stalls |
| Extension.FailureRecordStallsPanel | index.js:101-109 | as written, the callback throws on a failure record; the loop aborts and no later request is ever handled |
| Extension.HostRunStalled | index.js:33-54 | once stalled, no host event starts a task or delivers a value |
| Extension.FailedFetchBlocksNextRequest | index.js:60-109 | as written, a request whose body fetch fails, followed by a good request: the good one stays queued and is never handled |

## Left out

- `log` and `error` (index.js:3-11) are host I/O: they send generated code to the background page. The lines the callback would print are not modelled; only whether the callback returns or throws is. Both are taken never to throw, so the callback as written returns on every success record.
- Callbacks are taken not to re-enter the executor. A callback is a function from a value to "returns" or "throws", so it cannot call `add` or `each`. In the source it runs inside `execute` (index.js:50), before the emptiness check (index.js:47). A task it added to an empty queue would therefore be picked up by the same loop. The model can only express that `add` as a later `Add` event, which clears the flag first and starts a second loop. `SingleDrainLoop` and `AddedMidDrainArePickedUp` say nothing about such re-entrant use.
- A failed body fetch is taken to throw a non-nullish value. If it threw `null` or `undefined`, `err.stack` would itself throw inside the `catch` (index.js:87), and `handleHttp`'s promise would reject. `Extension.Settle` assumes it always fulfills. The executor model covers such a rejection (`ResolveRejected`: the loop aborts), but the panel lemmas do not produce one.
- The listener registration with the devtools network API (index.js:93-99) is modelled only by its effect: each finished request is an `Add` of its arguments. The callback-to-promise wrapping of `getContent` (index.js:73) is replaced by the abstract outcome `Fetch`.
- A `getContent` that never calls back leaves its task unsettled forever. In the model, this is a run with no more `ContentReady` events.
- Promise and microtask scheduling are replaced by the explicit event interleaving `Each` / `Add` / `Resolve`.
- A task that throws synchronously, before returning a promise, is modelled exactly like one that rejects. Both end `execute` the same way; only the timing differs.
- `_callback` being truthy but not a function is not modelled; a callback is either set (`Some`) or falsy (`None`).
- The message text `err.stack || err.toString()` (index.js:87) is an opaque string. The TypeError text of a failed destructuring is the placeholder `Http.DestructureError`.
- No integer widths are involved: the queue length is unbounded, as a JavaScript array's is, up to memory.

## Findings

| source | as written | input that shows it | evidently intended | confidence | as-written member | corrected member |
|---|---|---|---|---|---|---|
| index.js:101-109 | on a failure record the `each` callback calls `error(message)` and then destructures `data`, which is undefined, so it throws; `execute` aborts before index.js:54, `_isBusy` stays set and no later request is ever logged | a finished request whose body fetch fails (for example, `getContent` throwing), followed by any other request | return after logging the failure, so the loop keeps draining | high, not executed | Extension.FailedFetchBlocksNextRequest | Extension.EveryRequestLoggedInOrder |

The corrected callback is `Extension.LogRecordFixed`, and `Extension.PanelLogsInOrder` uses it. `Extension.LogRecord` keeps the callback as written.
