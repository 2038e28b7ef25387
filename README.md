# rx-service-kit core, modelled in Dafny

rx-service-kit is a TypeScript kit for Node services built on RxJS "epics". This project
models its core and proves properties of the model. The core covers:

- **Retry supervision.** `retryWithBackoff` computes delays and counts failures (module
  `RetryWithBackoff`).
- **Connection registry.** The WebSocket connection registry holds a table of connected
  sockets and a map from paths to epics. Its operations are upgrade accept/reject,
  bind-on-connection, attach, detach in watch mode, client-side close teardown, and server
  shutdown. It also covers `createSocketRegistry`, `getRegistry` and `setupSockets`
  (modules `SocketRegistryState`, `SocketRegistry`, `SetupSockets`).
- **Completion tracker.** `whenCompleted`, `prepareWaitForCompletionFn` and its
  completed-or-timed-out outcome (module `Completion`).
- **Connection adapter.**
  - `actionStreamFromSocket` decodes frames; `binaryStreamFromSocket` passes Buffers through.
  - The `logSocketStats` counters.
  - `pipeStreamIntoSocket` sends items in order and closes the socket exactly once.
  - Modules `SocketFrames` and `PipeIntoSocket`.
- **Action filter.** `ofType` (module `OfType`).
- **Error utilities** (modules `Errors`, `FetchErrors`):
  - `AggregateError`, `InvalidExceptionError`, `ensureError`;
  - `catchSync`, `rethrowSync`;
  - `errorMessageFromFetchResponse`.
- **Small utilities.** `areArraysEqual`, `randomElement`, `envVar` (modules `ArraysEqual`,
  `RandomElement`, `Env`).
- **Logging helpers.**
  - Argument and tag handling of `logEvents` and the tagged logger (modules `LogEvents`,
    `Logger`).
  - The container-friendly log entry (module `ContainerLogger`).
- **Module-cache removal.** `clearModule` (module `ClearModule`).

JavaScript values share one datatype (`JsValues.Value`), and finite or still-open Rx streams
another (`Streams.Stream`). State that the code mutates in place is a class with `modifies`
clauses: the registry state, the registry, the server's cached registry, the outgoing socket,
the completion tracker's connection, and the module cache and its modules. A throwing call is
a `Completion` value, either returned or thrown. Foreign calls are function parameters
(oracles): `JSON.parse`, `JSON.stringify`, Joi validation against a caller-supplied schema
(the default action schema is modelled exactly), `util.inspect`, `uuid`, epic
spin-up, the module resolver, `Math.random`, and the socket's ready state and send callback.
Close codes follow section 7.4.1 of RFC 6455: 1000 is a normal closure and 1011 an internal
error. Code 1012 (service restart) is from the IANA WebSocket Close Code Number registry of
section 11.7 of RFC 6455.

## Model

| member | source | states |
|---|---|---|
| RetryWithBackoff.DefaultShouldRetry | src/shared/retryWithBackoff.ts:35-46 | the default `shouldRetry` accepts every failure |
| RetryWithBackoff.ResolveOpts | src/shared/retryWithBackoff.ts:35-46 | every given option overrides its default; the defaults are resetErrorsOnNext true, 5000, 1000, 1, 3600000 and "process" |
| RetryWithBackoff.DefaultsResolved | src/shared/retryWithBackoff.ts:35-46 | resolving no options yields exactly the default options |
| RetryWithBackoff.TimeBeforeNextRetry | src/shared/retryWithBackoff.ts:25-32 | the delay is at least `minWaitTime`; the first failure waits `minWaitTime + waitTimeOnFirstError`; any other count waits at most `minWaitTime + maxWaitTime` |
| RetryWithBackoff.BackoffNondecreasing | src/shared/retryWithBackoff.ts:25-32 | from the second failure on, a larger failure count never gives a shorter delay |
| RetryWithBackoff.DefaultDelays | src/shared/retryWithBackoff.ts:25-46 | with the defaults, the first failure waits 1001 ms and the second 10001 ms |
| RetryWithBackoff.RecursiveObserve | src/shared/retryWithBackoff.ts:61-93 | subscriptions never exceed the runs offered; at least one happens exactly when a run exists; at most one failure is reported per subscription |
| RetryWithBackoff.ObservedItems | src/shared/retryWithBackoff.ts:61-93 | downstream receives exactly the values of the subscribed runs, in subscription order |
| RetryWithBackoff.FailureIsRunFailure | src/shared/retryWithBackoff.ts:76-91 | the k-th reported failure carries the original error of the k-th run; a failure followed by another subscription was accepted by `shouldRetry` |
| RetryWithBackoff.CompletionIsForwarded | src/shared/retryWithBackoff.ts:61-93 | a completed outcome comes from the last subscribed run, and every earlier run failed and was retried |
| RetryWithBackoff.GivingUpForwardsError | src/shared/retryWithBackoff.ts:86-91 | giving up forwards the original error that `shouldRetry` refused, from the last subscription, with no resubscription |
| RetryWithBackoff.RetryWithBackoff | src/shared/retryWithBackoff.ts:95 | the operator, with the options resolved, subscribes to the source at least once |
| RetryWithBackoff.AsStream | src/shared/retryWithBackoff.ts:61-93 | the output stream carries the supervised values; it completes exactly on completion and fails exactly on giving up |
| RetryWithBackoff.LastEmittingRun | src/shared/retryWithBackoff.ts:65-75 | finds the last run at or before k that emitted, and says that no later run up to k emitted |
| RetryWithBackoff.FailureCounts | src/shared/retryWithBackoff.ts:65-84 | every reported failure count agrees with an independent count (consecutive failures since the last emitting run, or all failures without reset), and so does its delay |
| RetryWithBackoff.FailureAfterEmissionCountsAsFirst | src/shared/retryWithBackoff.ts:65-84 | with `resetErrorsOnNext`, a failure after an emission in the same subscription is failure 1 and waits the first-error delay |
| RetryWithBackoff.ConsecutiveFailuresIncrement | src/shared/retryWithBackoff.ts:78-84 | a failure with no emission since the previous failure has the previous count plus one |
| RetryWithBackoff.NoResetCountsEveryFailure | src/shared/retryWithBackoff.ts:66-84 | without `resetErrorsOnNext`, the k-th failure has count k + 1 whatever was emitted |
| RetryWithBackoff.ErrorFreeSourceForwarded | src/__tests__/retryWithBackoff.test.ts:12-42 | a source that does not fail is subscribed once and forwarded unchanged, completion included, with no failure reported |
| RetryWithBackoff.TwoFailuresInARow | src/__tests__/retryWithBackoff.test.ts:105-132 | after emit-then-fail and a fail without emission, the delays are 1001 ms and 10001 ms and the third run's completion is forwarded |
| RetryWithBackoff.FailuresAfterSuccessfulRetries | src/__tests__/retryWithBackoff.test.ts:82-103 | when each failing run emitted first, every failure is failure 1 and waits 1001 ms |
| Completion.WhenCompleted | src/shared/whenCompleted.ts:3-16 | completion becomes one `'completed'` and then completion; an error is forwarded with no value; an open source produces nothing |
| Completion.WhenCompletedForwardsNoValue | src/shared/whenCompleted.ts:3-16 | no source value is forwarded; exactly one `'completed'` appears iff the source completed; termination is passed on |
| Completion.DefaultIfEmpty | src/shared/sockets/prepareWaitForCompletionFn.ts:13 | a stream that completes without emitting emits the default; any other stream is unchanged |
| Completion.DefaultIfEmptyRedundant | src/shared/sockets/prepareWaitForCompletionFn.ts:12-13 | after `whenCompleted`, `defaultIfEmpty('completed')` changes nothing |
| Completion.PromiseOf | src/shared/sockets/prepareWaitForCompletionFn.ts:23 | a failed stream rejects with its error; a completed one resolves with its last value |
| Completion.CompletionTracker.constructor | src/shared/sockets/prepareWaitForCompletionFn.ts:6-16 | a tracker holds its work and timeout and is not yet connected |
| Completion.CompletionTracker.Connect | src/shared/sockets/prepareWaitForCompletionFn.ts:19 | the first `connect()` starts tracking at the current time; later calls change nothing |
| Completion.CompletionTracker.EndTime | src/shared/sockets/prepareWaitForCompletionFn.ts:10-16 | tracked work ends exactly when it was connected and terminates, at connection time plus its duration |
| Completion.CompletionTracker.WaitForCompletion | src/shared/sockets/prepareWaitForCompletionFn.ts:20-24 | a wait settles between its start and its deadline; a timeout settles at the deadline; any other outcome needs terminated work |
| Completion.CompletionTracker.CompletesWithinTimeout | src/shared/sockets/prepareWaitForCompletionFn.ts:10-24 | work that completes before the deadline resolves the wait with `'completed'` at completion time |
| Completion.CompletionTracker.TimesOut | src/shared/sockets/prepareWaitForCompletionFn.ts:20-24 | work that does not terminate by the deadline resolves the wait with `'timed-out'` at the deadline |
| Completion.CompletionTracker.ReplaysCompletion | src/shared/sockets/prepareWaitForCompletionFn.ts:10-16 | a wait started after completion gets the replayed `'completed'` at once |
| Completion.CompletionTracker.ErrorRejects | src/shared/sockets/prepareWaitForCompletionFn.ts:10-24 | an error in the tracked work before the deadline rejects the wait with that error |
| Completion.CompletionTracker.NothingTrackedBeforeConnect | src/shared/sockets/prepareWaitForCompletionFn.ts:19-24 | before `connect()`, every wait times out at its deadline |
| SocketRegistryState.RemoveKey | src/shared/sockets/socketRegistryState.ts:81 | deleting a key from the table's key order removes exactly that key; duplicate-freedom is kept; an absent key changes nothing |
| SocketRegistryState.Entries | src/shared/sockets/socketRegistryState.ts:170 | the snapshot `[...state.sockets.values()]` lists the record of each key in insertion order |
| SocketRegistryState.CloseSocketCore | src/shared/sockets/socketRegistryState.ts:141-144 | `closingByKit` is set and the close code recorded; nothing else in the record changes |
| SocketRegistryState.CloseAll | src/shared/sockets/socketRegistryState.ts:174-176 | every record of the table is closed by the kit with the code; the key set is unchanged |
| SocketRegistryState.DetachEntry | src/shared/sockets/socketRegistryState.ts:28-51 | a record without subscription is unchanged; otherwise subscription and wait are dropped and the identity fields kept; the socket is closed with 1012 exactly under the `'disconnect'` policy |
| SocketRegistryState.SubOf | src/shared/sockets/socketRegistryState.ts:78-80 | a record contributes its subscription to the cancellation log exactly when it holds one |
| SocketRegistryState.FirstRejection | src/shared/sockets/socketRegistryState.ts:158-167 | the chained wait resolves iff no record's wait rejects; otherwise it rejects with the error of some record's rejecting wait |
| SocketRegistryState.FirstRejectionAt | src/shared/sockets/socketRegistryState.ts:158-167 | the first rejecting wait in snapshot order decides the error of the chain |
| SocketRegistryState.WaitForAllToComplete | src/shared/sockets/socketRegistryState.ts:158-167 | the loop awaiting each wait in order settles as the chain does: resolved, or rejected by the first rejecting wait |
| SocketRegistryState.SocketRegistryState.constructor | src/shared/sockets/socketRegistry.ts:16-20 | a fresh state has the given path map, no socket and no cancelled subscription |
| SocketRegistryState.SocketRegistryState.AddSocket | src/shared/sockets/socketRegistryState.ts:123-139 | the record is stored under its id, replacing an existing entry, with its close handler registered; a new id is appended to the key order; the result reports a replacement |
| SocketRegistryState.SocketRegistryState.AttachToSocket | src/shared/sockets/socketRegistryState.ts:53-70 | an unknown id changes nothing; a known one gets subscription, wait and policy, and every other field is unchanged |
| SocketRegistryState.SocketRegistryState.DetachFromSocketInWatchMode | src/shared/sockets/socketRegistryState.ts:28-51 | an unknown id changes nothing; otherwise the entry becomes its detached form, and a held subscription is cancelled |
| SocketRegistryState.SocketRegistryState.Teardown | src/shared/sockets/socketRegistryState.ts:72-82 | an unknown id changes nothing; otherwise the subscription, if any, is cancelled and the entry removed from table and order |
| SocketRegistryState.SocketRegistryState.WaitForCompletionThenTeardown | src/shared/sockets/socketRegistryState.ts:84-95 | the teardown runs whether the wait resolves or rejects; an error is logged exactly on rejection |
| SocketRegistryState.SocketRegistryState.ClientSideCloseHandler | src/shared/sockets/socketRegistryState.ts:97-121 | an unknown id or a socket closed by the kit leaves the state unchanged; otherwise the entry is torn down, after its wait when it has one |
| SocketRegistryState.SocketRegistryState.CloseSocket | src/shared/sockets/socketRegistryState.ts:146-156 | an unknown id is ignored; a known entry is closed by the kit with the code |
| SocketRegistryState.SocketRegistryState.CloseEverySocket | src/shared/sockets/socketRegistryState.ts:174-176 | every entry is closed by the kit with the code; key order and subscriptions are unchanged |
| SocketRegistryState.SocketRegistryState.ReleaseSnapshot | src/shared/sockets/socketRegistryState.ts:182-187 | the snapshot's subscriptions are cancelled in snapshot order and every entry removed, leaving the table empty |
| SocketRegistryState.SocketRegistryState.OnServerClose | src/shared/sockets/socketRegistryState.ts:169-188 | every socket is closed with 1012 and the waits are awaited in table order; a rejection stops before cleanup; otherwise the snapshot's subscriptions are cancelled and the table emptied |
| SocketRegistry.PolicyOf | src/shared/sockets/buildOnConnectionListener.ts:41 | the epic's own detach policy, `'disconnect'` when it has none |
| SocketRegistry.Bind | src/shared/sockets/buildOnConnectionListener.ts:13-43 | no url or no pathname leaves the record alone; a path without epic closes it with 1000; otherwise subscription, wait and the epic's policy are attached; identity is kept |
| SocketRegistry.ConnectionEffect | src/shared/sockets/buildOnConnectionListener.ts:13-43 | the listener changes only the entry of the socket's own id, as `Bind` says, and no key |
| SocketRegistry.InitializeTable | src/shared/sockets/socketRegistry.ts:49-55 | re-running the listener over the table keeps its key set |
| SocketRegistry.InitializeBindsEachEntry | src/shared/sockets/socketRegistry.ts:49-55 | after `initialize`, each entry is bound against the new path map with its own request and its new spin-up |
| SocketRegistry.DetachKeysSpec | src/shared/sockets/socketRegistry.ts:56-60 | detaching a duplicate-free run of ids detaches exactly those entries, once each, and keeps the key set |
| SocketRegistry.SocketRegistry.constructor | src/shared/sockets/socketRegistry.ts:11-46 | a new registry has an empty table, the given path map and its upgrade listener attached |
| SocketRegistry.SocketRegistry.OnConnection | src/shared/sockets/socketRegistry.ts:30-35 | the connection listener reads the path map at call time and changes the table as `ConnectionEffect` says |
| SocketRegistry.SocketRegistry.Upgrade | src/shared/sockets/buildServerUpgradeListener.ts:16-53 | no url or an unknown path destroys the transport and adds nothing; a socket or request already carrying an id throws; otherwise one entry with the fresh id, the pathname and `'disconnect'` is added and bound by the connection listener |
| SocketRegistry.SocketRegistry.Initialize | src/shared/sockets/socketRegistry.ts:49-55 | the path map is replaced and every existing entry is re-bound against it; key order and cancellations are unchanged |
| SocketRegistry.SocketRegistry.Deinitialize | src/shared/sockets/socketRegistry.ts:56-60 | every entry is detached in watch mode; the subscriptions held are cancelled in table order; keys are kept |
| SocketRegistry.SocketRegistry.Destroy | src/shared/sockets/socketRegistry.ts:61-65 | the upgrade listener is removed, then server-close teardown runs with the outcome `OnServerClose` states |
| SocketRegistry.Server.constructor | src/shared/sockets/socketRegistry.ts:69-78 | a server starts without a cached registry |
| SocketRegistry.GetRegistry | src/shared/sockets/socketRegistry.ts:69-78 | a cached registry is returned unchanged, ignoring the new path map; otherwise a fresh registry with the given map is created and cached |
| SetupSockets.Pipelines | src/setup/sockets.ts:16-31 | the path map holds the configured paths and, unless defaults are off, the default paths; a configured pipeline overrides a default one |
| SetupSockets.NoPipelines | src/__tests__/setupSockets.test.js:30-39 | without defaults and without configured sockets the path map is empty |
| SetupSockets.DefaultsUnlessFalse | src/setup/sockets.ts:16-20 | only the boolean `false` turns the default pipelines off |
| SetupSockets.Setup | src/setup/sockets.ts:33-35 | the server's registry is fetched or created, then initialised with the merged path map |
| SetupSockets.Teardown | src/setup/sockets.ts:37-43 | mode `'destroy'` destroys the registry; any other mode deinitialises it |
| SocketFrames.StringAndBufferExclusive | src/shared/sockets/helpers.ts:5-11 | no frame is both a string and a Buffer; `isString` holds exactly for text frames and `isBuffer` exactly for Buffers |
| SocketFrames.TryParse | src/shared/sockets/helpers.ts:13-21 | the parsed value when parsing succeeds, `null` when it throws; it never throws |
| SocketFrames.ValidateTypeRequired | src/shared/sockets/actionStreamFromSocket.ts:8-10 | the default schema accepts exactly objects whose `type` is a non-empty string (`Joi.string()` refuses `''`), and returns them unchanged |
| SocketFrames.DefaultSchemaByType | src/shared/sockets/actionStreamFromSocket.ts:12-14 | every type maps to the default schema |
| SocketFrames.DecodeFrame | src/shared/sockets/actionStreamFromSocket.ts:24-48 | a frame yields an output exactly when it is a string whose text parses to an object with a `type`, the lookup has a schema for that type and the value validates; the output is the validated value |
| SocketFrames.UnparseableTextDropped | src/shared/sockets/actionStreamFromSocket.ts:26-29 | text that does not parse is dropped |
| SocketFrames.UnvalidatedDropped | src/shared/sockets/actionStreamFromSocket.ts:36-46 | a type with no schema, or a value that fails validation, is dropped |
| SocketFrames.DefaultSchemaDecoding | src/shared/sockets/actionStreamFromSocket.ts:8-48 | with the default schema, a text frame yields its parsed value exactly when that is an object whose `type` is a non-empty string |
| SocketFrames.DecodeAll | src/shared/sockets/actionStreamFromSocket.ts:16-51 | there are at most as many actions as string frames |
| SocketFrames.DecodeAllAppend | src/shared/sockets/actionStreamFromSocket.ts:16-51 | decoding works frame by frame, so outputs follow input order |
| SocketFrames.DecodeAllIgnoresBinary | src/shared/sockets/actionStreamFromSocket.ts:24 | removing the non-string frames changes no output |
| SocketFrames.DefaultActionsHaveType | src/shared/sockets/actionStreamFromSocket.ts:8-48 | every action from the default decoder is an object whose `type` is a non-empty string |
| SocketFrames.ActionStream | src/shared/sockets/actionStreamFromSocket.ts:16-51 | completion and errors of the frame stream pass through; output is no longer than input |
| SocketFrames.BinaryStream | src/shared/sockets/binaryStreamFromSocket.ts:6-8 | the binary stream is the frame stream filtered by `isBuffer` |
| SocketFrames.BinaryStreamExact | src/shared/sockets/binaryStreamFromSocket.ts:6-8 | exactly the Buffer frames are kept, in order, with no text frame; termination passes through |
| SocketFrames.NumberOfMessages | src/shared/sockets/logSocketStats.ts:13-17 | the counter starts at 0 and takes one more value per string frame, counting up by one |
| SocketFrames.BytesReceived | src/shared/sockets/logSocketStats.ts:19-23 | the running sum starts at 0, takes one value per Buffer frame, never decreases and ends at the total byte length |
| SocketFrames.CurrentStats | src/shared/sockets/logSocketStats.ts:25-30 | the current stats are the number of string frames and the total Buffer byte length |
| SocketFrames.StatsStep | src/shared/sockets/logSocketStats.ts:13-23 | a string frame adds one message and no bytes; a Buffer adds its bytes and no message; other frames change nothing |
| SocketFrames.StatsNondecreasing | src/shared/sockets/logSocketStats.ts:13-30 | both counters only grow as frames arrive |
| PipeIntoSocket.SendOutcome | src/shared/sockets/pipeStreamIntoSocket.ts:10-27 | a socket that is not open rejects with the socket-closed error; an open one rejects with a truthy callback error and resolves otherwise |
| PipeIntoSocket.OutgoingSocket.constructor | src/shared/sockets/pipeStreamIntoSocket.ts:10-27 | a socket with its ready-state and callback oracles, with nothing sent or closed yet |
| PipeIntoSocket.OutgoingSocket.Send | src/shared/sockets/pipeStreamIntoSocket.ts:10-27 | only an open socket is handed the payload, either the Buffer or the JSON text; the outcome is `SendOutcome` of this call |
| PipeIntoSocket.OutgoingSocket.Close | src/shared/sockets/pipeStreamIntoSocket.ts:42-44 | one close call with the code is recorded; nothing else changes |
| PipeIntoSocket.Deliver | src/shared/sockets/pipeStreamIntoSocket.ts:67-77 | sends go in order, one at a time; every send before the failure succeeded; with no failure all items were attempted |
| PipeIntoSocket.SentWire | src/shared/sockets/pipeStreamIntoSocket.ts:10-27 | the wire messages that reach the socket are no more than the items |
| PipeIntoSocket.Payload | src/shared/sockets/pipeStreamIntoSocket.ts:16-22 | a Buffer is sent as a binary message with its own bytes; anything else is sent as a text message holding its JSON encoding |
| PipeIntoSocket.Payloads | src/shared/sockets/pipeStreamIntoSocket.ts:16-22 | one payload per item: Buffers as they are, anything else JSON-encoded |
| PipeIntoSocket.CloseFlag | src/shared/sockets/pipeStreamIntoSocket.ts:58-65 | an absent close option defaults to true; a given one is used as is |
| PipeIntoSocket.OnSendError | src/shared/sockets/pipeStreamIntoSocket.ts:29-40 | a socket-closed error is only warned about; any other error is registered and logged |
| PipeIntoSocket.SubscriberError | src/shared/sockets/pipeStreamIntoSocket.ts:79-86 | the socket-closed error is not reported as an outgoing-stream error; any other error is |
| PipeIntoSocket.SendInOrder | src/shared/sockets/pipeStreamIntoSocket.ts:67-77 | the loop performs exactly `Deliver`'s sends, hands the socket exactly those payloads, closes nothing, and reports the failing item's error |
| PipeIntoSocket.Settle | src/shared/sockets/pipeStreamIntoSocket.ts:79-91 | the stream's end closes the socket as the close policy says and reports a non-socket-closed failure |
| PipeIntoSocket.PipeStreamIntoSocket | src/shared/sockets/pipeStreamIntoSocket.ts:46-93 | the whole pipe: the sends of `Deliver`, their payloads, one close by the policy on the terminal event, and the reports |
| PipeIntoSocket.DeliverStopsAtFailure | src/shared/sockets/pipeStreamIntoSocket.ts:67-77 | once a send fails, no later item is sent |
| PipeIntoSocket.NoFailureSendsEverything | src/shared/sockets/pipeStreamIntoSocket.ts:16-22 | when no send fails, every item's payload reaches the socket, in order |
| PipeIntoSocket.CloseCodes | src/shared/sockets/pipeStreamIntoSocket.ts:79-91 | at most one close happens: 1011 iff failure with `closeOnError`, 1000 iff completion with `closeOnComplete`, none while open |
| PipeIntoSocket.SocketClosedOnlyWarned | src/shared/sockets/pipeStreamIntoSocket.ts:34-39 | a send stopped by the socket-closed error yields only the warning |
| PipeIntoSocket.PipeIntoClosedSocket | src/shared/sockets/pipeStreamIntoSocket.ts:14-25 | piping into a closed socket fails at the first send; nothing is sent, only a warning is logged, and the defaults close with 1011 |
| PipeIntoSocket.CompletedStreamSentWhole | src/shared/sockets/pipeStreamIntoSocket.ts:87-91 | a completed stream whose sends all succeed is sent whole; nothing is reported and the defaults close with 1000 |
| OfType.IsOfType | src/shared/ofType.ts:5-10 | true iff the action's `type` property is the given string |
| OfType.OfType | src/shared/ofType.ts:12-17 | termination passes through; the output is no longer than the input and has only actions of the type |
| OfType.OfTypeKeepsExactlyTheType | src/shared/ofType.ts:12-17 | an action is emitted iff the source emitted it and it has the type |
| OfType.OfTypeInOrder | src/shared/ofType.ts:12-17 | filtering distributes over concatenated emissions, so order is kept |
| OfType.OfTypeKeepsMatchingStream | src/shared/ofType.ts:12-17 | a stream of only matching actions passes unchanged |
| OfType.OfTypeDropsOtherTypes | src/shared/ofType.ts:12-17 | a stream with no matching action emits nothing and ends as the source does |
| OfType.OfTypeIdempotent | src/shared/ofType.ts:12-17 | applying `ofType` twice is applying it once |
| FetchErrors.SimpleMessage | src/shared/errors/errorMessageFromFetchResponse.ts:17-26 | status 0 or a non-number gives "Request failed"; otherwise "HTTP <status>", plus ": <statusText>" exactly when it is a non-empty string |
| FetchErrors.ErrorMessageFromJson | src/shared/errors/errorMessageFromFetchResponse.ts:28-36 | non-empty exactly for a non-null object whose `message` is a non-empty string, and then that message |
| FetchErrors.JsonResult | src/shared/errors/errorMessageFromFetchResponse.ts:48-53 | the parsed body, or `null` when `json()` rejected |
| FetchErrors.ErrorMessageFromFetchResponse | src/shared/errors/errorMessageFromFetchResponse.ts:38-61 | ok gives "Ok"; a non-JSON type, or no usable message, gives the simple message; otherwise simple message, ", ", message |
| FetchErrors.FailureExtendsSimpleMessage | src/shared/errors/errorMessageFromFetchResponse.ts:43-60 | a failure's message starts with the simple message and differs from it only by a ", <message>" suffix |
| FetchErrors.NoStatusRequestFailed | src/shared/errors/__tests__/errorMessageFromFetchResponse.test.ts:64-82 | a zero or non-numeric status gives "Request failed" whatever the status text |
| FetchErrors.UnusableBodyAddsNothing | src/shared/errors/__tests__/errorMessageFromFetchResponse.test.ts:84-137 | a JSON body that rejects, or is null, a number or a string, adds nothing |
| FetchErrors.NotFoundMessages | src/shared/errors/__tests__/errorMessageFromFetchResponse.test.ts:23-62 | the test suite's 404 responses give "HTTP 404: <text>", "HTTP 404, <message>" and "HTTP 404: <text>, <message>" |
| Errors.InnerErrorsToMessage | src/shared/errors/aggregateError.ts:1-9 | empty exactly when there are no inner errors; otherwise it ends with a line break, after the rendering of all but the last error |
| Errors.InnerErrorsInOrder | src/shared/errors/aggregateError.ts:1-9 | the inner-error text is the concatenation of one line block per error, in argument order |
| Errors.OneLineInnerError | src/shared/errors/aggregateError.ts:3-7 | a one-line inner error contributes pad, its trimmed text, and a line break |
| Errors.MultiLineInnerError | src/shared/errors/aggregateError.ts:7 | only the first line break of an inner error is re-indented |
| Errors.Description | src/shared/errors/aggregateError.ts:19-26 | the description is "AggregateError: ", the message, then the inner lines |
| Errors.NewAggregateError | src/shared/errors/aggregateError.ts:11-28 | name "AggregateError", the message (or ""), the inner errors in order, and the description with its leading line break always present |
| Errors.AggregateToString | src/shared/errors/__tests__/aggregateError.test.ts:14-22 | `toString()` is "AggregateError: <message>" |
| Errors.OneInnerError | src/shared/errors/__tests__/aggregateError.test.ts:14-28 | one single-line inner error gives the header line and one indented line |
| Errors.PlainInnerText | src/shared/errors/aggregateError.ts:6 | a plain Error's text is "Error: <message>" |
| Errors.SingleInnerDescription | src/shared/errors/__tests__/aggregateError.test.ts:23-27 | the test's single inner Error is rendered "    Error: <message>" on its own line |
| Errors.TwoInnerErrors | src/shared/errors/aggregateError.ts:1-9 | two inner errors give their two blocks in order |
| Errors.AggregateInnerText | src/shared/errors/aggregateError.ts:4-5 | a nested AggregateError contributes its trimmed description |
| Errors.NestedAggregateText | src/shared/errors/aggregateError.ts:4-7 | a nested aggregate with one inner Error gives a header line and an indented line |
| Errors.NestedInnerDescription | src/shared/errors/__tests__/aggregateError.test.ts:30-47 | the nested case of the test suite: the nested inner error is indented twice |
| Errors.NewInvalidExceptionError | src/shared/errors/invalidExceptionError.ts:1-9 | name "InvalidExceptionError", an Error kind carrying the original value, message "A non-Error was thrown (<String(original)>)" |
| Errors.InvalidExceptionMessageReadsBack | src/shared/errors/invalidExceptionError.ts:1-9 | the stringified original sits between the opening text and the closing parenthesis, so it can be read back from the message |
| Errors.InvalidExceptionMessages | src/shared/errors/__tests__/ensureError.test.ts:6-17 | the messages for undefined, a string and an object |
| Errors.EnsureError | src/shared/errors/ensureError.ts:3-11 | an Error is returned itself; anything else, falsy or not, is wrapped in an InvalidExceptionError |
| Errors.EnsureErrorIdempotent | src/shared/errors/ensureError.ts:3-11 | ensuring an ensured error changes nothing |
| Errors.EnsureErrorCases | src/shared/errors/__tests__/ensureError.test.ts:20-36 | falsy values and non-Errors are wrapped; Errors and subclasses (an AggregateError) are returned as they are |
| Errors.CatchSync | src/shared/errors/catchSync.ts:5-25 | `error` is null iff `fn` returned, with its result; on a throw the result is null and the error is the ensured error, wrapped in an AggregateError when a non-empty message is given |
| Errors.CatchSyncOverride | src/shared/errors/__tests__/catchSync.test.ts:75-94 | the override message wraps the thrown Error in an AggregateError with that message |
| Errors.RethrowInfo.Rethrow | src/shared/errors/rethrowSync.ts:14 | `rethrow()` makes an AggregateError with the original message and the error inside |
| Errors.RethrowInfo.WithMessage | src/shared/errors/rethrowSync.ts:15 | `withMessage(msg)` makes an AggregateError with `msg` and the error inside |
| Errors.RethrowSync | src/shared/errors/rethrowSync.ts:5-24 | a returned value passes through; on a throw, `throwError` sees the ensured error; a truthy error it returns is thrown, else the ensured error |
| Errors.RethrowWithMessage | src/shared/errors/__tests__/rethrowSync.test.ts:15-24 | throwing `withMessage(...)` throws the AggregateError with that message |
| Errors.RethrowPassesValues | src/shared/errors/__tests__/rethrowSync.test.ts:5-13 | a non-throwing function's value is returned whatever `throwError` would do |
| ArraysEqual.AreArraysEqual | src/shared/utils/arraysEqual.ts:1-6 | two absent arrays are equal; one absent and one present are not; two arrays are equal iff same length and elementwise equal |
| ArraysEqual.Every | src/shared/utils/arraysEqual.ts:6 | the `every` scan holds iff all positions from the start index agree |
| ArraysEqual.EqualIffSame | src/shared/utils/arraysEqual.ts:1-6 | the comparison is value equality of the optional arrays |
| ArraysEqual.ReflexiveSymmetric | src/shared/utils/arraysEqual.ts:1-6 | the relation is reflexive and symmetric |
| RandomElement.PickIndex | src/shared/utils/randomElement.ts:5 | the floor of random times length is a valid index |
| RandomElement.RandomElement | src/shared/utils/randomElement.ts:1-6 | throws a TypeError "Empty choice set" iff the array is empty, and otherwise returns one of its elements |
| RandomElement.RandomElementExcluding | src/shared/utils/randomElement.ts:8-11 | the choice is an input outside the excluded set; the call throws iff every input is excluded, with the `TypeError` of `randomElement` |
| Env.EnvVar | src/shared/env.ts:19-30 | a set, non-empty variable's value; else the default when given, even an empty one; else the error "<name> environment variable is not set" |
| Env.EmptyIsUnset | src/shared/env.ts:21 | an empty variable behaves exactly like an unset one |
| Env.OnlyNameMatters | src/shared/env.ts:19-30 | other variables play no part |
| LogEvents.IsTagNotification | src/shared/logging/logEvents.ts:35-39 | every notification except `'audit'` is a tag; observables in the `on` list are tags too |
| LogEvents.TagsFromLogOn | src/shared/logging/logEvents.ts:47-49 | exactly the entries other than `'audit'` are kept |
| LogEvents.TagsInOrder | src/shared/logging/logEvents.ts:47-49 | the entries keep their order |
| LogEvents.Dedupe | src/shared/logging/logEvents.ts:53 | the Set keeps each value once, no others, in order of first occurrence |
| LogEvents.DedupeDistinct | src/shared/logging/logEvents.ts:53 | a sequence without repetitions is its own deduplication |
| LogEvents.LogOnFromParam | src/shared/logging/logEvents.ts:51-59 | no option gives the five default notifications; an array keeps exactly its entries, with the names deduplicated |
| LogEvents.LogOnShape | src/shared/logging/logEvents.ts:51-55 | names come once each, in first-occurrence order, ahead of every observable, and the observables keep their order |
| LogEvents.DistinctNamesKept | src/shared/logging/logEvents.ts:51-55 | a list of distinct names with no observable is used as given |
| LogEvents.AuditChoice | src/shared/logging/logEvents.ts:178-190 | the audit logger is chosen iff `'audit'` or an observable is in the option, and never for the default |
| LogEvents.LogEventsParams | src/shared/logging/logEvents.ts:152-164 | a string becomes `prefix` with the default logger; an object's fields, `logger` included, override the default |
| LogEvents.MergedParams | src/shared/logging/logEvents.ts:65-68 | the notification's own option object overrides the base options key by key |
| LogEvents.MergeWithoutOverride | src/shared/logging/logEvents.ts:65-68 | without such an object the base options are used unchanged |
| LogEvents.SimpleLog | src/shared/logging/logEvents.ts:61-101 | prefix, `(notification)` and tags lead the line, then the value for `next`, the error for `error`, nothing for other notifications, then the suffix; `error` goes to the error level and nothing else does |
| LogEvents.AuditLog | src/shared/logging/logEvents.ts:103-148 | an audit notification without a last value logs nothing; every other notification logs at log level: prefix and tags, then `last-observed:` and the last value for audit and unsubscribe, the value for `next`, the error for `error`, nothing for others, then the suffix |
| LogEvents.NotificationPrefixOverrides | src/shared/logging/logEvents.ts:65-75 | a per-notification prefix replaces the base prefix on that notification's line |
| LogEvents.SimpleNextLine | src/shared/logging/logEvents.ts:71-84 | a `next` line is prefix, `(next)`, tags, value, suffix |
| LogEvents.TaggedLogEvents.Params | src/shared/logging/logEvents.ts:214-220 | a call's tags are its own tags followed by the factory's; the other parameters are kept |
| LogEvents.TaggedLogEvents.WithTags | src/shared/logging/logEvents.ts:221-223 | the extra tags follow the factory's own, with the same logger |
| LogEvents.CreateTaggedLogEvents | src/shared/logging/logEvents.ts:227-232 | the factory carries the given tags and logger |
| LogEvents.WithTagsAccumulates | src/shared/logging/logEvents.ts:208-225 | successive `withTags` calls append in call order, and a call's own tags come first |
| LogEvents.PrefixCallTags | src/shared/logging/logEvents.ts:214-220 | a plain prefix brings no tags; only the factory's remain, with its logger |
| Logger.LeadingBlank | src/shared/logging/logger.ts:51 | greedy `\s*`: the index of the first non-whitespace character |
| Logger.LineEnd | src/shared/logging/logger.ts:51 | greedy `[^\n]*`: the next line feed or the end |
| Logger.DotStar | src/shared/logging/logger.ts:51 | greedy `(.*)`: the longest prefix without a line terminator |
| Logger.SplitAsWritten | src/shared/logging/logger.ts:45-60 | a non-blank text's first part runs to the first line feed after its first non-blank character; the second part is always empty |
| Logger.SplitFirstLineAndBody | src/shared/logging/logger.ts:45-60 | the first part is a prefix of the text (the whole text when it is blank), and the body is always empty |
| Logger.InjectAt | src/shared/logging/logger.ts:65-72 | the first argument that is not a blank string, or none when all are blank strings |
| Logger.TagsInjectionPoint | src/shared/logging/logger.ts:62-91 | with no non-blank argument everything goes before the tags; otherwise the arguments before the first non-blank one stay in front, those after it stay behind, and only that one argument is split or moved |
| Logger.AppendTags | src/shared/logging/logger.ts:93-96 | the arguments before the injection point, then the tags, then those after |
| Logger.TagsAfterBlankArguments | src/shared/logging/logger.ts:74-76 | all-blank arguments get the tags after them |
| Logger.TagsBeforeNonString | src/shared/logging/logger.ts:90 | a non-string injection argument gets the tags right before it |
| Logger.TagsAfterFirstLine | src/shared/logging/logger.ts:82-88 | a string injection argument keeps its first line before the tags, and empty pieces are omitted |
| Logger.SecondLineDropped | src/shared/logging/logger.ts:51-59 | as written, a two-line message loses its second line when tags are injected |
| Logger.TaggedLogger.Forward | src/shared/logging/logger.ts:113-121 | `log`, `warn` and `error` forward the arguments with the locked tags injected |
| Logger.TaggedLogger.WithTags | src/shared/logging/logger.ts:122-124 | same parent, locked tags followed by the new ones |
| Logger.TaggedLogger.LogEventsFactory | src/shared/logging/logger.ts:125 | the logger's `logEvents` carries its starting tags and logs to the parent |
| Logger.CreateTaggedLogger | src/shared/logging/logger.ts:130-139 | a tagged parent delegates to its `withTags`; a basic parent, or the default, is wrapped with the tags |
| Logger.WithTagsAccumulates | src/shared/logging/logger.ts:122-124 | tags accumulate in call order however the calls are grouped; no tags change nothing |
| Logger.NestedTaggedLogger | src/shared/logging/logger.ts:130-136 | a logger made from a tagged parent forwards to the parent's own parent with both tag lists, the parent's first |
| ContainerLogger.TrimWhitespace | src/shared/logging/containerFriendlyLogger.ts:4-11 | non-strings pass unchanged; a string loses all whitespace at both ends |
| ContainerLogger.TrimWhitespaceIsInnerSlice | src/shared/logging/containerFriendlyLogger.ts:6-8 | the result is a slice of the string with only whitespace cut off its ends |
| ContainerLogger.TrimWhitespaceIdempotent | src/shared/logging/containerFriendlyLogger.ts:4-11 | trimming twice is trimming once |
| ContainerLogger.KeepsInnerWhitespace | src/shared/logging/containerFriendlyLogger.ts:4-11 | a string with no whitespace at its ends is unchanged |
| ContainerLogger.TrimsToEmptyIffBlank | src/shared/logging/containerFriendlyLogger.ts:4-11 | a string trims to empty iff it is all whitespace |
| ContainerLogger.TrimWhitespaceExamples | src/shared/logging/__tests__/containerFriendlyLogger.test.ts:4-14 | the test-suite examples of `trimWhitespace` |
| ContainerLogger.IsNotEmptyOrLineBreak | src/shared/logging/containerFriendlyLogger.ts:13-21 | false only for the empty string |
| ContainerLogger.TransformValue | src/shared/logging/containerFriendlyLogger.ts:23-34 | strings, numbers and booleans pass unchanged; anything else becomes its inspect rendering |
| ContainerLogger.Kept | src/shared/logging/containerFriendlyLogger.ts:39-40 | the kept arguments are no more than the inputs, and none is an empty string or a string with whitespace at an end |
| ContainerLogger.FriendlyEntries | src/shared/logging/containerFriendlyLogger.ts:36-43 | one entry per kept argument, each transformed |
| ContainerLogger.FriendlyLogEntry | src/shared/logging/containerFriendlyLogger.ts:36-43 | arguments that are all blank strings give the JSON encoding of the empty array |
| ContainerLogger.BlankArgumentIgnored | src/shared/logging/containerFriendlyLogger.ts:36-43 | a blank string argument anywhere among the others leaves the entry unchanged |
| ContainerLogger.FriendlyEntriesInOrder | src/shared/logging/containerFriendlyLogger.ts:36-43 | entries are made argument by argument, in order |
| ContainerLogger.OneArgument | src/shared/logging/containerFriendlyLogger.ts:36-43 | an argument is dropped iff it is an all-whitespace string; otherwise it becomes its trimmed, transformed self |
| ContainerLogger.FriendlyEntriesExamples | src/shared/logging/__tests__/containerFriendlyLogger.test.ts:18-50 | the test suite's single-argument entries |
| ContainerLogger.LineBreakArgumentVanishes | src/shared/logging/__tests__/containerFriendlyLogger.test.ts:52-54 | a padded argument followed by a lone line break leaves only the trimmed argument |
| ClearModule.NodeModule.constructor | src/shared/clearModule.ts:33-35 | a module with its id, its parent and no children |
| ClearModule.ModuleCache.constructor | src/shared/clearModule.ts:33 | an empty module cache |
| ClearModule.ModuleCache.ParentOf | src/shared/clearModule.ts:35-38 | the parent of the cached entry for the path, when there is one |
| ClearModule.WithoutId | src/shared/clearModule.ts:40-44 | the children with another id, each kept, and nothing else |
| ClearModule.WithoutIdInOrder | src/shared/clearModule.ts:40-44 | removal works child by child, so the remaining children keep their order |
| ClearModule.WithoutAbsentId | src/shared/clearModule.ts:40-44 | children with other ids are all kept |
| ClearModule.RemoveChildren | src/shared/clearModule.ts:39-44 | the backwards splice loop leaves the parent's children without the path's id, in order |
| ClearModule.ClearModule | src/shared/clearModule.ts:18-49 | a non-string id throws a TypeError and changes nothing; an unresolved path changes nothing; otherwise the entry leaves its parent's children and the cache |

## Left out

- `src/shared/profiler/streams.ts` is not part of this model: it relies on high-resolution clocks, floating-point averages and quantiles.
- RxJS multicasting, subscription plumbing and concurrency are left out. Every wait and every send settles before the next event, so asynchronous interleavings of the registry's promise chains are not modelled.
- Process, CLI and HTTP setup are left out, as are `loadEnv` and the module resolver. The resolver is a parameter of `ClearModule.ClearModule`.
- `JSON.parse`, `JSON.stringify`, Joi validation against a caller-supplied schema, `util.inspect`, `url.parse`, `uuid` and `wss.handleUpgrade` are oracles passed as parameters or as record fields. The default action schema (`type` a required string) is modelled exactly; Joi's other behaviour (type conversion, option handling, the full text of its error details) is not.
- Spinning up a socket epic (`spinUpSocketEpic`) is a parameter that yields a subscription handle and a wait outcome.
- Log output and `registerError` are left out. Where the choice between them matters, they are recorded as report values: in `PipeIntoSocket` and in the logged-error results of the registry.
- `pipeStreamIntoSocket`'s custom `send`, `close`, `onSendError` and `logger` options are left out; only the defaults are modelled.
- Numbers are integers: there are no floats, NaN or negative zero. `Math.random` is a real in [0, 1) passed as a parameter.
- Subscriptions are identities. Cancelling one appends it to a log, and a WebSocket's state is kept by value inside its registry record. Aliasing of one socket object between records is therefore not modelled.
- `errorMessageFromFetchResponse` awaits `catchAsync` around `response.json()`. `catchAsync` is not part of this model; its result is taken as the parsed body, or `null` when `json()` rejects.
- Non-array `tags` and `suffix` options of `logEvents` are left out, and so is the `try`/`catch` around the logging call in `buildSimpleLog` and `buildAuditLog`.
- The operator wiring of `logEvents` is left out: `executeOnNotifications`, the `project` option with `publish`, and the audit trigger observables. Only the parameter handling and the logged arguments are modelled.
- Logger.TaggedLogger.Forward: `log`, `warn` and `error` are not distinguished; all three forward the same arguments.
- `os.EOL` is taken as `"\n"`. The `Clearing` log line of `clearModule` is left out.
- `setupSockets` takes `config.sockets(sharedDeps)` as the path map it resolves to, and passes no logger to `getRegistry`.
- JSON `null` frames: `actionStreamFromSocket.ts:27-29` checks for `null` before `'type' in value` and drops the frame. The model follows that code, and `'type' in null` is never evaluated.
- `splitFirstLineAndBody` is modelled as its regular expression runs (`logger.ts:51`). The third group is always empty, so the text after the first line of an injection argument is dropped (`Logger.SecondLineDropped`).
- `createSocketRegistry`'s `wss` error logging and the `WebSocket.Server` construction are left out.
