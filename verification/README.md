# Verified model of the node agent

A Dafny model of the node agent's command protocol and model cache, of its workload lifecycle, and of
three smaller cores around it: the reconnect loop, the chat client's event-stream reader and the agent's
env file. `dafny verify dfyconfig.toml` checks everything.

How the parts fit together:

- **Command protocol.** `Protocol` is a step system whose steps are the stretches of
  `CommandDispatcher.handle` between two awaits, cancellations and the ends of executions; result dicts
  are shared by reference, so they live in a heap of their own. `ProtocolInvariant` shows what every step
  keeps, `ProtocolTheorems` what follows for whole runs, `Answers` where every returned row comes from, `Executions` and `SerialDeliveries` how often a
  command is executed, also across restarts, and `Cancellation` what cancelling one delivery does to
  others; `Dispatcher` ties the imperative dispatcher to the steps. `StateStore` is the bounded result table on top of `OrderedDict`
  (a Python dict with its insertion order) and the state file. `Stream`, `Admission`, `StreamClient`,
  `Wire` and `EventBuffer` add the connection: which commands are accepted, the frames of each delivery, the sequence numbers of concurrent
  senders, and the buffered events.
- **Model cache.** `BlobFetch` and `Snapshots` say what the stages of `pull_model` compute; `ModelPuller`
  is the imperative puller, proved equal to them, with a history of every state the disk has been in.
  `ModelDir` proves what every atomic file-system action keeps, so its theorems hold at every crash point;
  `BlobProperties` covers any server and `HonestServer` honest ones (sections 14.2, 14.4 and 15.3.7 of
  RFC 9110). SHA-256 is an arbitrary function; where distinct contents must have distinct digests, the
  theorem says so.
- **Workloads.** `Workloads` and `RuntimeManager` are the lifecycle commands over an abstract container
  runtime that may fail at each call; `WorkloadEffects` says what each does to its container, `NoOrphans` and `Agent` prove what holds over command sequences,
  with `PolicyGuard` deciding what is let through.
- **The rest.** `Reconnect` (the loop of `run_forever`), `Sse` (the readers of `streamChat` and
  `resumeStream`) and `EnvFile` (parser, printer and `configure --set`).

## What the code does not promise

Each of these is a property one might expect.  It is shown false at a concrete input, and a theorem gives
the exact condition under which it holds:

- A command can be executed more than once: when two deliveries overlap at the first progress send
  (`OverlapRunsTwice`), and without overlap after a cancellation, an eviction or a crash
  (`CancellationRunsTwice`, `EvictionRunsTwice`, `CrashRunsTwice`).  `ExecutedOnceIff` is the exact
  condition, `ExecutedAtMostOnce` an order of deliveries that meets it.
- A delivery that joined an execution can leave without a row although nobody cancelled it
  (`JoinerLosesItsRow`), exactly when the execution ends cancelled (`UncancelledWaitersAgree`).
- Sequence numbers can repeat after a crash (`CrashRepeatsANumber`, `RestartContinuesIff`).
- A batch of events whose send raises is lost (`RaisedSendLosesEvent`; `SentAtMostOnceInOrder` accounts
  for every event).
- A partial file of unknown size that is already complete is never published by a server that honours
  Range (`UnknownSizeStalls`).
- Percentages can exceed 100 (`PercentCanExceedHundred`, `WithinHundredIff`).
- A deploy can leave its container unrecorded (`DeployCanOrphan`, `DeployOrphansIff`).
- A successful update and a successful deploy can end with different containers (`UpdateCanDiffer`,
  `UpdateMatchesDeployIff`).
- `reconnect_max_sec` does not cap the first sleep (`ClosedFormIff`).
- A value with a line break inside does not survive the env file (`LineBreakIsLost`, `RoundTripIff`).
- `configure --set` run as root writes the system file, over which an existing user file still wins, and
  unsetting a key has no effect when the other file defines it (`UserFileWins`,
  `ConfigureTakesEffectIff`).
- In `chatClient.ts` the comment at line 238 says that malformed JSON is skipped. The code rethrows every
  error whose message is not "Unexpected end of JSON input", so streamChat stops at most malformed
  payloads (`MalformedParts`) and skips an error payload that happens to carry that message
  (`ErrorPayloadSkipped`); the model follows the code (`ReadersAgreeIff`).

## Model

| member | source | states |
|---|---|---|
| ProtocolTheorems.AtMostOneLiveRun | llm_port_node_agent/llm_port_node_agent/dispatcher.py:128-145 | in every interleaving of deliveries, suspensions, completions and cancellations a command id has at most one unfinished execution; if it has one, `_inflight` holds exactly that execution and the delivery that started it still awaits it |
| ProtocolTheorems.WaitersStayUntilDone | llm_port_node_agent/llm_port_node_agent/dispatcher.py:141-142 | no event other than the end of the execution takes a waiter out of `await`, its own cancellation included |
| ProtocolTheorems.FinallyKeepsLive | llm_port_node_agent/llm_port_node_agent/dispatcher.py:143-145 | a waiter's `finally` never removes the registration of an unfinished execution, its own or another's |
| ProtocolTheorems.QuiescenceEmptiesInflight | llm_port_node_agent/llm_port_node_agent/dispatcher.py:128-145 | once no delivery awaits an execution, `_inflight` is empty and nothing is running: registrations do not leak |
| ProtocolTheorems.StartsIffNoneLive | llm_port_node_agent/llm_port_node_agent/dispatcher.py:128-140 | a dispatched delivery starts an execution if and only if none of its id is unfinished; otherwise it joins exactly that one |
| ProtocolTheorems.JoinedDeliveriesAgree | llm_port_node_agent/llm_port_node_agent/dispatcher.py:72-105 | all deliveries that have returned from one execution returned the same outcome up to the replay mark, and on success share one inner dict |
| Cancellation.UncancelledWaitersAgree | llm_port_node_agent/llm_port_node_agent/dispatcher.py:141-145 | any two deliveries that wait for one finished execution and were never cancelled themselves leave alike, whichever wakes first: with the same outcome, or, exactly when the execution ended cancelled, both without a row |
| Cancellation.LeavesWithRowIff | llm_port_node_agent/llm_port_node_agent/dispatcher.py:141-145 | a waiter of a finished execution leaves with a row if and only if it was not cancelled after the end and the execution did not end cancelled |
| Cancellation.UncancelledWaiterReturnsIff | llm_port_node_agent/llm_port_node_agent/dispatcher.py:141-145 | a delivery that was never cancelled returns a row if and only if its execution did not end cancelled, which takes the cancellation of another waiter |
| Cancellation.RunStoppedIffWaiterCancelled | llm_port_node_agent/llm_port_node_agent/dispatcher.py:141-145 | an execution is asked to stop if and only if some waiter of it is cancelled while it is unfinished, and only then can it end cancelled |
| Cancellation.JoinerLosesItsRow | llm_port_node_agent/llm_port_node_agent/dispatcher.py:141-145 | the input: two deliveries share an execution, the first is cancelled, and the second, never cancelled, leaves without a row |
| ProtocolTheorems.ReturnedRowIsStored | llm_port_node_agent/llm_port_node_agent/dispatcher.py:59-105 | whatever a delivery with an id returns, a result, a refusal, a failure or a replay, is the row stored under its id at that moment |
| ProtocolTheorems.ReplayRunsNothing | llm_port_node_agent/llm_port_node_agent/dispatcher.py:59-64 | a delivery begun while a row is stored starts no execution, registers and writes nothing, returns that row, and changes only the replay mark of that row's dict |
| ProtocolTheorems.ReplaysAreIdentical | llm_port_node_agent/llm_port_node_agent/dispatcher.py:59-64 | replaying again changes nothing more and returns the same row over the same dict |
| ProtocolTheorems.OverlapRunsTwice | llm_port_node_agent/llm_port_node_agent/dispatcher.py:59-68 | "executed at most once ever" is false: two deliveries that are both at the first progress send execute the command twice, one after the other |
| ProtocolTheorems.OverlapArises | llm_port_node_agent/llm_port_node_agent/dispatcher.py:59-68 | the state OverlapRunsTwice starts from is reached from an empty agent by two deliveries of one id |
| Answers.EveryAnswerHasItsReason | llm_port_node_agent/llm_port_node_agent/dispatcher.py:47-105 | in every run each returned row has its origin in one event: the missing id; the row stored when the delivery came in; a refusal, with the guard's message; the raised first progress send, with its exception's text; or the end of the awaited execution, with its outcome; failures refer to a dict made for them |
| Answers.SuccessIsEarned | llm_port_node_agent/llm_port_node_agent/dispatcher.py:59-72 | a delivery answers success only if it replays a row stored when it came in, or an execution of its command was completed with a dict returned |
| Answers.OutcomeIsTheEnding | llm_port_node_agent/llm_port_node_agent/dispatcher.py:147-222 | a finished execution has the outcome its completion gave it: the dict returned, the error raised, or cancelled |
| Answers.RaisedSendAnswers | llm_port_node_agent/llm_port_node_agent/dispatcher.py:87-98 | a progress send that raises starts nothing; the delivery answers, and the table keeps, `internal_error` with the exception's text over a new empty dict |
| Answers.RefusalAnswers | llm_port_node_agent/llm_port_node_agent/dispatcher.py:73-79 | a refusal does the same with `policy_violation` and the guard's message |
| Answers.FailuresStayEmpty | llm_port_node_agent/llm_port_node_agent/dispatcher.py:73-93 | a failure's dict stays empty, but for the replay mark, in every run |
| Answers.CancellationIsFelt | llm_port_node_agent/llm_port_node_agent/dispatcher.py:68-145 | a delivery cancelled before its execution leaves at once and starts nothing; a waiter's cancellation asks the execution to stop, or, after its end, makes the waiter leave without a row |
| Executions.ExecutedOnceIff | llm_port_node_agent/llm_port_node_agent/dispatcher.py:128-142 | a command is executed at most once ever, over any deliveries, cancellations, completions and restarts and from any table, if and only if no delivery gets past line 129 when an execution of its id was started before, by this process or an earlier one, and none is unfinished |
| Executions.SoleDeliveryRunsIff | llm_port_node_agent/llm_port_node_agent/dispatcher.py:59-142 | a delivery that comes while its command is not running executes it if and only if no row is stored, whatever was executed before |
| Executions.CancellationRunsTwice | llm_port_node_agent/llm_port_node_agent/dispatcher.py:141-145 | without any overlap: a cancelled execution stores no row, and the next delivery executes the command again |
| Executions.EvictionRunsTwice | llm_port_node_agent/llm_port_node_agent/state_store.py:112-116 | without any overlap: after 500 refused commands of other ids a command that ended well is executed again |
| Executions.CrashRunsTwice | llm_port_node_agent/llm_port_node_agent/dispatcher.py:95-98 | without any overlap: a crash between the end of an execution and the save, and the next process executes the command again |
| SerialDeliveries.ExecutedAtMostOnce | llm_port_node_agent/llm_port_node_agent/dispatcher.py:45-145 | deliveries may come at any time and any number of times, join the execution in flight and be cancelled before they wait, and the agent may restart: if a dispatched delivery goes on only to join or when it is alone and unstored, no waiter is cancelled, restarts find the rows of everything executed and at most 500 ids are in play, no command is executed twice |
| SerialDeliveries.NoRerun | llm_port_node_agent/llm_port_node_agent/dispatcher.py:128-140 | in each such step the guard lets an execution start only for a command that was never executed |
| SerialDeliveries.GoodStart | llm_port_node_agent/llm_port_node_agent/state_store.py:47-68 | any table with at most 500 ids is a start for it |
| ProtocolInvariant.StepKeepsInv | llm_port_node_agent/llm_port_node_agent/dispatcher.py:45-145 | every step of the protocol keeps the invariant behind these theorems; finished executions, and dicts up to the replay mark, never change |
| ProtocolInvariant.RunKeepsInv | llm_port_node_agent/llm_port_node_agent/dispatcher.py:45-145 | the invariant holds after every sequence of steps |
| ProtocolInvariant.InitIsGood | llm_port_node_agent/llm_port_node_agent/dispatcher.py:25-43 | it holds at the start, over any table an earlier process left behind |
| Dispatcher.CommandDispatcher.constructor | llm_port_node_agent/llm_port_node_agent/dispatcher.py:25-43 | a new dispatcher has nothing in flight and works on the given store |
| Dispatcher.CommandDispatcher.Handle | llm_port_node_agent/llm_port_node_agent/dispatcher.py:47-68 | the stretch up to the first `await` takes the Begin step: reject a missing id, replay a stored row, refuse by policy with the guard's message, or go on to the progress send |
| Dispatcher.CommandDispatcher.GuardedExecute | llm_port_node_agent/llm_port_node_agent/dispatcher.py:128-142 | the stretch after the send takes the Proceed step: start and register an execution, or join the one in flight |
| Dispatcher.CommandDispatcher.ProgressRaised | llm_port_node_agent/llm_port_node_agent/dispatcher.py:87-105 | a progress send that raises makes the command fail with `internal_error`, and that row is stored |
| Dispatcher.CommandDispatcher.AfterTask | llm_port_node_agent/llm_port_node_agent/dispatcher.py:72-145 | the stretch after the awaited execution takes the Wake step: unregister, normalise, store and return, or leave cancelled |
| Dispatcher.CommandDispatcher.EndRun | llm_port_node_agent/llm_port_node_agent/dispatcher.py:147-222 | the execution returns a dict of its own, raises, or stops because it was asked to |
| Dispatcher.CommandDispatcher.CancelDelivery | llm_port_node_agent/llm_port_node_agent/dispatcher.py:68-142 | cancelling a waiter asks the execution it awaits to stop; before that, the delivery itself leaves |
| Dispatcher.CommandDispatcher.Return | llm_port_node_agent/llm_port_node_agent/dispatcher.py:95-105 | the normalised row is stored and handed to the delivery |
| Dispatcher.CommandDispatcher.ReturnFailure | llm_port_node_agent/llm_port_node_agent/dispatcher.py:73-105 | a failure's row has an inner dict of its own, new and empty |
| OrderedDict.BeforeMeaning | llm_port_node_agent/llm_port_node_agent/state_store.py:89-92 | the key order is Python's: the first differing character decides, and a proper prefix comes first |
| OrderedDict.PutMeaning | llm_port_node_agent/llm_port_node_agent/state_store.py:108-110 | writing a key of an insertion-ordered dict sets that key only; a new key goes to the end |
| OrderedDict.PutInPlace | llm_port_node_agent/llm_port_node_agent/state_store.py:108-110 | rewriting a key keeps every key in its position |
| OrderedDict.PopMeaning | llm_port_node_agent/llm_port_node_agent/state_store.py:131-134 | popping a key removes that key only |
| OrderedDict.PopFirst | llm_port_node_agent/llm_port_node_agent/state_store.py:113-116 | popping the first key drops exactly the first row |
| OrderedDict.SortKeepsRows | llm_port_node_agent/llm_port_node_agent/state_store.py:84-93 | `sort_keys` reorders the rows by key and changes nothing else |
| StateStore.RememberMeaning | llm_port_node_agent/llm_port_node_agent/state_store.py:108-117 | remembering leaves at most 500 rows, keeps every surviving row as it was and the written row as given |
| StateStore.RememberKeepsNewRow | llm_port_node_agent/llm_port_node_agent/state_store.py:108-117 | the row just written survives if and only if its position is among the newest 500, which is certain when there were at most 500 rows |
| StateStore.ResultSurvives | llm_port_node_agent/llm_port_node_agent/state_store.py:108-117 | a row survives any later writes as long as the rows after it and the other ids written since are at most 499 different ids |
| StateStore.NewResultSurvives499 | llm_port_node_agent/llm_port_node_agent/state_store.py:108-117 | a result remembered for the first time survives any 499 later ids, however often each is written |
| StateStore.FreshIdsEvictOldest | llm_port_node_agent/llm_port_node_agent/state_store.py:108-117 | under new ids only, the table is exactly the newest 500 of everything written: eviction is first in, first out within one process |
| StateStore.CrashRecovery | llm_port_node_agent/llm_port_node_agent/state_store.py:47-97 | over every sequence of changes, saves that get any distance, crashes and restarts, the state file is the last successfully saved snapshot whole: a restart gets back the node id, the credential, the counter, both modes and the rows of both dicts, sorted by key |
| StateStore.StartsFromNothing | llm_port_node_agent/llm_port_node_agent/state_store.py:47-57 | without a readable state file the agent starts with no identity, no rows, no mode set and the counter at zero |
| StateStore.Store.constructor | llm_port_node_agent/llm_port_node_agent/state_store.py:38-68 | opening the store loads the file, or creates it when there is none; an unreadable file leaves the initial state |
| StateStore.Store.Save | llm_port_node_agent/llm_port_node_agent/state_store.py:70-97 | a save writes the temporary file and then moves it over; each way it can stop leaves the state file untouched |
| StateStore.Store.NextSeq | llm_port_node_agent/llm_port_node_agent/state_store.py:99-102 | the counter goes up by one and is returned |
| StateStore.Store.EvictOldest | llm_port_node_agent/llm_port_node_agent/state_store.py:112-116 | the loop drops exactly the oldest rows beyond 500 |
| StateStore.Store.RememberCommandResult | llm_port_node_agent/llm_port_node_agent/state_store.py:108-117 | the row is written, the oldest rows beyond 500 are dropped, the state is saved |
| StateStore.Store.SetWorkload | llm_port_node_agent/llm_port_node_agent/state_store.py:126-129 | one workload row is set, all others and the rest of the state stay, the state is saved |
| StateStore.Store.DropWorkload | llm_port_node_agent/llm_port_node_agent/state_store.py:131-134 | one workload row is dropped, all others and the rest of the state stay, the state is saved |
| Admission.AcceptedIff | llm_port_node_agent/llm_port_node_agent/stream_client.py:184-234 | in every run, from its first arrival on, a delivery with an id enters the dispatcher or is acknowledged only if its signature is not bad and it is recent or a re-dispatch, and, the frame sent, if and only if; otherwise its frames are for ever exactly one rejection, `signature_invalid` whatever the age, or `command_expired`; the dispatcher knows it under its stripped id |
| Admission.FateIsDecidedOnArrival | llm_port_node_agent/llm_port_node_agent/stream_client.py:184-234 | the same case by case, a blank id and a frame that was not sent included |
| Admission.FramesOnlyGrow | llm_port_node_agent/llm_port_node_agent/stream_client.py:179-256 | frames are only added at the end, and none to a delivery that is dropped, rejected, answered or broken |
| Admission.ProgressIsHeard | llm_port_node_agent/llm_port_node_agent/stream_client.py:236-245 | a running execution's progress is exactly one more frame, for the delivery that started it |
| Admission.FailedSendIsTheEnd | llm_port_node_agent/llm_port_node_agent/stream_client.py:226-256 | a delivery whose own send raises or is cancelled sends nothing more, ever |
| Stream.FramesConform | llm_port_node_agent/llm_port_node_agent/stream_client.py:179-256 | at every moment of every run, with failing sends and cancellations anywhere, a delivery has put on the wire nothing, one rejection, or an acknowledgement, progress frames and at most one result, which is last and carries the row the dispatcher returned to it |
| Stream.EveryDeliveryIsAnswered | llm_port_node_agent/llm_port_node_agent/stream_client.py:179-256 | while sends succeed and nothing is cancelled, a delivery with an id has sent its one rejection or its complete answer of acknowledgement, progress frames and exactly one result, or at most five further steps bring it there |
| Stream.AnswerIsNear | llm_port_node_agent/llm_port_node_agent/stream_client.py:226-256 | from wherever an accepted delivery stands its next steps, at most five from the acknowledgement and four inside `handle`, end with the complete answer on the wire |
| Stream.NothingSetsBack | llm_port_node_agent/llm_port_node_agent/stream_client.py:226-256 | no step of others takes a pending delivery further from its answer, so every interleaving that lets it go on answers it |
| Stream.TaskProgressInStep | llm_port_node_agent/llm_port_node_agent/stream_client.py:236-245 | progress of a running execution goes to the delivery that started it, and never after that delivery's result |
| Stream.ReplaysSayNothing | llm_port_node_agent/llm_port_node_agent/stream_client.py:226-256 | an answer without an execution (replay, policy refusal, failed first send) is an acknowledgement and the result, with no progress frame between |
| Stream.StepInStep | llm_port_node_agent/llm_port_node_agent/stream_client.py:179-256 | every step keeps each delivery's frames in step with its place in the dispatcher |
| Stream.RunInStep | llm_port_node_agent/llm_port_node_agent/stream_client.py:179-256 | and so does every run |
| StreamClient.StreamClient.constructor | llm_port_node_agent/llm_port_node_agent/stream_client.py:37-64 | a new client has seen no delivery |
| StreamClient.StreamClient.HandleCommand | llm_port_node_agent/llm_port_node_agent/stream_client.py:184-234 | signature first, then age unless it is a re-dispatch; one rejecting result or the acknowledgement; nothing for a missing id |
| StreamClient.StreamClient.AfterAck | llm_port_node_agent/llm_port_node_agent/stream_client.py:247 | the acknowledged delivery enters the dispatcher |
| StreamClient.StreamClient.AfterDispatch | llm_port_node_agent/llm_port_node_agent/stream_client.py:236-247 | the first progress send left or raised, and the dispatcher goes on accordingly |
| StreamClient.StreamClient.EmitProgress | llm_port_node_agent/llm_port_node_agent/stream_client.py:236-245 | a running execution's progress frame is sent through its creator; when the send raises nothing is on the wire and the execution goes on or ends |
| StreamClient.StreamClient.EndRun | llm_port_node_agent/llm_port_node_agent/stream_client.py:247 | the execution a delivery awaits ends |
| StreamClient.StreamClient.CancelDelivery | llm_port_node_agent/llm_port_node_agent/stream_client.py:92-93 | the coroutine of a delivery is cancelled, at a send of its own or inside `handle` |
| StreamClient.StreamClient.AfterTask | llm_port_node_agent/llm_port_node_agent/stream_client.py:247 | the awaited execution is over and `handle` returns |
| StreamClient.StreamClient.SendResult | llm_port_node_agent/llm_port_node_agent/stream_client.py:248-256 | the result frame carries the row `handle` returned |
| StreamClient.StreamClient.SendJson | llm_port_node_agent/llm_port_node_agent/stream_client.py:258-262 | with the lock held the frame gets the next sequence number and leaves or not; numbers stay in increasing order, and the frame is added to the delivery's log exactly when it left |
| Wire.NumbersIncrease | llm_port_node_agent/llm_port_node_agent/stream_client.py:258-262 | in every interleaving of senders that succeed, raise or are cancelled, sequence numbers leave in strictly increasing order, also across every restart at which the state file had caught up |
| Wire.RestartContinuesIff | llm_port_node_agent/llm_port_node_agent/state_store.py:99-106 | after a crash the numbers go on increasing if and only if no number above the persisted counter had left |
| Wire.FlushLasts | llm_port_node_agent/llm_port_node_agent/service.py:218-220 | after a shutdown flush that succeeded, the state file stays caught up until another frame leaves, whatever else fails or restarts |
| Wire.LockIsReleased | llm_port_node_agent/llm_port_node_agent/stream_client.py:258-262 | while a sender holds the lock no other gets a number; however its send ends the lock is free again and the next sender gets the next number |
| Wire.CrashRepeatsANumber | llm_port_node_agent/llm_port_node_agent/stream_client.py:264-268 | without the flush, two frames sent since the last save and a crash make the next number one that has been used |
| Wire.Sender.constructor | llm_port_node_agent/llm_port_node_agent/stream_client.py:56 | the lock is free at the start |
| Wire.Sender.Begin | llm_port_node_agent/llm_port_node_agent/stream_client.py:259-261 | the sender that gets the lock stamps the next number |
| Wire.Sender.End | llm_port_node_agent/llm_port_node_agent/stream_client.py:262 | the frame leaves or not, and the lock is released either way |
| EventBuffer.EventBuffer.constructor | llm_port_node_agent/llm_port_node_agent/event_buffer.py:14 | the buffer starts empty |
| EventBuffer.EventBuffer.Add | llm_port_node_agent/llm_port_node_agent/event_buffer.py:16-33 | the event goes to the end |
| EventBuffer.EventBuffer.Drain | llm_port_node_agent/llm_port_node_agent/event_buffer.py:35-41 | the chunk followed by the rest is the old buffer, for every bound, negative ones included; a non-negative bound is kept and used up |
| EventBuffer.EventBuffer.TakeBatch | llm_port_node_agent/llm_port_node_agent/stream_client.py:171-176 | one turn of the flush loop takes up to 100 events off the buffer |
| EventBuffer.NothingLostInTheBuffer | llm_port_node_agent/llm_port_node_agent/event_buffer.py:16-41 | in every run, all drained batches followed by the buffer are all added events in order |
| EventBuffer.SentAtMostOnceInOrder | llm_port_node_agent/llm_port_node_agent/stream_client.py:171-177 | each event is sent at most once and in the order of adding, even when sends raise: what was sent is what was added at some set of positions, and sent, pending, buffered and lost events add up to all |
| EventBuffer.FramesAreSmall | llm_port_node_agent/llm_port_node_agent/stream_client.py:171-177 | an event frame carries between 1 and 100 events |
| EventBuffer.NothingLostWithoutFailures | llm_port_node_agent/llm_port_node_agent/stream_client.py:171-177 | when no send raises, everything added is sent, on its way or still buffered, in order |
| EventBuffer.RaisedSendLosesEvent | llm_port_node_agent/llm_port_node_agent/stream_client.py:171-177 | the input: one event, taken off the buffer, whose send raises, is lost |
| BlobNames.SafeJoinStaysBelow | llm_port_node_agent/llm_port_node_agent/model_puller.py:70-78 | a relative path that is let through has only real names as components: it cannot climb and hides no separator |
| BlobNames.PlainPathPasses | llm_port_node_agent/llm_port_node_agent/model_puller.py:70-78 | a path of plain names of any depth is let through as it is |
| BlobNames.AnyCaseIsRecognised | llm_port_node_agent/llm_port_node_agent/model_puller.py:81-87 | 64 hexadecimal digits in any case promise the digest in lower case |
| BlobNames.LeafIsOneComponent | llm_port_node_agent/llm_port_node_agent/model_puller.py:54-67 | a leaf name is safe if and only if it names one file directly below whatever directory it is joined to and holds no backslash |
| BlobNames.ExpectedShaMeaning | llm_port_node_agent/llm_port_node_agent/model_puller.py:81-87 | a name promises a digest if and only if in lower case it is that digest, bare or after `sha256-` |
| BlobNames.PartIsNeverDigest | llm_port_node_agent/llm_port_node_agent/model_puller.py:81-87 | a partial file never has the name of a digest-checked blob |
| BlobNames.PartInjective | llm_port_node_agent/llm_port_node_agent/model_puller.py:254 | different blobs have different partial files |
| HonestServer.Convergence | llm_port_node_agent/llm_port_node_agent/model_puller.py:205-347 | from any state of the disk, uninterrupted pulls of a true manifest from an honest server succeed within one attempt more than there are corrupt partial files, end with the right content and spoil no verified blob |
| HonestServer.FailureShrinksCorruption | llm_port_node_agent/llm_port_node_agent/model_puller.py:205-347 | a failed attempt has strictly fewer corrupt partial files than before, and no attempt adds one |
| HonestServer.AttemptFailsIff | llm_port_node_agent/llm_port_node_agent/model_puller.py:252-342 | an uninterrupted attempt on one blob fails if and only if the blob is not in place and a corrupt, non-empty, too short partial file is completed by a 206; the file is then removed |
| HonestServer.ResumeRefinesOneShot | llm_port_node_agent/llm_port_node_agent/model_puller.py:252-342 | from a disk without partial file, for every schedule of refusals, interruptions and 200-or-206 answers, the partial file is always a prefix of the content and a published blob leaves exactly the disk of an uninterrupted download |
| HonestServer.AttemptKeepsPrefix | llm_port_node_agent/llm_port_node_agent/model_puller.py:98-119 | one attempt publishes exactly the content or leaves a prefix of it |
| HonestServer.RangeCheckProtects | llm_port_node_agent/llm_port_node_agent/model_puller.py:98-119 | without any digest, a server that states its ranges truthfully but may answer from a wrong offset cannot corrupt a blob: what is published is the content, and a partial file that was a prefix stays one or goes |
| HonestServer.UnknownSizeStalls | llm_port_node_agent/llm_port_node_agent/model_puller.py:252-296 | without a stated size, a complete partial file is never published by a server that honours Range: the attempt succeeds if and only if the server answers 200 in full |
| ModelDir.IntegrityAlways | llm_port_node_agent/llm_port_node_agent/model_puller.py:205-342 | at every intermediate state of any sequence of pulls, with any server, a digest-named file is what it was before or bytes that hash to its digest, and once there it stays |
| ModelDir.IntegrityStep | llm_port_node_agent/llm_port_node_agent/model_puller.py:276-342 | the same for one atomic file-system action |
| BlobProperties.ManifestIntact | llm_port_node_agent/llm_port_node_agent/model_puller.py:218-342 | a pull that returns leaves every digest-named blob of the manifest with the right digest and, if hashes do not collide, the stated size, over the cached, completed-partial and download paths |
| BlobProperties.VerifiedStaysAll | llm_port_node_agent/llm_port_node_agent/model_puller.py:205-347 | a verified blob stays verified through any pull, successful or not |
| BlobProperties.EntryMeaning | llm_port_node_agent/llm_port_node_agent/model_puller.py:206-216 | a manifest entry is usable if and only if it is a dict whose stripped hash is one plain file name and whose size is a number; a negative size counts as unknown |
| BlobProperties.DownloadedIsReceived | llm_port_node_agent/llm_port_node_agent/model_puller.py:223-346 | what counts as downloaded are the bytes the server sent for the blob, the end of its content; the rest counts as skipped |
| BlobProperties.EntryEffect | llm_port_node_agent/llm_port_node_agent/model_puller.py:205-347 | one entry touches its own blob and its own partial file only, and success leaves it cached |
| BlobProperties.SuccessCachesAll | llm_port_node_agent/llm_port_node_agent/model_puller.py:205-347 | on return every manifest entry is cached |
| BlobProperties.TransferConservation | llm_port_node_agent/llm_port_node_agent/model_puller.py:187-347 | at every point `downloaded + skipped == completed`; on return both are the sum of the final blob sizes over the manifest, each entry counted once on every path |
| BlobProperties.EntryAccounting | llm_port_node_agent/llm_port_node_agent/model_puller.py:223-347 | one entry adds to `completed` what it adds to `downloaded` and `skipped`: the size of its blob, or nothing on error |
| BlobProperties.SecondPullIsFree | llm_port_node_agent/llm_port_node_agent/model_puller.py:222-248 | a pull after a successful one transfers nothing and changes nothing, whatever either server does |
| BlobProperties.CachedPullIsNoOp | llm_port_node_agent/llm_port_node_agent/model_puller.py:222-248 | when every entry is cached the loop succeeds without a byte from the server |
| BlobProperties.ReportsAreMonotone | llm_port_node_agent/llm_port_node_agent/model_puller.py:192-202 | progress is reported at non-decreasing values of `completed`, the last of them the final one |
| BlobProperties.PercentagesNeverDecrease | llm_port_node_agent/llm_port_node_agent/model_puller.py:195-200 | percentages never decrease and are never negative, under every rounding of the two float operations that keeps order and is exact on integers |
| BlobProperties.WithinHundredIff | llm_port_node_agent/llm_port_node_agent/model_puller.py:192-202 | a pull that returns has shown at most 100% throughout if and only if the sum of the manifest's stated sizes is at most 100% of `total_size`; for a failed pull that is sufficient |
| BlobProperties.WithinHundredExactly | llm_port_node_agent/llm_port_node_agent/model_puller.py:195 | in exact arithmetic that is a sum below 101% of `total_size`; a sum up to `total_size` is enough under any rounding |
| BlobProperties.PercentCanExceedHundred | llm_port_node_agent/llm_port_node_agent/model_puller.py:195 | the input: two cached bytes with a `total_size` of one show as 200% |
| BlobProperties.ProgressEndsAt100 | llm_port_node_agent/llm_port_node_agent/model_puller.py:192-202 | with `total_size` the sum of the sizes, percentages stay within 0..100 and end at 100 |
| ModelDir.Relocation | llm_port_node_agent/llm_port_node_agent/model_puller.py:376-392 | the relative target computed in the temporary directory resolves to the same blob after the rename, for every link depth and wherever the model directory is, because the common prefix with `blobs/` stops there |
| ModelDir.RelPathLeadsToTarget | llm_port_node_agent/llm_port_node_agent/model_puller.py:381 | a relative path leads from its start to its target |
| ModelDir.NothingEverDangles | llm_port_node_agent/llm_port_node_agent/model_puller.py:349-416 | over any sequence of failed, crashed and successful pulls no link of any snapshot dangles, at any intermediate state |
| ModelDir.BlobsAreNeverRemoved | llm_port_node_agent/llm_port_node_agent/model_puller.py:205-416 | every action keeps every blob: blobs are replaced, never removed |
| ModelDir.OnlyPartsCanVanish | llm_port_node_agent/llm_port_node_agent/model_puller.py:257-336 | a file of `blobs/` survives every action if and only if its name does not end in `.part` |
| ModelDir.CrashThenPull | llm_port_node_agent/llm_port_node_agent/model_puller.py:205-416 | a pull that starts where a crash left off continues the history, so all of the above holds across crashes |
| Snapshots.RefsAreComplete | llm_port_node_agent/llm_port_node_agent/model_puller.py:404-415 | when the stage succeeds each ref holds the commit of the last entry that names it, without the whitespace around it, a trailing newline included |
| Snapshots.RefsTouchNothingElse | llm_port_node_agent/llm_port_node_agent/model_puller.py:404-415 | a ref that no entry names is as before, whether the stage succeeds or not |
| Snapshots.RefsStopAtError | llm_port_node_agent/llm_port_node_agent/model_puller.py:404-415 | after an error exactly the entries before the failing one have taken effect |
| Snapshots.RefWrittenIff | llm_port_node_agent/llm_port_node_agent/model_puller.py:405-415 | an entry is written if and only if it is a dict with a safe name, its file can be opened and no other ref is in its way |
| Snapshots.WritesAppend | llm_port_node_agent/llm_port_node_agent/model_puller.py:404-415 | the entries are written one after the other, each over what the ones before have left |
| Snapshots.TreeBuiltIff | llm_port_node_agent/llm_port_node_agent/model_puller.py:361-385 | a tree is built if and only if every link has a safe path and a safe name of a blob that is there, and no two are in each other's way |
| Snapshots.PublishedIff | llm_port_node_agent/llm_port_node_agent/model_puller.py:350-395 | one snapshot is published if and only if its entry is a dict with a safe commit and good links, the temporary name is free and the rename succeeds; an error before the rename leaves every directory as it was, a failed rename has cost the old one |
| Snapshots.PublishesAppend | llm_port_node_agent/llm_port_node_agent/model_puller.py:350-395 | the snapshots are published one after the other, each over what the ones before have left |
| Snapshots.TreeIsComplete | llm_port_node_agent/llm_port_node_agent/model_puller.py:361-385 | a built tree has one link per entry, none in another's way, each resolving to the blob its entry names |
| Snapshots.PublishedIsComplete | llm_port_node_agent/llm_port_node_agent/model_puller.py:350-395 | when publishing succeeds, each commit's directory is the complete tree of its last entry |
| Snapshots.PublishTouchesNothingElse | llm_port_node_agent/llm_port_node_agent/model_puller.py:350-395 | no other snapshot directory changes |
| ModelPuller.Puller.constructor | llm_port_node_agent/llm_port_node_agent/model_puller.py:187-190 | the counters start at zero |
| ModelPuller.Puller.PullModel | llm_port_node_agent/llm_port_node_agent/model_puller.py:205-416 | the disk, the counters and the outcome are what the three stages say; every state on the way follows by one atomic action; refs differ from the old ones only once all blobs and snapshots are in place; a commit of one entry that was not there is absent or complete at every moment of the call |
| ModelPuller.Puller.FetchBlobs | llm_port_node_agent/llm_port_node_agent/model_puller.py:205-347 | the blob loop computes FetchAll, stopping at the first error, and touches only `blobs/` |
| ModelPuller.Puller.FetchEntry | llm_port_node_agent/llm_port_node_agent/model_puller.py:209-347 | one entry: invalid, cached, completed from its partial file, or transferred |
| ModelPuller.Puller.ReusePart | llm_port_node_agent/llm_port_node_agent/model_puller.py:255-280 | an oversized or wrong complete partial file is deleted, a right one is published |
| ModelPuller.Puller.Transfer | llm_port_node_agent/llm_port_node_agent/model_puller.py:282-347 | one request: turned down, interrupted, invalid after writing, or published and counted |
| ModelPuller.Puller.Receive | llm_port_node_agent/llm_port_node_agent/model_puller.py:297-317 | the partial file is what was resumed followed by all chunks, and the bytes written are those of the chunks |
| ModelPuller.Puller.Settle | llm_port_node_agent/llm_port_node_agent/model_puller.py:324-347 | the partial file is deleted when its size or digest is wrong, otherwise published and counted |
| ModelPuller.Puller.Count | llm_port_node_agent/llm_port_node_agent/model_puller.py:343-347 | the counters, and the percentage reported for them with the rounding of the float operations as a parameter |
| ModelPuller.Puller.PublishBlob | llm_port_node_agent/llm_port_node_agent/model_puller.py:341-342 | publishing replaces the blob by its checked partial file in one action |
| ModelPuller.Puller.PublishSnapshots | llm_port_node_agent/llm_port_node_agent/model_puller.py:350-395 | the snapshot loop computes PublishAll and touches only the commits and temporary directories it names; each commit of one entry that was not there is absent or complete throughout |
| ModelPuller.Puller.PublishSnapshot | llm_port_node_agent/llm_port_node_agent/model_puller.py:350-395 | a commit published for the first time is absent or complete at every moment |
| ModelPuller.Puller.Stage | llm_port_node_agent/llm_port_node_agent/model_puller.py:358-394 | the temporary directory is filled, or gone again after an error |
| ModelPuller.Puller.AddLinks | llm_port_node_agent/llm_port_node_agent/model_puller.py:361-385 | the link loop builds the tree, or fails at the first bad link |
| ModelPuller.Puller.AddLink | llm_port_node_agent/llm_port_node_agent/model_puller.py:376-385 | one link, to the relative target computed where it stands |
| ModelPuller.Puller.Install | llm_port_node_agent/llm_port_node_agent/model_puller.py:387-395 | the old directory is removed and the new one renamed; a failed rename leaves neither |
| ModelPuller.Puller.RemoveTree | llm_port_node_agent/llm_port_node_agent/model_puller.py:387-394 | removing a tree link by link touches nothing else |
| ModelPuller.Puller.PublishRefs | llm_port_node_agent/llm_port_node_agent/model_puller.py:404-415 | the ref loop computes WriteRefs and touches only `refs/` |
| ModelPuller.Puller.WriteRef | llm_port_node_agent/llm_port_node_agent/model_puller.py:411-415 | a ref file is truncated, then holds the stripped commit |
| ModelPuller.Puller.PublishModel | llm_port_node_agent/llm_port_node_agent/model_puller.py:349-416 | snapshots, then refs, over the blobs in place |
| Agent.NoOrphansEver | llm_port_node_agent/llm_port_node_agent/runtime_manager.py:108-389 | over every command sequence, if each runtime keeps one name, names differ, and nothing fails between `run` and the row, every container the agent created and still has is recorded in exactly one row, even when image pull, run or readiness fails |
| WorkloadEffects.StopStops | llm_port_node_agent/llm_port_node_agent/runtime_manager.py:333-349 | a stop that succeeds has stopped the container that the row, or else the payload, names: the same one is there and does not run, and nothing else has changed; one that is absent or not seen in time is no error |
| WorkloadEffects.StartStarts | llm_port_node_agent/llm_port_node_agent/runtime_manager.py:314-367 | a start or restart that finds its container and succeeds leaves it running and changes nothing else; when nothing is found it is a full deploy |
| WorkloadEffects.DeployRuns | llm_port_node_agent/llm_port_node_agent/runtime_manager.py:82-299 | a deploy succeeds if and only if it has an id and an image, what stood under its name was seen and removed and every step went well; then the container of that name runs the payload's image, the row holds its name and id, and everything else is as before |
| WorkloadEffects.TakenNameFails | llm_port_node_agent/llm_port_node_agent/runtime_manager.py:111-113 | a container that is there but was not seen in time, or could not be removed, makes the deploy fail and stays |
| WorkloadEffects.RemoveRemoves | llm_port_node_agent/llm_port_node_agent/runtime_manager.py:369-381 | a removal that succeeds has removed its container and its row and nothing else; one that fails keeps every row |
| WorkloadEffects.UpdateReplaces | llm_port_node_agent/llm_port_node_agent/runtime_manager.py:383-389 | a successful update ends with the container and row of the deploy and without the container the row named before |
| NoOrphans.DeployOrphansIff | llm_port_node_agent/llm_port_node_agent/runtime_manager.py:108-286 | exactly when a deploy leaves its container unrecorded: `run` left something behind or the next progress send failed, with no earlier row; or it was an orphan already and the deploy did not reach its removal |
| NoOrphans.UpdateOrphansIff | llm_port_node_agent/llm_port_node_agent/runtime_manager.py:383-389 | exactly when an update orphans a container |
| NoOrphans.StartOrphansIff | llm_port_node_agent/llm_port_node_agent/runtime_manager.py:314-367 | start and restart orphan exactly through their fallback to a deploy |
| NoOrphans.RemoveOrphansNothing | llm_port_node_agent/llm_port_node_agent/runtime_manager.py:369-381 | a removal drops the row only after the container is gone |
| NoOrphans.StopOrphansNothing | llm_port_node_agent/llm_port_node_agent/runtime_manager.py:333-349 | a stop orphans and adopts nothing |
| NoOrphans.OrphansElsewhereStay | llm_port_node_agent/llm_port_node_agent/runtime_manager.py:694-713 | a command on one runtime orphans no other runtime's container |
| NoOrphans.RecordedByOwnRow | llm_port_node_agent/llm_port_node_agent/runtime_manager.py:694-713 | with one name per runtime, a container is recorded by its own runtime's row or not at all |
| NoOrphans.DeployCanOrphan | llm_port_node_agent/llm_port_node_agent/runtime_manager.py:249-278 | the input: the progress send after `run` fails on an empty node, and the container is in no row |
| NoOrphans.UpdateCanDiffer | llm_port_node_agent/llm_port_node_agent/runtime_manager.py:383-389 | the input: the row names another container than the payload, which an update removes and a deploy leaves behind |
| NoOrphans.UpdateMatchesDeployIff | llm_port_node_agent/llm_port_node_agent/runtime_manager.py:383-389 | successful update and deploy end with the same rows, and with the same containers if and only if the container looked up is the one the deploy replaces or is not there |
| RuntimeManager.Manager.constructor | llm_port_node_agent/llm_port_node_agent/runtime_manager.py:61-80 | the manager starts from the given containers and rows |
| RuntimeManager.Manager.DeployWorkload | llm_port_node_agent/llm_port_node_agent/runtime_manager.py:82-299 | the deploy's steps in order: validate, remove what has the name, prepare, run, report, record, wait |
| RuntimeManager.Manager.CallRuntime | llm_port_node_agent/llm_port_node_agent/runtime_manager.py:314-367 | start, restart and stop return, raise without effect, raise after they took effect, or leave the container standing still |
| RuntimeManager.Manager.StartWorkload | llm_port_node_agent/llm_port_node_agent/runtime_manager.py:314-331 | the container is found and started, or a full deploy follows; a failure can come before or after the start took effect |
| RuntimeManager.Manager.StopWorkload | llm_port_node_agent/llm_port_node_agent/runtime_manager.py:333-349 | an absent container is no error; a failure can come before or after the stop took effect |
| RuntimeManager.Manager.RemoveWorkload | llm_port_node_agent/llm_port_node_agent/runtime_manager.py:369-381 | the container goes first, then the row; a failed removal keeps the row |
| RuntimeManager.Manager.UpdateWorkload | llm_port_node_agent/llm_port_node_agent/runtime_manager.py:383-389 | remove, then deploy; a failed removal stops it |
| RuntimeManager.Manager.HandleCommand | llm_port_node_agent/llm_port_node_agent/dispatcher.py:147-193 | guard, image check, then the one effect of the command |
| Agent.ExecutedUnlessRefused | llm_port_node_agent/llm_port_node_agent/dispatcher.py:66-158 | a command is executed if and only if no mode holds its type back and its explicit image, if it can run one, has an entry of the allowlist as prefix; otherwise nothing changes |
| Agent.ModesFollowLastSwitch | llm_port_node_agent/llm_port_node_agent/dispatcher.py:181-193 | maintenance and draining are always what the last command that switches them said |
| PolicyGuard.RefusalMeaning | llm_port_node_agent/llm_port_node_agent/policy_guard.py:16-40 | four command types are refused in maintenance, three of them while draining, with a message that names the type and the mode; maintenance is looked at first |
| Agent.GuardBlocksExactly | llm_port_node_agent/llm_port_node_agent/policy_guard.py:16-40 | maintenance blocks exactly the command types that can create or start a container or track a workload; draining blocks the same without `update_workload` |
| Agent.MaintenanceFreezes | llm_port_node_agent/llm_port_node_agent/policy_guard.py:16-36 | from maintenance mode, over every command sequence that does not switch it off, no container is created or started and no row is new |
| Agent.DrainFreezes | llm_port_node_agent/llm_port_node_agent/policy_guard.py:22-40 | while draining the same holds for every sequence without updates and resumes |
| Agent.DrainLetsOnlyUpdateThrough | llm_port_node_agent/llm_port_node_agent/policy_guard.py:22-40 | a draining node outside maintenance can still run something through a command of some type if and only if that type is `update_workload` |
| Agent.OnlyAllowedImagesRun | llm_port_node_agent/llm_port_node_agent/dispatcher.py:150-158 | over every command sequence, each container the agent runs has an allowed image or a provider default |
| Reconnect.RunForever | llm_port_node_agent/llm_port_node_agent/service.py:161-216 | the loop computes After: credential, backoff, streak and every sleep, over any behaviour of the backend |
| Reconnect.IterationByCause | llm_port_node_agent/llm_port_node_agent/service.py:173-216 | one iteration by what the backend did: a closed stream resets both counters before the sleep; auth rejections wait 15 s, then 30 s, and the third clears the credential; any other failure sleeps and doubles; a runtime error, or no way to a credential, ends the agent |
| Reconnect.BackoffAtLoopHead | llm_port_node_agent/llm_port_node_agent/service.py:161-216 | at every loop head the backoff is `min(min_sec * 2^k, max_sec)`, k counting the ordinary sleeps since the last clean return; auth retries leave it alone |
| Reconnect.ScaledIsProduct | llm_port_node_agent/llm_port_node_agent/service.py:215-216 | doubling k times is multiplying by 2^k |
| Reconnect.Doubling | llm_port_node_agent/llm_port_node_agent/service.py:215-216 | capping at every doubling is the same as capping once at the end |
| Reconnect.ClosedFormIff | llm_port_node_agent/llm_port_node_agent/service.py:161-216 | the closed form holds in every run if and only if `min_sec <= max_sec` |
| Reconnect.StreakAtLoopHead | llm_port_node_agent/llm_port_node_agent/service.py:182-204 | at every loop head the streak is the number of auth rejections since the last clean return, modulo 3, so 0..2; every iteration sleeps once |
| Reconnect.SleepTaken | llm_port_node_agent/llm_port_node_agent/service.py:194-216 | each sleep is 15 s times the streak after an auth retry and the closed form otherwise |
| Reconnect.ClearedExactlyOnThird | llm_port_node_agent/llm_port_node_agent/service.py:182-198 | the credential is cleared exactly by the auth rejections that bring their number since the last clean return to a multiple of three; other failures neither clear nor reset |
| Reconnect.ClearedMeansReenroll | llm_port_node_agent/llm_port_node_agent/service.py:243-278 | a cleared credential is never used again: the next attempt enrolls, and without a token it ends the agent |
| Sse.ChunkIndependence | llm_port_frontend/app/api/chatClient.ts:174-247 | for every way of cutting the bytes, the incremental reader yields the deltas of the whole text read at once and stops or throws at the same line; its buffer is the unfinished last line |
| Sse.SameBytesSameDeltas | llm_port_frontend/app/api/chatClient.ts:174-247 | two cuttings of the same bytes cannot be told apart |
| Sse.Read | llm_port_frontend/app/api/chatClient.ts:174-247 | the generator's loop over chunks yields what the whole text yields |
| Sse.ReadLines | llm_port_frontend/app/api/chatClient.ts:185-246 | the inner loop goes through the complete lines of one chunk up to the one that ends the stream |
| Sse.DataLineMeaning | llm_port_frontend/app/api/chatClient.ts:186-189 | a line carries a payload if and only if it is `data:` and that trimmed payload, with any whitespace around them |
| Sse.YieldsAllUsable | llm_port_frontend/app/api/chatClient.ts:192-236 | while no line ends the stream, exactly the deltas of the usable payloads are yielded, in order, each with its content, finish reason and usage, the first with the trace id too |
| Sse.FirstEndDecides | llm_port_frontend/app/api/chatClient.ts:190-244 | the first line that ends the stream ends it, with the deltas of the lines before, as done or with the error thrown |
| Sse.DecodedOne | llm_port_frontend/app/api/chatClient.ts:174-181 | the decoder is run byte by byte from its start |
| Sse.SplitMeaning | llm_port_frontend/app/api/chatClient.ts:182-183 | the pieces of the split hold no newline and joined give the text back |
| Sse.LinesAppend | llm_port_frontend/app/api/chatClient.ts:181-183 | the later part of a cut text continues the unfinished line of the earlier part |
| Sse.UnfinishedLineIgnored | llm_port_frontend/app/api/chatClient.ts:182-183 | a last line without its newline is never looked at, not even `[DONE]` |
| Sse.TraceIdOnFirstDelta | llm_port_frontend/app/api/chatClient.ts:223-236 | with a trace id exactly the first yielded delta carries it; a delta without one carries something else |
| Sse.FirstPayloadYields | llm_port_frontend/app/api/chatClient.ts:223-236 | with a trace id the first usable payload is yielded even when it carries nothing else |
| Sse.ReadersAgreeIff | llm_port_frontend/app/api/chatClient.ts:185-336 | streamChat and resumeStream agree if and only if no error payload or malformed JSON comes before `[DONE]`, apart from those with the end-of-input message; otherwise streamChat throws, having yielded a prefix of resumeStream's deltas |
| Sse.MalformedParts | llm_port_frontend/app/api/chatClient.ts:237-244 | the input: one malformed data line, at which streamChat throws and resumeStream goes on |
| Sse.ErrorPayloadSkipped | llm_port_frontend/app/api/chatClient.ts:237-244 | the input: an error payload with the end-of-input message, which streamChat skips |
| EnvFile.RoundTripIff | llm_port_node_agent/llm_port_node_agent/__main__.py:104-145 | printing and parsing a dict gives it back if and only if keys and values are trimmed and hold no line break and no key contains `=` or starts with `#` |
| EnvFile.CleanRoundTrip | llm_port_node_agent/llm_port_node_agent/__main__.py:104-145 | for such a dict the parsed rows are its rows sorted by key |
| EnvFile.ParsePrintParse | llm_port_node_agent/llm_port_node_agent/__main__.py:104-145 | for every text, printing what was parsed and parsing again changes no row |
| EnvFile.ParsedFileIsClean | llm_port_node_agent/llm_port_node_agent/__main__.py:104-124 | whatever the file, the parser returns rows the printer can hold |
| EnvFile.LastRowWins | llm_port_node_agent/llm_port_node_agent/__main__.py:116-123 | each key has the value of the last line that sets it; blank lines, comments and lines without `=` set nothing |
| EnvFile.RowMeaning | llm_port_node_agent/llm_port_node_agent/__main__.py:116-123 | a line sets a key if and only if it is the key, the first `=` and the value with any whitespace around the two, and is no comment |
| EnvFile.PrintMeaning | llm_port_node_agent/llm_port_node_agent/__main__.py:144-145 | the text saved is one `key=value` line per row in the order of the keys |
| EnvFile.ParseEnvFile | llm_port_node_agent/llm_port_node_agent/__main__.py:104-124 | the parsing loop skips blank lines, comments and lines without `=`, and later rows win |
| EnvFile.LoadMeaning | llm_port_node_agent/llm_port_node_agent/__main__.py:127-138 | loading merges the two files, the user's rows over the system's |
| EnvFile.SavedRowsAreLoaded | llm_port_node_agent/llm_port_node_agent/__main__.py:127-145 | after saving to the user file, loading returns every saved key with its saved value whatever the system file holds |
| EnvFile.ArgumentMeaning | llm_port_node_agent/llm_port_node_agent/__main__.py:354-364 | an argument is accepted if and only if it is KEY=VALUE with a known key, upper-cased, with or without its prefix; it sets the full key to the stripped value |
| EnvFile.ConfigureSet | llm_port_node_agent/llm_port_node_agent/__main__.py:348-371 | the loop over KEY=VALUE arguments; a bad one anywhere leaves both files alone |
| EnvFile.SetPairsMeaning | llm_port_node_agent/llm_port_node_agent/__main__.py:353-369 | for every list of accepted arguments, each key is set or unset as the last argument for it says and every other key stays; line breaks inside values are all that can make the dict unprintable |
| EnvFile.ConfigureTakesEffectIff | llm_port_node_agent/llm_port_node_agent/__main__.py:348-371 | after any successful command, loading returns what was asked for, and for every other key what it was, if and only if no value asked for has a line break inside and the file that was not written overrules none of the requests |
| EnvFile.UserFileWins | llm_port_node_agent/llm_port_node_agent/__main__.py:127-138 | the input: a value saved to the system file while the user file sets the key, and loading returns the user file's |
| EnvFile.LineBreakIsLost | llm_port_node_agent/llm_port_node_agent/__main__.py:104-145 | the input: a value with a line break inside, which loading does not return |

## Left out

- Sockets, HTTP, subprocesses, Docker, journald, Loki and Windows calls are steps that succeed or fail; HMAC, SHA-256 and the age of a command are parameters.
- JSON encoding and decoding: the state file is whole or torn, an event-stream payload is malformed, an error, or a chunk with its fields.
- UTF-8 decoding in the browser is an arbitrary streaming decoder; the Content-Range header is taken as parsed.
- File paths are POSIX and lexical: symlinks outside the model directory, Windows drives and the operating system's path resolution inside `_safe_join` are not modelled.
- The table of locks per model directory: pulls of one directory are one after the other in the model, as the lock makes them.
- Lower-casing of digests and the order of strings are by ASCII letter and code point; upper-casing of config keys and the slug of `_container_name` are arbitrary functions.
- BlobProperties.PercentagesNeverDecrease: the two float operations are a rounding function that keeps order and is exact on integers up to 2^53; its other values are not modelled.
- BlobProperties.TransferConservation: the sum over the manifest assumes that no manifest name ends in `.part` and that entries with one name state one size; the balance of the counters needs neither.
- ModelPuller.Puller.PullModel: assumes that snapshot links name no `.part` file (OnlyPartsCanVanish shows why that is needed); a snapshot with two links at one path, or one inside another, counts as an error.
- ModelPuller.Puller.Install: replacing a snapshot directory that exists already is not atomic in the code, and a failed rename loses both directories; the contract says so.
- ModelPuller.Puller.WriteRef: a ref file is truncated and then written, so a crash between the two leaves it empty.
- StateStore.FreshIdsEvictOldest: speaks of one process; after a restart the rows are in key order, so eviction no longer follows insertion.
- StateStore.Store.Save: the time stamp `updated_at`, the node profile and file permissions are not part of the state.
- Dispatcher.CommandDispatcher.Handle: stored rows are well-formed dicts with an inner dict, as the agent writes them.
- StreamClient.StreamClient.HandleCommand: correlation ids, message texts and the parsing of incoming envelopes are not modelled; each delivery is handled on its own, which includes the one-after-the-other order of one receive loop.
- Wire.FlushLasts: that no frame leaves after the shutdown flush is a condition, met because the connection is closed by then.
- RuntimeManager.Manager.DeployWorkload: what decides names, images and the order of effects is modelled; the building of the engine command, ports, GPU and volume arguments, endpoint text, log tails and the timing of the readiness probe are not.
- Agent.NoOrphansEver: commands are handled one at a time; a container that disappears on its own is modelled, one that another program creates under the agent's name is modelled as not the agent's.
- Stream.EveryDeliveryIsAnswered: that each execution ends at some time is its own step here; how long a command runs is not modelled.
- Reconnect.RunForever: the endless loop is followed over any finite sequence of attempts; delays are real numbers.
- EnvFile.ConfigureSet: the masked display of what was changed and the fallback from the system to the user file when writing is denied; which file is written is a parameter.
- Heartbeats, inventory, credential rotation, health supervision, log forwarding, the command-line wizard and the rest of the frontend and backend would only add easy members.
