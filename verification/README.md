# A verified model of the instrument server

The instrument server runs each laboratory instrument in a worker process of
its own. Scripts and jobs reach the workers through proxies and bounded message
queues; sync tokens and barriers keep parallel blocks together. This project
models the parts of it that are hard to get right and proves, for every input,
every run or every interleaving, what they promise. `dafny verify
dfyconfig.toml` checks everything.

How it is built:

- Code that changes state in place is a class (`SyncCoordinator`,
  `InstrumentWorkerProxy`, `Instrument`, `JobManager`, `RuntimeContext`,
  `DataBufferManager`) or a method with loops. Each such method is proved to
  take the object from one value of its abstract state to the next; functions
  on those values are the specification.
- Everything that happens across calls is proved about these functions: as an
  invariant over all sequences of operations, or, where several threads or
  processes take part (`Link`, `Scheduler`), over all interleavings of actions,
  one action per lock section or queue operation. An action that is not enabled
  makes the run undefined; nothing else restricts the runs.
- Main results are stated in terms that do not mention how the state is stored:
  histories of acknowledgements, submissions and cancellations, positions in a
  message log, a grammar, a regular expression, a balance of gets and releases.
  What an operation has to bring about is stated as well as what it must not do.

| module | what it covers |
|---|---|
| `Coordination` | the barrier table and its acknowledgements |
| `Codec` | commands and responses as JSON trees |
| `Worker` | the message loop of a worker process |
| `Proxy`, `Link` | pending promises; one instrument end to end, all interleavings |
| `Quiescence` | what a link does when nothing goes wrong |
| `Gating`, `Crashing`, `LinkRuns` | when the gate holds on a link, when the listener ends, and runs that show it |
| `Scheduler` | the job queue, its loop, monitors and cancellation |
| `Context`, `Dispatching`, `Releasing`, `RuntimeContexts` | staging, parallel dispatch, waiting and releasing in enqueue mode |
| `Placing` | which slot each answer goes to |
| `EndToEnd`, `Barriers`, `Scripts` | contexts and links together: what ends up in a script's results, what a release guarantees, which scripts keep the gate |
| `Templates` | the placeholder scan and the fixed-buffer substitution |
| `Channels` | the channel-group expander and the check of its output |
| `GateOrder` | splitting and recognising a gate order |
| `Buffers`, `Text` | the reference-counted buffer table; stamped identifiers |
| `Options`, `Protocol`, `Sequences` | outcome types, shared names and limits, facts about sequences |

Five promises of the repository do not hold as they stand. For each there is a
concrete failing case and the exact condition under which the code is right:

- Workers are described as blocking on a barrier until SYNC_CONTINUE arrives
  (docs/ARCHITECTURE.md, lines 401 and 597). The worker's code does that
  (`Worker.Gate`), but the barrier mark is not part of the wire format: whatever
  arrives, a worker never waits (`Worker.WireNeverWaits`). `Gating.GateFails`
  runs a marked command and the next one with no SYNC_CONTINUE sent. Nothing is
  executed between a barrier and its release if and only if, of the messages
  that have arrived, the server itself sent nothing to execute between them
  (`Gating.GateExactly`). For a script: exactly when all it sends to the
  instrument between two waits belongs to one token (`Scripts.ScriptGate`).
- A peeked job that is cancelled while the scheduler waits makes it pop another
  job (`Scheduler.Mishap`), which no continuation ever starts
  (`Scheduler.DiscardedNeverRuns`). At the end of any run the jobs are conserved
  if and only if no pop found its peeked job cancelled
  (`Scheduler.ConservedExactly`, and pop by pop `Scheduler.PopSafeExactly`). The
  exclusion rule survives even then (`Scheduler.Exclusion`).
- A parallel block takes a result slot even when the worker lookup fails, so a
  later answer can land in the wrong slot (`Dispatching.AnswerInTheWrongSlot`).
  No answer goes to a slot made for another command if and only if, in the
  blocks since the last wait, no lookup failed before a successful one
  (`Placing.NoneMisplacedExactly`). Every slot gets an answer, and its own, if
  and only if no lookup failed at all (`Dispatching.OwnSlotsExactly`).
- A number that is not finite is printed as `null` (section 6 of RFC 8259 has no
  such numbers): a parameter vanishes, an array makes the command undecodable
  and stops the worker, an answer makes the server's listener throw
  (`Codec.NumberVanishes`, `Codec.ArrayThrows`, `Codec.AnswerThrows`,
  `Crashing.ListenerDies`). Commands and responses survive the wire if and only
  if their numbers are finite (`Codec.CommandRoundTrip`,
  `Codec.ResponseRoundTrip`), and the listener, and the server with it, ends if
  and only if it handles such an answer (`Crashing.CrashExactly`).
- The 32-bit reference count of a buffer wraps around: after 2^32 gets and one
  release the buffer is gone while 2^32 holders are left (`Buffers.GoneWhileHeld`).
  The balance of gets and releases alone decides presence if and only if, during
  the buffer's life, no release has brought it to a positive multiple of 2^32
  (`Buffers.BalanceDecides`).

Where code and documentation disagree the model follows the code.

Taken as arguments, because they lie outside the program: clock readings,
whether `malloc` or a timed send succeeded, what a plugin answers (any function
of the executions so far and the command), what the registry lists and finds,
and the sequence of calls a script makes.

## Model

| member | source | states |
|---|---|---|
| `Coordination.TableMeaning` | src/server/SyncCoordinator.cpp:6-63 | after any mix of operations a token has a barrier exactly when its latest registration was neither cleared nor completed since, and the barrier's sets are the names registered and the expected names heard since |
| `Coordination.AnswerMeaning` | src/server/SyncCoordinator.cpp:22-63 | `handle_ack` answers true exactly when this acknowledgement, by an expected instrument, is the first to complete the expected set since the token's latest registration with no clear in between |
| `Coordination.TokensAreIndependent` | src/server/SyncCoordinator.cpp:6-96 | a token's barrier and its true answers depend only on the operations that name it |
| `Coordination.AckOrderIrrelevant` | src/server/SyncCoordinator.cpp:43-62 | two bursts of acknowledgements by the same names, in any order and with any repeats, give the same number of true answers, whatever precedes and follows |
| `Coordination.AtMostOneTruePerRegistration` | src/server/SyncCoordinator.cpp:50-62 | there are never more true answers than registrations |
| `Coordination.SyncCoordinator.RegisterBarrier` | src/server/SyncCoordinator.cpp:6-20 | replaces the token's barrier by a fresh one over the given names |
| `Coordination.SyncCoordinator.HandleAck` | src/server/SyncCoordinator.cpp:22-63 | the table moves as specified and the answer is the specified one |
| `Coordination.SyncCoordinator.ClearBarrier` | src/server/SyncCoordinator.cpp:92-96 | removes the token's barrier and nothing else |
| `Coordination.SyncCoordinator.GetWaitingInstruments` | src/server/SyncCoordinator.cpp:65-85 | lists exactly the expected names not yet heard, each once; nothing for an unknown token |
| `Coordination.SyncCoordinator.HasBarrier` | src/server/SyncCoordinator.cpp:87-90 | tells whether the token is in the table |
| `Codec.ValueRoundTrip` | src/SerializedCommand.cpp:56-68 | what any parameter value becomes at the receiver: itself when finite; a non-finite number vanishes; an array with one makes decoding throw |
| `Codec.DecodeCommand` | src/SerializedCommand.cpp:39-72 | a decoded command never carries the barrier mark, whatever the payload |
| `Codec.CommandDelivery` | src/SerializedCommand.cpp:7-72 | for every command, exactly what decoding its encoding yields, failures included |
| `Codec.CommandRoundTrip` | src/SerializedCommand.cpp:7-72 | decoding gives back the command, barrier mark off, if and only if all its numbers are finite |
| `Codec.ResponseRoundTrip` | src/SerializedCommand.cpp:74-153 | a response comes back unchanged up to unused buffer fields if and only if its value is finite; otherwise decoding throws |
| `Codec.NumberVanishes` | src/SerializedCommand.cpp:22-23 | a failing command: its non-finite parameter is gone at the receiver |
| `Codec.ArrayThrows` | src/SerializedCommand.cpp:30-31 | a failing command: an array with a non-finite number makes it undecodable |
| `Codec.AnswerThrows` | src/SerializedCommand.cpp:74-153 | a failing response: its non-finite value makes decoding throw |
| `Codec.SerializeCommand` | src/SerializedCommand.cpp:7-37 | the assignments and the loop over the parameters build the specified tree |
| `Codec.DeserializeParams` | src/SerializedCommand.cpp:54-69 | the loop over the members builds the specified parameters, skips nulls and objects, and throws on an array that holds anything but numbers |
| `Worker.WaitingMeaning` | src/workers/generic_worker_main.cpp:209-298 | a running worker waits for a token exactly when it executed a barrier-marked command of it with no SYNC_CONTINUE for it since |
| `Worker.Gate` | src/workers/generic_worker_main.cpp:217-298 | no command is executed between a barrier-marked command of a token and SYNC_CONTINUE for that token |
| `Worker.RunningMeaning` | src/workers/generic_worker_main.cpp:209-256 | the loop ends exactly at the first shutdown, or at an undecodable command met while not blocked |
| `Worker.ExecutedExactly` | src/workers/generic_worker_main.cpp:209-298 | a message is executed if and only if it is a decodable command, nothing stopped the worker before, and no barrier holds it |
| `Worker.OutputExactly` | src/workers/generic_worker_main.cpp:281-333 | the output splits into one segment per executed message, in order: the response under that message's id with the execution's answer, followed by the acknowledgement under the same id exactly when the command has a token |
| `Worker.ExecutionsArePicked` | src/workers/generic_worker_main.cpp:252-281 | the k-th execution is of the k-th executed message; a barrier NOP never reaches the plugin and is answered with success and no value, every other command with the plugin's answer |
| `Worker.PickedExactly` | src/workers/generic_worker_main.cpp:209-256 | the executed positions are listed once each and in order |
| `Worker.UnmarkedNeverWaits` | src/workers/generic_worker_main.cpp:283-297 | without barrier marks a worker never waits and runs until a shutdown or an undecodable command arrives |
| `Worker.WireNeverWaits` | src/workers/generic_worker_main.cpp:209-303 | whatever payloads arrive, a worker never waits and executes exactly the commands that decode and come before the first shutdown and the first command that does not decode |
| `Worker.Instrument.ProcessMessage` | src/workers/generic_worker_main.cpp:209-250 | one turn of the loop is one step of the specification |
| `Worker.Instrument.ExecuteCommand` | src/workers/generic_worker_main.cpp:252-298 | executes, answers, acknowledges and starts waiting as specified |
| `Proxy.HandleResponseBalanced` | src/server/InstrumentWorkerProxy.cpp:268-291 | a response settles its own pending future once; late, repeated and unknown ones change nothing; the statistics keep counting worker answers |
| `Proxy.ResponseSettles` | src/server/InstrumentWorkerProxy.cpp:275-290 | a response to a pending id settles that id with that answer and takes it off the table; exactly one of completed and failed rises, by success; every other future and counter stays |
| `Proxy.SendFailedSettles` | src/server/InstrumentWorkerProxy.cpp:188-194 | a failed send settles its own future with the timeout error unless it was settled before, and touches no other |
| `Proxy.FailAllSettles` | src/server/InstrumentWorkerProxy.cpp:132-145 | every pending future is settled with the reason given, and settled ones keep their values |
| `Proxy.SendFailedBalanced` | src/server/InstrumentWorkerProxy.cpp:179-194 | a failed send settles the future at most once and never replaces a value |
| `Proxy.FailAllBalanced` | src/server/InstrumentWorkerProxy.cpp:132-145 | failing all pending promises sets each once, leaves the settled ones alone and counts none as a worker's answer |
| `Proxy.InstrumentWorkerProxy.Execute` | src/server/InstrumentWorkerProxy.cpp:152-201 | an undisturbed call takes the next id and leaves the promise pending, or settled with the timeout error |
| `Proxy.InstrumentWorkerProxy.HandleResponseMessage` | src/server/InstrumentWorkerProxy.cpp:268-291 | moves the proxy as specified |
| `Proxy.InstrumentWorkerProxy.FailPending` | src/server/InstrumentWorkerProxy.cpp:338-351 | the loop gives every pending promise the error and empties the table |
| `Link.StepKeepsInv` | src/server/InstrumentWorkerProxy.cpp:152-201 | every action of every participant keeps the invariant that ties ids, phases of calls, queues, worker log, replies and futures together |
| `Link.Reachable` | src/server/InstrumentWorkerProxy.cpp:152-291 | that invariant holds in every state of every interleaving |
| `Link.FutureGetsItsOwnAnswer` | src/server/InstrumentWorkerProxy.cpp:268-291 | in every interleaving the future of message k holds the worker's answer to the very command sent as k, or an error made locally, and never another command's answer |
| `Link.ExecutedAtMostOnce` | src/workers/generic_worker_main.cpp:252-298 | a worker executes a message id at most once |
| `Link.ExactlyOnce` | src/server/InstrumentWorkerProxy.cpp:157-198 | every issued id is not yet stored, pending or settled, and only one of these; each promise is set once; completed + failed is the number of futures settled by a worker's answer; no queue exceeds 100 messages |
| `Link.SettledForever` | src/server/InstrumentWorkerProxy.cpp:268-291 | a settled future keeps its value over every continuation of every run |
| `Link.Conservation` | src/ipc/SharedQueue.cpp:28-34 | while the worker runs, the commands its queue accepted are, in order, the executed ones followed by those still queued; the worker never waits |
| `Quiescence.HandedExactly` | src/server/InstrumentWorkerProxy.cpp:157-160 | in every interleaving message k is the k-th command given to `execute`, with its id filled in and nothing else changed |
| `Quiescence.SentExactly` | src/server/InstrumentWorkerProxy.cpp:195-198 | `commands_sent` is the number of commands the queue took, less the calls still on their way to count |
| `Quiescence.RunningExactly` | src/workers/generic_worker_main.cpp:209-256 | the worker runs if and only if it was not killed and has read neither a shutdown nor an undecodable command |
| `Quiescence.ReceiveReplies` | src/workers/generic_worker_main.cpp:281-284 | a command that is executed leaves to send exactly its response under its id and then, if it has a token, its acknowledgement |
| `Quiescence.OutboxAlways` | src/workers/generic_worker_main.cpp:281-333 | in every state of every run what the worker has still to send is the rest of these replies, in this order |
| `Quiescence.ListenerSettles` | src/server/InstrumentWorkerProxy.cpp:268-291 | handling a decodable response for a pending id settles that id with the logged answer |
| `Quiescence.EverythingAnswered` | src/server/InstrumentWorkerProxy.cpp:152-291 | if no worker died or timed out, then in every interleaving, once the link is at rest, every command its queue accepted was executed and its future holds the worker's answer to it |
| `Quiescence.EverythingSettled` | src/server/InstrumentWorkerProxy.cpp:152-201 | and once all calls have returned every future ever issued is set: by that answer if the queue took the command, by the timeout error if it did not |
| `Gating.StreamAlways` | src/workers/generic_worker_main.cpp:209-298 | in every interleaving the worker reads the messages in the order they were sent, and its log is that of the worker loop run on what it has read |
| `Gating.ExecutedExactly` | src/workers/generic_worker_main.cpp:217-281 | a message the worker has read was executed if and only if it carries a command that decodes |
| `Gating.GateExactly` | src/SerializedCommand.cpp:7-37 | in every interleaving nothing is executed between a command handed over as a barrier and its SYNC_CONTINUE if and only if, of the messages that have arrived, the server sent no decodable command between them |
| `Gating.GateFails` | src/SerializedCommand.cpp:7-37 | for any barrier command and any next command, a run that executes both though no SYNC_CONTINUE was ever sent |
| `Crashing.CrashExactly` | src/server/InstrumentWorkerProxy.cpp:268-273 | in every interleaving an action ends the listener if and only if it handles the answer of an execution whose value is not finite |
| `Crashing.CrashNeedsAnswer` | src/server/InstrumentWorkerProxy.cpp:268-273 | the listener is gone only if the worker logged such an answer |
| `Crashing.CrashIsFinal` | src/server/InstrumentWorkerProxy.cpp:268-273 | after that, whatever the worker process still does, no future is settled, no command issued and nothing sent in any continuation |
| `Crashing.ListenerDies` | src/server/InstrumentWorkerProxy.cpp:268-273 | a run with one command and such an answer: the listener is gone and the future stays pending in every continuation |
| `Scheduler.AlwaysSafe` | src/server/JobManager.cpp:51-313 | in every run, bad pops included: the queue holds queued jobs once each, and active set, monitors and loop agree |
| `Scheduler.Reachable` | src/server/JobManager.cpp:51-313 | the whole invariant, conservation included, in every run whose peeked jobs are still queued when popped |
| `Scheduler.NoJobLostOrReordered` | src/server/JobManager.cpp:51-161 | started jobs followed by the queue are the submissions in order less those cancelled in the queue; no duplicates; the queue holds exactly the queued jobs |
| `Scheduler.ExitDrainsTheQueue` | src/server/JobManager.cpp:136-139 | when the loop exits every submission was started or cancelled in the queue |
| `Scheduler.Exclusion` | src/server/JobManager.cpp:141-160 | in every run, no measure job is active beside a plain job started before `stop`; the active set holds only measure jobs that are running or canceling |
| `Scheduler.LifeCycleStep` | src/server/JobManager.cpp:107-130 | every action starts jobs as queued, moves them only along queued, running, canceling, completed or failed, or queued, canceled, and never touches a finished job |
| `Scheduler.LifeCycle` | src/server/JobManager.cpp:250-313 | the same for the last step of every run |
| `Scheduler.FinishedForever` | src/server/JobManager.cpp:87-96 | finished jobs stay as they are, and a result once fetched is returned by every later call |
| `Scheduler.ResultOfClosing` | src/server/JobManager.cpp:285-312 | a job closed by a successful end or by its monitor has that result in every continuation; one closed as failed never has a result |
| `Scheduler.ResultExactly` | src/server/JobManager.cpp:87-96 | a job has a result exactly when it is completed, and then some action of the run closed it with that very result |
| `Scheduler.KindIsSubmitted` | src/server/JobManager.cpp:51-69 | a job's type is the one it was submitted with |
| `Scheduler.CancelTells` | src/server/JobManager.cpp:107-130 | `cancel_job` answers true exactly when it changes something: a queued job leaves the queue as canceled, a running one is asked to stop |
| `Scheduler.StartsWhenFree` | src/server/JobManager.cpp:141-160 | a peeked job is started exactly when it is a measure job, no measure job is active, or the manager is stopping; otherwise the loop waits with it |
| `Scheduler.StopIsFinal` | src/server/JobManager.cpp:28-37 | `stop` ends the run for good |
| `Scheduler.PopSafeExactly` | src/server/JobManager.cpp:143-159 | after a wait, popping is defined and conserves the jobs, and keeps the life cycle, if and only if the peeked job is still queued |
| `Scheduler.ConservedExactly` | src/server/JobManager.cpp:143-159 | at the end of any run, started jobs and queue account for the submissions if and only if no pop of the run found its peeked job cancelled |
| `Scheduler.DiscardedNeverRuns` | src/server/JobManager.cpp:143-159 | whenever a pop finds its peeked job cancelled, the job at the front of the queue is discarded and no continuation of the run ever starts it |
| `Scheduler.Mishap` | src/server/JobManager.cpp:147-158 | a run in which the peeked job was cancelled: the pop revives it and discards a different job, which no continuation starts |
| `Scheduler.JobManager.SubmitJob` | src/server/JobManager.cpp:51-69 | takes a new id, records the job as queued and appends it |
| `Scheduler.JobManager.Cancel` | src/server/JobManager.cpp:107-130 | removes a queued job, marks a running one, refuses otherwise, and answers accordingly |
| `Scheduler.JobManager.Find` | src/server/JobManager.cpp:114-116 | the first position of the job in the queue, or its end |
| `Scheduler.JobManager.GetJobResult` | src/server/JobManager.cpp:87-96 | the result of a completed job and nothing else |
| `Scheduler.JobManager.PeekSection` | src/server/JobManager.cpp:136-160 | peeks the head and either waits with it or pops and starts it |
| `Scheduler.JobManager.WakeSection` | src/server/JobManager.cpp:147-159 | one wake-up: goes on waiting, or drops the front of the queue and starts the peeked job |
| `Scheduler.JobManager.FinishSection` | src/server/JobManager.cpp:285-298 | the closing step of a plain job, of which `Scheduler.ResultOfClosing` says that success completes it with its result and anything else fails it |
| `Scheduler.JobManager.FailMeasureSection` | src/server/JobManager.cpp:299-312 | the final status of a measure job that was not launched, which also leaves the active set |
| `Scheduler.JobManager.MonitorSection` | src/server/JobManager.cpp:252-264 | the monitor stores result and status and removes the job from the active set |
| `Context.PopulateFaithful` | src/server/RuntimeContext.cpp:34-71 | a result tells two responses apart exactly when they differ in what it reports: id, success, error, and the buffer or the value |
| `Context.PopulateShows` | src/server/RuntimeContext.cpp:34-71 | field by field: id, success and error are the response's; with large data its buffer and the type "buffer"; otherwise its value and the type by kind, with count and element type for arrays; instrument, verb and parameters stay |
| `Context.SpecNames` | src/server/RuntimeContext.cpp:87-94 | the call's text is the instrument's name, or that name followed by a colon and a channel, and the name holds no colon |
| `Context.ShownIsSpec` | src/server/RuntimeContext.cpp:336-345 | the name a block displays for a command is the text the script wrote |
| `Context.ResultAlignment` | src/server/RuntimeContext.cpp:190-203 | over any sequence of calls, blocks and waits the index lists in token order are exactly the slots taken since the last wait, each token has as many futures as indices, and each slot was made for its future's command, if every lookup of the blocks since that wait succeeded |
| `Context.WaitFillsOwnSlots` | src/server/RuntimeContext.cpp:477-505 | under the same condition, after waiting every slot taken since the last wait holds the answer to the command whose instrument, verb and parameters were stored there; earlier slots are untouched |
| `Context.TokensAlways` | src/server/RuntimeContext.cpp:175-187 | in every run tokens strictly increase, and every future, index and barrier belongs to one of them |
| `Context.WaitLeavesNothing` | src/server/RuntimeContext.cpp:520-531 | after a wait no barrier the context registered and no entry of its tables is left |
| `Dispatching.BlockDispatch` | src/server/RuntimeContext.cpp:276-361 | every registered instrument is sent the block's commands for it in call order, or one NOP if it has none, all with the new token and exactly the last one barrier-marked; an instrument whose worker is not found, or that is not listed, is sent nothing |
| `Dispatching.ForExactly` | src/server/RuntimeContext.cpp:288-292 | the commands grouped under an instrument are exactly those at its positions, in order |
| `Dispatching.ServedInOrder` | src/server/RuntimeContext.cpp:294-296 | the instruments are served in the order of the registry's list |
| `Dispatching.CallDispatch` | src/server/RuntimeContext.cpp:163-205 | a call to a known instrument sends its command alone under a new token, marked, takes an empty slot for it and records future and index; any other call changes nothing |
| `Dispatching.OpensBarrier` | src/server/RuntimeContext.cpp:175-187 | a new token is the last in order and has a barrier, and a list to release, over exactly the listed instruments; other tokens keep theirs |
| `Dispatching.BarriersExactly` | src/server/RuntimeContext.cpp:276-286 | in every run the registered barriers are exactly those of the open tokens |
| `Dispatching.PairedExactly` | src/server/RuntimeContext.cpp:308-356 | a block leaves as many futures as slots for every token if and only if every single lookup it made succeeded |
| `Dispatching.OwnSlotsExactly` | src/server/RuntimeContext.cpp:308-356 | in every run, a wait leaves every slot taken since the last one with the answer to its own command if and only if every lookup of the blocks since then succeeded |
| `Dispatching.AnswerInTheWrongSlot` | src/server/RuntimeContext.cpp:316-321 | a block in which one instrument is gone: the other's answer lands in the slot made for the missing one |
| `Placing.CountedAlways` | src/server/RuntimeContext.cpp:190-200 | in every run, whatever the lookups, the indices since the last wait in token order are exactly the slots taken since then |
| `Placing.WaitWrites` | src/server/RuntimeContext.cpp:482-500 | a wait writes the answer of the i-th future of a token into the i-th index of that token, and nothing overwrites it |
| `Placing.NoneMisplacedExactly` | src/server/RuntimeContext.cpp:308-356 | in every run, whatever the answers are, each one lands in the slot taken for its own command if and only if no block since the last wait had a failed lookup before a successful one |
| `Releasing.ReleaseSafety` | src/server/RuntimeContext.cpp:477-532 | over the log of any sequence of calls, blocks and waits: SYNC_CONTINUE for a token is sent only after the future of every command ever sent for it or an earlier token is settled, and per instrument the released tokens strictly increase, so none is released twice |
| `Releasing.WaitSettlesAll` | src/server/RuntimeContext.cpp:482-505 | after a wait the future of every command ever sent is settled |
| `Releasing.WaitReleasesExactly` | src/server/RuntimeContext.cpp:507-518 | a wait sends SYNC_CONTINUE for exactly the open tokens, to exactly their instruments that are still there |
| `Releasing.WaitClearsExactly` | src/server/RuntimeContext.cpp:520-526 | a wait clears the barriers of exactly the open tokens |
| `RuntimeContexts.RuntimeContext.Call` | src/server/RuntimeContext.cpp:144-206 | a call is buffered inside a block, dropped for an unknown instrument, and otherwise gets a token over all instruments, a slot and a future |
| `RuntimeContexts.RuntimeContext.OpenBarrier` | src/server/RuntimeContext.cpp:175-184 | the next token, registered over all instruments and put last in the order |
| `RuntimeContexts.RuntimeContext.Parallel` | src/server/RuntimeContext.cpp:249-361 | a nested block is refused, one that throws or makes no call dispatches nothing, any other is dispatched as specified |
| `RuntimeContexts.RuntimeContext.DispatchBuffer` | src/server/RuntimeContext.cpp:288-358 | the nested loops take a slot, look the worker up and send, command by command, as specified |
| `RuntimeContexts.RuntimeContext.Group` | src/server/RuntimeContext.cpp:288-292 | commands by instrument, each group in call order, and no empty group |
| `RuntimeContexts.RuntimeContext.ProcessTokensAndWait` | src/server/RuntimeContext.cpp:477-532 | fills the results, clears the barriers, forgets the tokens, and appends to the log, as they happen, each get that returned, each SYNC_CONTINUE sent and each clearing, in the order release safety is proved for |
| `RuntimeContexts.RuntimeContext.ProcessToken` | src/server/RuntimeContext.cpp:478-527 | one token: its gets, then its sends, then the clearing, in this order in the log |
| `RuntimeContexts.RuntimeContext.SettleFutures` | src/server/RuntimeContext.cpp:482-505 | waits for the token's futures in order, logs each and fills their slots |
| `RuntimeContexts.RuntimeContext.Release` | src/server/RuntimeContext.cpp:507-518 | sends, and logs, SYNC_CONTINUE once to each participant that is still there |
| `RuntimeContexts.RuntimeContext.ClearToken` | src/server/RuntimeContext.cpp:520-526 | clears the token's barrier and logs it |
| `EndToEnd.AwaitedIsTruthful` | src/server/InstrumentWorkerProxy.cpp:152-201 | what waiting for a future gave is the worker's answer to that very command or one of the three errors the server makes itself |
| `EndToEnd.ResultsAreTruthful` | src/server/RuntimeContext.cpp:477-505 | after any script and its wait, whatever the interleaving on the links, every slot names one command and shows, field by field, what that instrument's plugin answered to it, or the error the server made for that outcome |
| `EndToEnd.NopSucceeds` | src/workers/generic_worker_main.cpp:256-267 | a worker's answer to a barrier NOP is a success without value, whatever the plugin |
| `Barriers.BarrierSafety` | src/server/RuntimeContext.cpp:477-518 | for any script, any number of links and any interleaving: when SYNC_CONTINUE for a token is on some queue, every command ever sent for it or an earlier token, to whatever instrument, has been executed there, or its future holds an error of the server |
| `Scripts.SinceWaitSegmented` | src/server/RuntimeContext.cpp:288-358 | between two waits an instrument is sent whole batches, and a command is barrier-marked exactly when it is the last one with its token |
| `Scripts.ScriptGate` | src/server/RuntimeContext.cpp:276-361 | when all a script sent to an instrument since its last wait has arrived, nothing was executed between a barrier and its release if and only if all of it belongs to one token |
| `Templates.UnparseScan` | plugins/visa/visa_plugin.c:38-120 | the pieces of the one-pass scan, written one after the other, are the template |
| `Templates.ScanIsTheReading` | plugins/visa/visa_plugin.c:38-120 | the scan is the only reading of a template in which a name stops at the first closing brace and an opening brace is literal only if none follows |
| `Templates.FillIsRender` | plugins/visa/visa_plugin.c:92-111 | the bounded expansion equals the one-pass substitution if and only if that fits |
| `Templates.LookupFirst` | plugins/visa/visa_plugin.c:50-53 | the value found is that of the parameter at the least index with that name, and none is found only if there is none |
| `Templates.RenderTexts` | plugins/visa/visa_plugin.c:38-120 | one-pass substitution is the concatenation of what the pieces stand for: a character for itself, a placeholder for the text of its first parameter, or for itself if it has none |
| `Templates.FillGreedy` | plugins/visa/visa_plugin.c:92-119 | the bounded output is these texts in order, leaving out exactly those that do not fit into the room left |
| `Templates.FindMatchIsLeftmost` | src/SchemaValidator.cpp:244-249 | the match found is the leftmost one of the placeholder expression, and none is found only if there is none |
| `Templates.ScannersAgree` | src/SchemaValidator.cpp:244-259 | for every template the validator collects exactly the non-empty names the plugin looks up, in the same order |
| `Templates.AcceptedIsFullyExpanded` | src/SchemaValidator.cpp:214-268 | an accepted template with a value for every allowed name and enough room is expanded in full: the output is the texts of its pieces, and every non-empty placeholder is replaced by the value of its first parameter |
| `Templates.ShortTemplatesFit` | plugins/visa/visa_plugin.c:43-47 | templates of up to 127 characters never overrun the local name buffer |
| `Templates.ValidateTemplate` | src/SchemaValidator.cpp:214-268 | accepts exactly when every name is allowed and the group's name occurs; reports exactly the offending names and the missing group |
| `Templates.SubstituteTemplate` | plugins/visa/visa_plugin.c:32-123 | the output is the bounded expansion, terminated, and every write, terminators of copied values included, stays inside the buffers |
| `Templates.ReplaceHole` | plugins/visa/visa_plugin.c:42-111 | the first parameter of that name, or the placeholder itself |
| `Templates.FindParam` | plugins/visa/visa_plugin.c:50-101 | the loop finds the first parameter of that name, copied through the local buffer |
| `Channels.UniqueKeepsFirsts` | src/template_expander.cpp:35-48 | deduplication keeps exactly the first entry of each name, in order |
| `Channels.UniqueNames` | src/template_expander.cpp:38-47 | its result has no name twice and loses no name |
| `Channels.EntryNameParts` | src/template_expander.cpp:21-22 | a generated name is the group, the channel's numeral, an underscore and the suffix |
| `Channels.NamesDiffer` | src/template_expander.cpp:21-22 | within a group, different channels or suffixes without underscore have different names |
| `Channels.GroupEntryAt` | src/template_expander.cpp:18-30 | channel by channel and type by type, the entry at each place has that name and the type's kind, role, description and unit |
| `Channels.CheckExact` | src/SchemaValidator.cpp:45-76 | the check reports nothing if and only if every group has an entry for every channel and type |
| `Channels.ReportsAreTrue` | src/SchemaValidator.cpp:60-72 | every report names the group, channel, suffix and expected name of an entry that is missing |
| `Channels.ReportsAreComplete` | src/SchemaValidator.cpp:60-72 | every missing entry is reported |
| `Channels.ToolSatisfiesCheck` | src/template_expander.cpp:7-48 | for every document the expanded and deduplicated result passes the check |
| `Channels.ToolKeepsOriginals` | src/template_expander.cpp:7-48 | the document's own entries come first and win over generated ones of the same name |
| `Channels.ToolIdempotent` | src/template_expander.cpp:7-48 | running the tool again changes nothing |
| `Channels.ExpandChannelGroups` | src/template_expander.cpp:7-33 | the nested loops append the specified entries in order |
| `Channels.DeduplicateIo` | src/template_expander.cpp:35-48 | the loop with its set of seen names is the specified deduplication |
| `Channels.ValidateIo` | src/SchemaValidator.cpp:45-76 | the nested loops report the specified missing entries in order |
| `GateOrder.JoinSplit` | src/SchemaValidator.cpp:287-297 | joining the parts gives back the text, less one final semicolon if it ended in one |
| `GateOrder.SplitJoin` | src/SchemaValidator.cpp:287-297 | splitting undoes joining if and only if the last part is not empty |
| `GateOrder.SplitIsProper` | src/SchemaValidator.cpp:290-295 | no part contains a semicolon |
| `GateOrder.SplitSemicolon` | src/SchemaValidator.cpp:287-297 | the loop computes that split |
| `GateOrder.CentreByParity` | src/SchemaValidator.cpp:409-432 | Barrier (Plunger Barrier)* as a grammar is the test by parity of positions |
| `GateOrder.ValidateOrder` | src/SchemaValidator.cpp:373-438 | no error exactly for Ohmic Reservoir Barrier (Plunger Barrier)* Reservoir Ohmic; the positions named are exactly the misplaced ones of the centre |
| `Text.StampedIdsDiffer` | src/server/JobManager.cpp:40-49 | two different counters give different identifiers, whatever the clock reads |
| `Text.StampedIdInjective` | src/server/JobManager.cpp:40-49 | an identifier determines both the clock reading and the counter |
| `Buffers.IdsNeverRepeat` | src/ipc/DataBufferManager.cpp:211-221 | no two creations in any run return the same identifier |
| `Buffers.PresentExactly` | src/ipc/DataBufferManager.cpp:286-323 | in every history a buffer is in the table exactly while 1 + gets - releases has been positive at every moment since its creation, with no clear and no release that brought it to a multiple of 2^32; its count is that balance modulo 2^32 |
| `Buffers.BalanceDecides` | src/ipc/DataBufferManager.cpp:286-323 | presence is the same as a positive balance with no clear if and only if no release has brought the balance of a living buffer to a positive multiple of 2^32 |
| `Buffers.GoneWhileHeld` | src/ipc/DataBufferManager.cpp:294-322 | a history in which the buffer is gone while the balance is 2^32 |
| `Buffers.SizesAlwaysRight` | src/ipc/DataBufferManager.cpp:234-271 | in every run each entry records its element count times its element size, modulo the width of `size_t` |
| `Buffers.ElementSizes` | include/instrument-server/ipc/DataBufferManager.hpp:52-69 | the sizes of the element types |
| `Buffers.MemoryExact` | src/ipc/DataBufferManager.cpp:335-342 | the reported memory is the sum of count times element size over the present buffers whenever that fits `size_t` |
| `Buffers.DataBufferManager.CreateBuffer` | src/ipc/DataBufferManager.cpp:223-278 | a new entry with one reference, or nothing for an invalid type or a refused allocation |
| `Buffers.DataBufferManager.GetBuffer` | src/ipc/DataBufferManager.cpp:286-296 | one more reference if the buffer is there |
| `Buffers.DataBufferManager.ReleaseBuffer` | src/ipc/DataBufferManager.cpp:308-323 | one reference less, and removal at zero |
| `Buffers.DataBufferManager.TotalMemoryUsage` | src/ipc/DataBufferManager.cpp:335-342 | the loop's wrapped sum is the specified one, in whatever order it visits the entries |

## Left out

- Lua, YAML and JSON text, and logging: library code; scripts are arbitrary sequences of calls and blocks, and JSON is a tree.
- Text encoding: strings are taken as valid UTF-8, since printing a JSON text with any other string throws.
- Payloads over 4096 bytes: the sender truncates them; the model carries every payload whole.
- The HTTP server, the command line, the command handlers, process spawning and dynamic loading: input/output and thin dispatch.
- src/ipc/WorkerProtocol.cpp: not built.
- Clocks, timeouts and liveness: a timed send or wait may succeed or fail at any time; worker sends may be dropped, so no progress is claimed. `stop` does not notify `measure_cv_`, so a loop waiting there may wait for ever.
- Object lifetimes: objects live as long as they are used, and `execute` is not called after the queue was reset.
- Calls outside enqueue mode (`send_command`, `execute_parallel_buffer`) and `clear_results`: the same steps with fewer tables.
- Argument conversion and channel-number parsing in `call`: a call arrives with its parameters, and a malformed one is not a call.
- Conversions to and from the plugin's C structures and number formatting by `snprintf`: a plugin sees the command and answers with a response, a parameter has its text.
- C strings in templates: a string is its characters before the terminator.
- Acceptance of booleans as integers when numbers are read, and conversion of negative fractions to unsigned numbers: only numbers are accepted, and they are truncated before they wrap.
- Iteration order of hash and ordered sets: left open, any order.
- Acknowledgements at the registry's coordinator, and who sends SYNC_CONTINUE and SHUTDOWN: in `Link` any thread may send them at any time; the coordinator is proved on its own for any sequence of operations.
- Heartbeat contents: only that they occupy the reply queue.
- Widths of message ids, tokens and job counters (64 bits) and of channel numbers (`int`): unbounded here. Reference counts and byte sizes wrap as in the source.
- The validator's checks for missing fields: one branch each.
- Locking inside a class method: a method is one lock section or a thread's uninterrupted sections; interleaving is the subject of `Link` and `Scheduler`. The copy of the job record the loop takes is merged into the section before it, since a job's type never changes, and the cancellation checks of a sleeping job into its closing section.
- Templates.SubstituteTemplate: assumes placeholder names and values that fit the local 128-character buffers, which covers every template of up to 127 and every string value of up to 126 characters; beyond that the source leaves the buffers' bounds, and its output is not defined.
- Templates.ReplaceHole: assumes the same of the placeholder's name and of the values.
- Templates.FindParam: assumes the same of the values.
- Context.ResultAlignment: assumes that every lookup of the blocks since the last wait succeeded; `Dispatching.OwnSlotsExactly` shows that this is exactly what is needed.
- Context.WaitFillsOwnSlots: assumes the same; `Dispatching.OwnSlotsExactly` is the full statement.
- Releasing.ReleaseSafety: takes the instruments each wait released a token to, and their order, from the run; that they are those `ProcessTokensAndWait` found is part of its contract.
- EndToEnd.ResultsAreTruthful: is about waits that return, so the awaited futures are settled, and about runs in which every lookup of the blocks since the last wait succeeded.
- Barriers.BarrierSafety: takes the moments of the context's log and the links at those moments as given, with a `get` returning only when its future is set and SYNC_CONTINUE sent by this context's releases alone; several contexts use the same token numbers.
- Scripts.ScriptGate: is about scripts whose lookups succeeded since the last wait, in a registry that lists no name twice, and whose commands decode.
