# Insolar virtual executor: a Dafny model

This project models the parts of the Insolar node where many goroutines share
state, and the byte-level code whose correctness rests on small arithmetic, and
proves what they promise.

**A. Executing requests (`logicrunner`, `contractrequester`).** A node executes
the requests of an object through one *execution broker* per pulse. Handlers
tell the broker who executes the object; a fetcher streams requests from the
ledger to one feeder goroutine; one mutable and thirty immutable readers execute
them; and the end of the pulse can fall between any two steps.

| files | what |
|---|---|
| `ExecutionRegistries`, `ExecutionBrokers`, `StateStorages` | the objects: an execution registry, a broker, the table of both. Each broker method is one lock section and is proved equal to a function of module `Broker` |
| `Broker` | the lock sections as functions on a broker state and a registry |
| `BrokerSystem` | one broker with all its goroutines as an interleaving machine; the steps apply the functions of `Broker` |
| `BrokerLifecycle`, `AtMostOnce`, `PendingFinished`, `NothingDropped`, `Notifications`, `Ordering` | one invariant each, kept by every step |
| `BrokerRuns`, `LedgerFlag`, `StartCalls`, `WindingDown` | the theorems about whole runs of one broker: executions and messages, the ledger flag, calls of startProcessor, the end of a processor |
| `Handoff` | the message a pulse sends about an object, and what the next executor makes of it: a theorem about two runs |
| `StorageSystem`, `StoragePulse`, `StorageScan` | all brokers and registries of a node, with `OnPulse` and `IsEmpty` as the loops they are |
| `Fetching`, `RoundProtocol`, `RequestFetchers` | one fetch round against any ledger, and against a faithful one |
| `Matching`, `ResultMatchers` | pairing late results with the nodes that still execute the parent request |
| `ContractRequesters`, `WaiterSystem` | the table of callers that wait for a result |
| `OutgoingSenders`, `OutgoingSystem` | the actor that bounds the goroutines sending outgoing requests |

**B. The wire codec (`insolar/node.pb.go`).** `Varint`, `Wire`, `NodeCodec`
describe the format of the Protocol Buffers Encoding specification (sections
"Base 128 Varints", "Message Structure" and "Length-Delimited Records") as
grammar, printer and reader; `NodeMessages` holds the objects `Node` and
`NodeList`, whose loops over byte arrays are proved to do exactly that, and
`WireFormat` says what the bytes are without the printers and readers.
`References` is the 64-byte record reference a node carries.

**C. Bits and text (`longbits`, `certificate`).** `BitBuilders` is the
sentinel-bit accumulator, `BitStrings` the byte-skipping bit search,
`Certificates` the canonical network text. `Words` holds Go's
integer widths, `Collections` counts elements.

## How concurrency is modelled

A *run* is a sequence of states and steps: each step is enabled in its state and
leads to the next. A goroutine is a program counter in the state. One step is
one section under a lock, one channel operation, or one choice of the
environment (what the ledger answers, whether a message can be built, when a
timeout fires, when the pulse ends). Every theorem named "for every run" holds
for all interleavings. Records kept only for stating theorems (`History`) never
influence a step, and the theorems of `BrokerRuns` speak of steps and states
themselves; `RecordsGrow` and `LogGrows` tie the records to the steps.

A handler works on a broker only while its pulse is open
(`logicrunner/logicrunner.go:234-262`: the write controller is closed and
drained before the brokers learn of the pulse); goroutines started before go on.
A registry may be shared with brokers of earlier pulses. `BrokerSystem` assumes
that no other broker registers anything while its own is open; this is a theorem
of `StorageSystem` (`OpenBrokersAreInTheTable`). In turn `StorageSystem` lets
every lock section of a broker but the end of its pulse do anything to the
broker except close or open it, which `PendingMovesUp` justifies.

## Where the code does not do what one would expect

* `AppendN` (`longbits/bit_builder.go:79` and `:109`) gives n appended bits
  exactly when nothing is appended, the builder is byte-aligned, or the n bits
  exactly fill the current byte (`BitBuilders.ExactFit`); `AppendN` states the
  equivalence and `InexactExample` shows a failing input.
* `fetch` resets its skip list beyond 300 entries, so against more than 300
  pendings a round never ends; `RoundEnds` states the equivalence, and
  `EndlessRound` shows 301 requests and a ledger for which it happens.
* `IsEmpty` reads one registry after another while brokers keep registering. Its
  answer "empty" can be relied on exactly when the table holds no broker at the
  start of the scan (`len(ss.brokers) == 0`); `EmptyIsReliable` states the
  equivalence, and `MissedInARun` is a run in which the answer is wrong.
* `Unmarshal` into a value that is not fresh merges: zero fields of the message
  leave the receiver's alone, and nodes are appended (`NodeMerge`, `ListMerge`).

## Main results

* A request executes at most once in a broker (`ExecutedAtMostOnce`), and none is
  dropped (`CheckedIsLetThrough`, `DeliveredIsNotDropped`, `NoDeadlock`); mutable
  ones one at a time and in the order of first delivery (`ExecutionDiscipline`,
  `StartsInDeliveryOrder`).
* The pending state only rises, and why it is what it is (`PendingNeverFalls`,
  `WhyPending`, `LedgerAnswerCounts`); no notification is lost
  (`NoNotificationLost`, `AnsweredOrPassedOn`), and what the ledger flag says
  (`WhyLedgerFlag`, `FoundIsPassedOn`, `NothingIsPassedOn`); PendingFinished is announced, and not too early
  (`AnnouncedInTheEnd`, `AnnouncesOnlyAfterPulse`).
* One handoff releases an unconfirmed pending (`UnconfirmedPendingIsReleased`),
  and makes the receiver wait for an executing one (`ExecutingIsHandedOn`).
* Nothing running is ever lost (`NothingIsLost`, `RetiredStaysEmpty`), and when
  `IsEmpty` can be relied on (`EmptyIsReliable`).
* A fetch round is exact (`RoundIsExact`), when it ends (`RoundEnds`), and what
  it does against any ledger (`RoundFollows`, `NilMeansNoPendings`).
* Results are matched whatever the order (`FatesAreRight`, `ExactlyThePairs`,
  `Conservation`) and never loop (`ForwardedAtMostOnce`); waiting callers get
  their own result (`ReceivesItsOwn`, `ResultsAreConserved`,
  `ResultFindsItsWaiter`); goroutines are bounded (`GoroutineBound`).
* The codec round trips (`NodeRoundTrip`, `ListRoundTrip`), skips exactly
  (`SkipExact`) and ignores unknown fields (`NodeIgnoresUnknown`,
  `ListIgnoresUnknown`).
* The bit builder is a bit sequence (`BuildAndUnpack`, `AppendN`), the bit search
  a linear scan (`SearchBit`), and the network text canonical (`Canonical`).

## Model

The rows marked *link* at the end tie each method of `ExecutionBroker` to the
function of module `Broker` that the machines use; those marked *section* are
facts about a single one of these functions. The results are the rows before.

| member | source | states |
|---|---|---|
| ExecutionRegistries.ExecutionRegistry.Register | logicrunner/executionregistry/execution_registry.go:74-86 | registers a request, or fails and changes nothing exactly if it is there already |
| ExecutionRegistries.ExecutionRegistry.Done | logicrunner/executionregistry/execution_registry.go:88-100 | removes the request and says whether it was there |
| ExecutionRegistries.ExecutionRegistry.IsEmpty | logicrunner/executionregistry/execution_registry.go:63-72 | true exactly if nothing is registered |
| ExecutionRegistries.ExecutionRegistry.OnPulse | logicrunner/executionregistry/execution_registry.go:103-122 | nothing for an empty registry, else one StillExecuting message that names every registered request once |
| BrokerLifecycle.LifecyclePreserved | logicrunner/executionbroker.go:169-268 | every step keeps: at most one processor, present exactly if active, only in NotPending until the pulse; work exists only with a processor; confirmed exactly if a StillExecuting was accepted |
| BrokerLifecycle.PendingMovesUp | logicrunner/executionbroker.go:501-564 | no step but the pulse lowers the pending state; only the pulse closes a broker, nothing reopens it |
| BrokerRuns.Reachable | logicrunner/executionbroker.go:169-492 | every state of every run satisfies all invariants |
| BrokerRuns.PendingNeverFalls | logicrunner/executionbroker.go:501-564 | for every run: before its pulse a broker only moves upward from Unknown over InPending to NotPending |
| BrokerRuns.StartsInNotPending | logicrunner/executionbroker.go:178-191 | for every run: a processor starts at most once, in NotPending, before the pulse, with thirty immutable readers and one mutable |
| StartCalls.ReturnedCallLeavesProcessor | logicrunner/executionbroker.go:169-196 | for every run: once a call of startProcessor made in a broker that is then NotPending has returned, there is a processor |
| StartCalls.FinishedPendingStarts | logicrunner/executionbroker.go:545-557 | for every run: a PendingFinished that is accepted makes the broker NotPending and calls startProcessor, which leaves a processor |
| StartCalls.QuestionIsAnswered | logicrunner/executionbroker.go:570-604 | for every run: unless the ledger failed, a call that has got past its question leaves no broker in PendingUnknown |
| StartCalls.LedgerAnswerCounts | logicrunner/executionbroker.go:585-603 | for every run: the ledger's answer decides the pending state of a broker that still knows nothing, and no other's |
| StartCalls.OneQuestionAtATime | logicrunner/executionbroker.go:575-576 | for every run: the mutex is held exactly while one call asks the ledger or has its answer in hand |
| BrokerRuns.PendingChanges | logicrunner/executionbroker.go:135-603 | exactly which steps make a broker NotPending, and which end its ignorance |
| BrokerRuns.WhyPending | logicrunner/executionbroker.go:135-603 | for every run: before its pulse a broker is NotPending if and only if an earlier step released it, and Unknown if and only if none informed it |
| BrokerRuns.ActivityReleases | logicrunner/executionbroker.go:466-468 | for every run: a pulse that finds a non-empty finished list and an empty registry reports NotPending |
| AtMostOnce.FeederPipeline | logicrunner/executionbroker.go:214-248 | a feeder step adds a request to the pipeline exactly if the table did not know it, and loses none |
| AtMostOnce.ReaderPipeline | logicrunner/executionbroker.go:255-267 | a request leaves the pipeline exactly when a reader checks it |
| AtMostOnce.OncePreserved | logicrunner/executionbroker.go:214-248 | every step keeps: no request passed twice, and before the pulse it is in flight or passed at most once and only if the table knows it |
| BrokerRuns.ExecutedAtMostOnce | logicrunner/executionbroker.go:360-378 | for every run: no two steps let the same request through canProcessTranscript, whatever the fetcher delivers again and wherever the pulse clears the table |
| NothingDropped.CompletePreserved | logicrunner/executionbroker.go:214-267 | every step keeps: until the pulse, with a registry of the broker's own, a request the table knows is on its way or has started, exactly once |
| BrokerRuns.CheckedIsLetThrough | logicrunner/executionbroker.go:360-378 | for every run: until the pulse a reader lets a request through exactly if nothing has registered it, and always with a registry of the broker's own, whatever else executes |
| BrokerRuns.DeliveredIsNotDropped | logicrunner/executionbroker.go:214-267 | for every run: until the pulse, with a registry of the broker's own, each delivered request is about to be entered, on its way, or started, in one of these places and once |
| PendingFinished.OwnsPreserved | logicrunner/executionbroker.go:360-393 | every step keeps: an executing request is registered and has one reader; an unshared registry holds nothing else |
| PendingFinished.AccountedPreserved | logicrunner/executionbroker.go:380-393 | every step keeps: before the pulse each request let through is executing or on the finished list, exactly as often |
| BrokerRuns.DoneNeverFails | logicrunner/executionbroker.go:386-389 | for every run: a reader that finishes a transcript finds it in the registry |
| BrokerRuns.PastExecutionReleases | logicrunner/executionbroker.go:455-489 | for every run: a broker that ever let a request through and runs nothing at its pulse reports NotPending |
| PendingFinished.AnnouncedPreserved | logicrunner/executionbroker.go:309-324 | every step keeps: after a pulse that found executions, PendingFinished was attempted or a reader is still to look |
| PendingFinished.SentOnlyAfterPulse | logicrunner/executionbroker.go:398-430 | a step sends PendingFinished only after the pulse and with an empty registry |
| BrokerRuns.AnnouncesOnlyAfterPulse | logicrunner/executionbroker.go:398-430 | for every run: no PendingFinished is even built before the pulse ended or while something is registered |
| BrokerRuns.AnnouncedInTheEnd | logicrunner/executionbroker.go:309-324 | for every run: if the pulse found executions in a registry of the broker's own, then once no reader is busy some later step built PendingFinished, with an empty registry |
| Notifications.QuietAndReported | logicrunner/executionbroker.go:216-238 | if no notification came since the last round started and that round reported, then every notification is answered |
| Notifications.NoticesPreserved | logicrunner/executionbroker.go:127-238 | every step keeps: no token means no notification since the last round, a waiting report belongs to the last round, and the empty flag means all notifications are answered |
| BrokerRuns.NoNotificationLost | logicrunner/executionbroker.go:127-166 | for every run: if the pulse finds LedgerIsEmpty, every earlier notification was followed by the start of a fetch round and then by its "no more" |
| BrokerRuns.AnsweredOrPassedOn | logicrunner/executionbroker.go:472-489 | for every run: each notification before a pulse was answered by a later round, or the pulse sends exactly one report and it says there are more requests |
| Notifications.RoundsAreCaused | logicrunner/executionbroker.go:216-228 | for every run: rounds started and to come are covered by notifications, with one for the start: without a notification the ledger is not asked again |
| LedgerFlag.FreshMeansNothingFound | logicrunner/executionbroker.go:231-235 | for every run: the feeder's two counters say exactly that no report was passed on before and nothing was delivered |
| LedgerFlag.WhyLedgerFlag | logicrunner/executionbroker.go:127-166 | for every run: before its pulse a broker believes the ledger empty if and only if nothing ever raised the flag, or nothing did since a first report with nothing found |
| LedgerFlag.FoundIsRemembered | logicrunner/executionbroker.go:158-166 | for every run: after a report without a token, with something found before it, the flag is never LedgerIsEmpty again before the pulse |
| LedgerFlag.FoundIsPassedOn | logicrunner/executionbroker.go:472-489 | for every run: and the pulse sends one report that says there are more requests |
| LedgerFlag.NothingIsRemembered | logicrunner/executionbroker.go:148-156 | for every run: after a first report without a token and with nothing found the flag is LedgerIsEmpty until the next notification |
| LedgerFlag.NothingIsPassedOn | logicrunner/executionbroker.go:472-477 | for every run: and if nothing was started either, a pulse before that sends no message |
| Ordering.DisciplinePreserved | logicrunner/executionbroker.go:214-267 | every step keeps: mutable requests let through, then those on their way, are first deliveries in delivery order; until the pulse the duplication table holds exactly what was delivered; each queue and reader handles one kind |
| Ordering.AtMostThirtyOne | logicrunner/executionbroker.go:255-267 | at most one mutable and thirty immutable transcripts execute |
| BrokerRuns.ExecutionDiscipline | logicrunner/executionbroker.go:202-267 | for every run and every moment: at most one mutable and thirty immutable transcripts execute |
| BrokerRuns.RecordsGrow | logicrunner/executionbroker.go:214-248 | the records of deliveries and of requests let through are what the steps did, in order |
| BrokerRuns.StartsInDeliveryOrder | logicrunner/executionbroker.go:244-248 | for every run: if mutable a is let through before mutable b, the step that first took a from the fetcher came before the one that first took b, however often either is delivered again |
| WindingDown.WindsDownPreserved | logicrunner/executionbroker.go:270-276 | every step keeps: the feeder stops only after the pulse, closing the feeds; a reader ends only then, with its feed drained |
| WindingDown.NoDeadlock | logicrunner/executionbroker.go:214-276 | for every run: after the pulse some goroutine of the processor can go on until all have ended, and then both feeds are empty |
| StateStorages.StateStorage.UpsertExecutionRegistry | logicrunner/statestorage.go:78-85 | returns the stored registry, or stores a new empty one |
| StateStorages.StateStorage.UpsertExecutionState | logicrunner/statestorage.go:87-107 | returns the stored broker, or stores a new one on the object's registry; nothing else changes |
| StateStorages.StateStorage.GetExecutionState | logicrunner/statestorage.go:109-117 | the stored broker or nil |
| StateStorages.StateStorage.GetExecutionRegistry | logicrunner/statestorage.go:119-127 | the stored registry or nil |
| StateStorages.StateStorage.IsEmpty | logicrunner/statestorage.go:129-143 | true exactly if every stored registry is empty |
| StateStorages.StateStorage.OnPulse | logicrunner/statestorage.go:145-176 | every broker is closed and forgotten; a registry is kept if and only if something executes in it, and unchanged; each object's messages are its broker's followed by its registry's |
| StateStorages.StateStorage.CloseBrokers | logicrunner/statestorage.go:151-163 | the first loop: every broker ends its pulse, and its messages are kept |
| StateStorages.StateStorage.RetireRegistries | logicrunner/statestorage.go:164-173 | the second loop: registries announce what executes, the empty ones are deleted |
| StorageSystem.ListedPreserved | logicrunner/statestorage.go:87-176 | every step keeps: an open broker is in the table, or waits for its pulse to end, on the registry stored for its object |
| StorageSystem.StoredPreserved | logicrunner/statestorage.go:87-163 | every step keeps: the brokers in the table are open |
| StorageSystem.RetiredPreserved | logicrunner/statestorage.go:164-173 | every step keeps: deleted registries, and the one about to be deleted, are empty |
| StorageSystem.JobsPreserved | logicrunner/executionbroker.go:360-393 | every step keeps: what executes is registered, and brokers that share a registry never execute the same request |
| StorageSystem.RegisteredPreserved | logicrunner/executionbroker.go:360-393 | every step keeps: what is registered executes in some broker |
| StorageSystem.OpenBrokersAreInTheTable | logicrunner/statestorage.go:87-107 | for every run: outside a pulse each open broker is the stored one and its registry the stored one; no two open brokers share a registry |
| StorageSystem.RetiredStaysEmpty | logicrunner/statestorage.go:164-173 | for every run: a registry deleted by OnPulse stays deleted, and empty, forever |
| StoragePulse.PulseEnds | logicrunner/statestorage.go:145-176 | the two loops of the machine with nothing in between end where the method does: exactly the busy registries kept, no brokers stored, all stored ones closed |
| StoragePulse.RestExists | logicrunner/statestorage.go:145-176 | from every state of such a pulse it can be brought to its end |
| StorageSystem.NothingIsLost | logicrunner/statestorage.go:129-143 | for every run and every moment: all stored registries are empty if and only if no broker ever created still executes anything |
| StorageScan.SettledScan | logicrunner/statestorage.go:129-143 | with every broker closed, a scan that says "empty" ends with nothing executing |
| StorageScan.MissedStart | logicrunner/statestorage.go:129-143 | with a broker open, a scan can say "empty" while something executes |
| StorageScan.NoneStoredMeansAllClosed | logicrunner/statestorage.go:133-135 | between pulses the table of brokers is empty if and only if every broker ever created is closed |
| StorageScan.EmptyIsReliable | logicrunner/statestorage.go:129-143 | the answer "empty" is right at its return, whatever happens meanwhile, if and only if the table held no broker at its start |
| StorageScan.MissedInARun | logicrunner/statestorage.go:129-143 | a run of five steps from the empty table in which the answer is wrong when it comes |
| Handoff.Present | logicrunner/handle_executorresults.go:38-56 | malformed references fail, a closed pulse cancels, and nothing changes then; otherwise exactly one broker takes the report |
| Handoff.HandleMessage | logicrunner/handle_executorresults.go:58-76 | the broker of the object, new or stored, takes both halves of the report; all others are unchanged |
| Handoff.ReportsAreAccepted | logicrunner/handle_executorresults.go:27-36 | a report without a caller, as a pulse sends it, is accepted for every object |
| Handoff.ReportedPending | logicrunner/executionbroker.go:455-489 | for every run, exactly when a pulse reports InPending (something executes, or a StillExecuting was accepted in InPending), NotPending and PendingUnknown |
| Handoff.ReceiverWaits | logicrunner/executionbroker.go:501-522 | for every run: a receiver that knew nothing and hears InPending is InPending, without a processor, until a releasing step or its pulse |
| Handoff.ExecutingIsHandedOn | logicrunner/executionbroker.go:455-489 | for every pair of runs: an object that executes at the sender's pulse is reported InPending, and its receiver starts no processor before it is released |
| Handoff.ReceiverIsReleased | logicrunner/executionbroker.go:501-522 | for every run: a receiver with an empty registry is NotPending from the report on, until its own pulse |
| Handoff.UnconfirmedPendingIsReleased | logicrunner/handle_executorresults.go:58-76 | for every pair of runs: an unconfirmed pending is reported as NotPending with more requests, and the receiver's call of startProcessor, once returned, has left a running processor |
| Handoff.TwoStepsAreReceive | logicrunner/handle_executorresults.go:68-73 | the handler's two lock sections together are the broker state Present leaves |
| Fetching.NilIsLast | logicrunner/request_fetcher.go:101-167 | against any ledger: nil is emitted only as the last item, exactly when the ledger has no more pendings |
| RoundProtocol.RoundFollows | logicrunner/request_fetcher.go:101-167 | against any world, from any skip list: the order of questions, the skip list of each, what is emitted and forwarded, and the end, told from the answers heard alone; nothing follows an error or an abort |
| RoundProtocol.NilMeansNoPendings | logicrunner/request_fetcher.go:113-121 | nil is emitted if and only if the last answer heard is "no pending request", and is the last thing emitted |
| Fetching.BatchIsExact | logicrunner/request_fetcher.go:124-165 | a batch of distinct unskipped pendings is skipped, and emitted or forwarded, exactly once each |
| Fetching.FaithfulRound | logicrunner/request_fetcher.go:106-167 | a faithful ledger with at most 300 pendings: the round ends within one call per pending and one more, with all of them handled exactly once |
| Fetching.TooManyPendings | logicrunner/request_fetcher.go:109-111 | a faithful ledger with more than 300 pendings: no round, from any skip list, ever ends |
| Fetching.RoundEnds | logicrunner/request_fetcher.go:101-167 | a fresh round against a faithful ledger ends with nil if and only if there are at most 300 pendings |
| Fetching.FaithfulLedgerExists | logicrunner/request_fetcher.go:113-122 | every set of pendings has a ledger that answers faithfully |
| Fetching.EndlessRound | logicrunner/request_fetcher.go:109-111 | 301 requests and a faithful ledger against which the round never ends |
| Fetching.RoundIsExact | logicrunner/request_fetcher.go:101-167 | when it ends, each valid incoming request was emitted once, each valid outgoing one forwarded once, and nothing else |
| RequestFetchers.RequestFetcher.Fetch | logicrunner/request_fetcher.go:101-167 | the loops ask in the lawful order and emit, forward and end as the answers heard call for; nil exactly after "no pending request" |
| RequestFetchers.RequestFetcher.FetchBatch | logicrunner/request_fetcher.go:124-165 | the inner loop handles a batch as the function does, with all its error exits |
| Matching.FatesAreRight | logicrunner/result_matcher.go:53-114 | for every series of events: the maps are the last executors and the waiting responses, and each message is sent as often as responses end up that way |
| Matching.DisjointKeys | logicrunner/result_matcher.go:53-98 | for every series of events: no request has both an executor and a waiting response; responses wait under their own reason |
| Matching.Conservation | logicrunner/result_matcher.go:53-114 | for every series of events: accepted responses = sent + waiting + overwritten + dropped |
| Matching.ExactlyThePairs | logicrunner/result_matcher.go:53-98 | between two Clears, with one executor per request and one response per reason: exactly the pairs of response and announced executor are sent, each once |
| Matching.OrderDoesNotMatter | logicrunner/result_matcher.go:53-98 | two such series with the same events send the same messages |
| Matching.SentOnce | logicrunner/result_matcher.go:116-126 | every message sent is a response that came in with count 0 and a reason, unchanged but for ResendCount 1 |
| Matching.ForwardedAtMostOnce | logicrunner/result_matcher.go:84-88 | across any chain of matchers a response is forwarded at most once |
| ResultMatchers.ResultsMatcher.AddStillExecution | logicrunner/result_matcher.go:53-67 | the loop is one announcement per request, in order, and sends what those send |
| ResultMatchers.ResultsMatcher.AddUnwantedResponse | logicrunner/result_matcher.go:69-98 | is one response event: ignored, sent at once, or kept |
| ResultMatchers.ResultsMatcher.Clear | logicrunner/result_matcher.go:100-114 | empties both maps and counts what is dropped |
| ContractRequesters.ContractRequester.CreateResultWaiter | contractrequester/contractrequester.go:176-193 | a new open channel stands in the table under the request hash |
| ContractRequesters.ContractRequester.HandleCallMethod | contractrequester/contractrequester.go:294-306 | the entry goes and the channel is closed, exactly for a synchronous call |
| ContractRequesters.ContractRequester.HandleRegisterResult | contractrequester/contractrequester.go:308-344 | each outcome exactly when: asynchronous, different hash, timeout, result; only a timeout removes the entry |
| ContractRequesters.ContractRequester.Result | contractrequester/contractrequester.go:346-371 | a result goes into the open, empty channel under its hash, whose entry goes; or to nobody, and nothing changes |
| WaiterSystem.SafePreserved | contractrequester/contractrequester.go:176-371 | every step keeps: table channels are open, empty and under their own key; a caller holds at most one result, its own, and never nil |
| WaiterSystem.ResultNeverBlocks | contractrequester/contractrequester.go:346-371 | for every run: the channel found in the table is open and has room, and is under one key |
| WaiterSystem.ReceivesItsOwn | contractrequester/contractrequester.go:323-334 | for every run: what a caller receives is a result, never nil, with its own request hash |
| WaiterSystem.ReceivesOnce | contractrequester/contractrequester.go:323-334 | for every run: a caller receives at most once |
| WaiterSystem.ResultsAreConserved | contractrequester/contractrequester.go:346-371 | for every run: each result that came in is with one caller or took the unwanted path, as often as it came |
| WaiterSystem.WaitersAreFound | contractrequester/contractrequester.go:176-193 | for every run: a caller whose hash nobody else uses is in the table, or its result in its channel, until it returns |
| WaiterSystem.ResultFindsItsWaiter | contractrequester/contractrequester.go:346-371 | for every run: the first result for such a caller goes to it |
| WaiterSystem.RegisteredResultArrives | contractrequester/contractrequester.go:308-371 | for every run: the first result for the request a caller was told it registered goes to that caller, if nobody else made the same request |
| WaiterSystem.EntriesOfWaiters | contractrequester/contractrequester.go:294-344 | for every run: an entry belongs to a caller that still waits or left by an early error; a result or a timeout leaves none behind |
| OutgoingSenders.OutgoingSenderActorState.Receive | logicrunner/outgoingsender.go:172-211 | rejects exactly at the limit and says so on the channel; otherwise counts one goroutine more |
| OutgoingSenders.OutgoingSenderActorState.Finish | logicrunner/outgoingsender.go:193-202 | one result on the channel, one goroutine less |
| OutgoingSystem.StepsAreReceive | logicrunner/outgoingsender.go:176-203 | the steps of the actor in a row are the method Receive |
| OutgoingSystem.StepsAreFinish | logicrunner/outgoingsender.go:193-202 | the steps of a goroutine in a row are the method Finish |
| OutgoingSystem.CountedPreserved | logicrunner/outgoingsender.go:172-202 | every step keeps: the counter counts the live goroutines, and stays within the limit although check and increment are two operations |
| OutgoingSystem.MailsPreserved | logicrunner/outgoingsender.go:172-202 | every step keeps: a message is refused, in hand, or with one goroutine, which sends one result |
| OutgoingSystem.GoroutineBound | logicrunner/outgoingsender.go:172-202 | for every run: the counter is within 0 and 5000, and equals the live goroutines between messages |
| OutgoingSystem.EveryMessageIsHandled | logicrunner/outgoingsender.go:172-202 | for every run and every moment: received = rejected + in hand + running + finished, and between messages nothing is in hand |
| OutgoingSystem.OneResultEach | logicrunner/outgoingsender.go:172-202 | for every run: a channel gets one result at most, exactly once the message was refused or its goroutine has sent; no send blocks |
| OutgoingSystem.StopIsFinal | logicrunner/outgoingsender.go:204-206 | for every run: nothing is received after the stop message |
| References.LocalRoundTrip | reference/local.go:230-275 | the 32 bytes of a local address give it back |
| References.RoundTrip | reference/global.go:205-254 | the 64 bytes of a reference give it back |
| References.Layout | reference/global.go:205-210 | local before base, each a big-endian word before its hash |
| Varint.RoundTrip | insolar/node.pb.go:311-319 | parsing a printed varint, whatever follows, gives the value and its length, at most ten bytes |
| Varint.ParseStable | insolar/node.pb.go:405-418 | a varint that parses does so whatever bytes follow |
| WireFormat.EncodeIsBase128 | insolar/node.pb.go:311-319 | the printed bytes are the shortest varint with this value, low groups first |
| WireFormat.ParseIsBase128 | insolar/node.pb.go:405-418 | the parser takes the first varint of at most ten bytes, and otherwise says whether it is too long or cut off |
| Varint.NegativeInt32 | insolar/node.pb.go:245-249 | a negative int32, sign-extended, takes ten bytes |
| Varint.Int32Truncation | insolar/node.pb.go:433-446 | and truncating it back gives the int32 |
| Varint.SovNode | insolar/node.pb.go:355-364 | the computed length of a varint is the printed one |
| Varint.EncodeVarintNode | insolar/node.pb.go:311-319 | writes exactly the printed varint, within bounds, and nothing else |
| Varint.DecodeVarint | insolar/node.pb.go:405-418 | the loop of shifts and ors reads the value, length and error the parser defines |
| Varint.OrIsSum | insolar/node.pb.go:413-413 | or-ing a shifted group into bits that are still clear adds it, for every width |
| Varint.OrAddsGroup | insolar/node.pb.go:405-418 | one turn of a decoding loop, on a 32-bit or 64-bit variable: the or of what fits is the sum, modulo the width |
| Wire.SkipExact | insolar/node.pb.go:629-733 | skipping a well-formed field, with groups nested however deep, gives exactly its length, whatever follows |
| Wire.SkipStable | insolar/node.pb.go:629-733 | a successful skip does not depend on what follows |
| Wire.SkipNode | insolar/node.pb.go:629-733 | the skipper ends on every byte string, with the length or error of the specification function, and a success is at least one byte |
| Wire.SkipGroupNode | insolar/node.pb.go:694-722 | the group loop skips nested fields up to the end-group tag |
| Wire.UnknownToken | insolar/node.pb.go:499-515 | a well-formed field with a foreign number is passed over as a whole |
| WireFormat.SkipSizes | insolar/node.pb.go:629-733 | the size of a skipped field of each wire type but the group, for any field number |
| WireFormat.WrongTags | insolar/node.pb.go:399-628 | a known field with a wrong wire type, and an end-group tag, are refused, whatever follows |
| WireFormat.FieldZero | insolar/node.pb.go:419-428 | field number zero is refused |
| WireFormat.ShortBlocks | insolar/node.pb.go:452-484 | a block that does not fit, or holds no whole reference, is refused |
| NodeCodec.NodeMerge | insolar/node.pb.go:399-522 | unmarshalling a marshalled node merges it into any receiver |
| NodeCodec.NodeRoundTrip | insolar/node.pb.go:240-522 | for every node: unmarshalling its bytes into a fresh one gives it back |
| NodeCodec.NodeSize | insolar/node.pb.go:320-335 | the bounds of a node's encoding and of its parts |
| WireFormat.NodeBytes | insolar/node.pb.go:240-270 | the bytes of a node: field 16, field 20 with 64 bytes, field 21, in this order, zero numbers left out |
| WireFormat.ListBytes | insolar/node.pb.go:282-309 | the bytes of a list: field 16 unless zero, then field 20 for each node with its length |
| NodeCodec.ListMerge | insolar/node.pb.go:523-628 | unmarshalling a marshalled list appends its nodes to any receiver |
| NodeCodec.ListRoundTrip | insolar/node.pb.go:282-628 | for every list that fits a slice: unmarshalling its bytes into a fresh one gives it back |
| NodeCodec.NodeConcat | insolar/node.pb.go:399-522 | decoding two byte strings in a row is decoding the second into the result of the first |
| NodeCodec.ListConcat | insolar/node.pb.go:523-628 | the same for lists |
| NodeCodec.NodeIgnoresUnknown | insolar/node.pb.go:499-515 | inserting a well-formed unknown field at any field boundary changes nothing that is decoded |
| NodeCodec.ListIgnoresUnknown | insolar/node.pb.go:605-621 | the same for lists |
| NodeMessages.Node.Size | insolar/node.pb.go:320-335 | exactly the number of bytes MarshalTo writes |
| NodeMessages.Node.MarshalTo | insolar/node.pb.go:240-270 | writes exactly the encoding, within bounds, and nothing else |
| NodeMessages.Node.Marshal | insolar/node.pb.go:230-238 | a buffer that holds exactly the encoding |
| NodeMessages.Node.Unmarshal | insolar/node.pb.go:399-522 | the decoded message, or the very error, for every byte string |
| NodeMessages.NodeList.Size | insolar/node.pb.go:337-353 | exactly the number of bytes MarshalTo writes |
| NodeMessages.NodeList.MarshalTo | insolar/node.pb.go:282-309 | writes exactly the encoding, within bounds, and nothing else |
| NodeMessages.NodeList.Marshal | insolar/node.pb.go:272-280 | a buffer that holds exactly the encoding |
| NodeMessages.NodeList.Unmarshal | insolar/node.pb.go:523-628 | the decoded list, or the very error, for every byte string |
| NodeMessages.ReadField | insolar/node.pb.go:399-522 | one turn of the decode loop reads exactly the next field, known or not, or the error |
| BitBuilders.Len | longbits/bit_builder.go:28-30 | the number of bits appended |
| BitBuilders.Append | longbits/bit_builder.go:43-56 | the bit sequence grows by exactly this bit |
| BitBuilders.AppendN | longbits/bit_builder.go:58-72 | the sequence grows by n such bits if and only if n is zero, the builder is aligned, or n fills the current byte |
| BitBuilders.AppendN0 | longbits/bit_builder.go:74-103 | the same for zero bits |
| BitBuilders.AppendN1 | longbits/bit_builder.go:105-142 | the same for one bits |
| BitBuilders.InexactExample | longbits/bit_builder.go:105-142 | three ones appended to one bit do not give four ones |
| BitBuilders.Done | longbits/bit_builder.go:144-151 | the length and bytes from which the sequence is read back: full bytes from the top bit, the last one right-aligned |
| BitBuilders.UnpackedBit | longbits/bit_builder.go:144-151 | where each bit of the sequence is: full bytes from the top bit down, the last one right-aligned |
| BitBuilders.BuildAndUnpack | longbits/bit_builder.go:43-151 | appending any sequence to the zero builder and unpacking what Done gives is the identity |
| BitStrings.Scan | longbits/byte_string.go:77-82 | the reference scan: the least index from the start on with the wanted bit, or -1 if there is none |
| BitStrings.BitOfByte | longbits/byte_string.go:71-101 | index i is bit i % 8 of byte i / 8, counted from the least significant one |
| BitStrings.SearchBit | longbits/byte_string.go:107-119 | the search is the linear scan, for every byte string and start |
| BitStrings.SearchBit1 | longbits/byte_string.go:121-138 | the same for one bits, skipping zero bytes |
| BitStrings.SearchBit0 | longbits/byte_string.go:140-156 | the same for zero bits, skipping full bytes |
| Certificates.SortedUnique | certificate/certificate.go:126-126 | two sorted lists of the same strings are equal, so any sorting routine gives the same text |
| Certificates.Certificate.SerializeNetworkPart | certificate/certificate.go:119-131 | the header followed by the node texts in sorted order |
| Certificates.LeqIsLexicographic | certificate/certificate.go:126-126 | the order of the node texts is the dictionary order |
| Certificates.ItoaReadsBack | certificate/certificate.go:120-121 | the decimal text of a number stands for that number |
| Certificates.JoinConcatenates | certificate/certificate.go:127-127 | the node texts follow each other with nothing in between |
| Certificates.SortStrings | certificate/certificate.go:126-126 | sorts in place: sorted, and a permutation |
| Certificates.Canonical | certificate/certificate.go:119-131 | the text is the same for any permutation of the bootstrap nodes |
| Certificates.SerializeBoth | certificate/certificate.go:119-131 | two certificates that list the same nodes in different orders serialize to the same text |
| ExecutionBrokers.ExecutionBroker.constructor | logicrunner/executionbroker.go:93-125 | link: a new broker knows nothing, is open, and has no processor |
| ExecutionBrokers.ExecutionBroker.SetHasMoreRequests | logicrunner/executionbroker.go:622-628 | link: the whole new state: flag raised, token in the one-slot channel, never two |
| ExecutionBrokers.ExecutionBroker.HasMoreRequests | logicrunner/executionbroker.go:127-133 | link: the whole new state after a notification |
| ExecutionBrokers.ExecutionBroker.AbandonedRequestsOnLedger | logicrunner/executionbroker.go:135-146 | link: the whole new state; an unknown pending state becomes an unconfirmed InPending, any other is kept |
| ExecutionBrokers.ExecutionBroker.NoMoreRequestsOnLedgerInitial | logicrunner/executionbroker.go:148-156 | link: the whole new state; the ledger is believed empty unless a notification is waiting |
| ExecutionBrokers.ExecutionBroker.NoMoreRequestsOnLedger | logicrunner/executionbroker.go:158-166 | link: the whole new state after a later report of the fetcher |
| ExecutionBrokers.ExecutionBroker.StartProcessor | logicrunner/executionbroker.go:175-196 | link: starts exactly if NotPending, open and not yet active; then drains the channel |
| ExecutionBrokers.ExecutionBroker.CanProcessTranscript | logicrunner/executionbroker.go:360-378 | link: true exactly if the broker is open and the request not registered; then it is registered |
| ExecutionBrokers.ExecutionBroker.FinishTranscript | logicrunner/executionbroker.go:380-393 | link: removes from the registry, appends to the finished list, reports a missing entry |
| ExecutionBrokers.ExecutionBroker.FinishPendingIfNeeded | logicrunner/executionbroker.go:398-430 | link: a message goes out exactly if InPending with an empty registry and the message could be built |
| ExecutionBrokers.ExecutionBroker.OnPulse | logicrunner/executionbroker.go:432-492 | link: the whole new state and the messages of the end of a pulse |
| ExecutionBrokers.ExecutionBroker.PrevExecutorPendingResult | logicrunner/executionbroker.go:501-522 | link: the whole new state for each own state and each report |
| ExecutionBrokers.ExecutionBroker.PrevExecutorStillExecuting | logicrunner/executionbroker.go:524-543 | link: the whole new state; refused exactly in NotPending |
| ExecutionBrokers.ExecutionBroker.PrevExecutorSentPendingFinished | logicrunner/executionbroker.go:545-557 | link: the whole new state; refused exactly while something executes here |
| ExecutionBrokers.ExecutionBroker.SetNotPending | logicrunner/executionbroker.go:559-564 | link: only the pending state changes |
| ExecutionBrokers.ExecutionBroker.ApplyLedgerAnswer | logicrunner/executionbroker.go:594-603 | link: the ledger's answer counts only while the state is unknown |
| ExecutionBrokers.ExecutionBroker.UpsertToDuplicationTable | logicrunner/executionbroker.go:630-642 | link: says whether the request was in the table, and puts it there |
| Broker.AfterPendingResult | logicrunner/executionbroker.go:501-522 | section: exactly when a report leaves a broker NotPending, and that a report never lowers its state |
| Broker.PulseReport | logicrunner/executionbroker.go:455-489 | section: exactly when a pulse sends a message, which of the three pending states it reports, and when it promises more requests |

## Left out

- Ledger, bus, contract execution, payload marshalling, hashing and signatures: foreign code; their results are parameters or choices of a step.
- Metrics, logging, tracing, configuration, mocks, API and HTTP handlers: no property to prove.
- Mutual exclusion between executors on different nodes: it rests on the ledger's HasPendings and on late or duplicate messages, which no code here decides.
- Exactly-once PendingFinished: two readers can both see an empty registry at `logicrunner/executionbroker.go:411`; only "at least once" is decided by the code.
- PendingFinished with a shared registry: another broker's request may be the last one, and that broker announces it; AnnouncedInTheEnd is about a registry of the broker's own.
- Every fetched but unstarted request is reported at the end of a pulse: not promised by the code, the flag may still say that the ledger is empty.
- An entry in ResultMap exactly while a caller waits: early error returns of SendRequest leave entries behind; EntriesOfWaiters says that nothing else does.
- Liveness under unfair scheduling, wall-clock time and blocking on a full feed: a timeout is a step that may come at any moment, a full feed disables the send.
- The capacity of the fetcher's own channel: it is unbounded here, which allows every behaviour of a bounded one.
- SendReply and the contract call inside processTranscript: they touch no state of the broker.
- ErrNotInPending, ErrAlreadyExecuting and the other error texts: only whether an error is returned.
- The write controller itself: only that no handler works on a broker after its pulse ended.
- Deserialize in handleRegisterResult: its result is a function of the reply bytes the model returns.
- calcRequestHash: the hash is a parameter; its failure leaves the table alone.
- NodeCodec.ListRoundTrip: the encoding has to be at most MAX_INT bytes long, as every Go slice is.
- Partial contents of a message after a failed Unmarshal: left unspecified.
- The seven inlined varint loops of Unmarshal and skipNode: one method, DecodeVarint, with the integer width as parameter.
- sort.Strings: an insertion sort stands for it; SortedUnique shows that the choice does not matter.
- Copies of a BitBuilder that share a slice, DoneAndCopy, Copy and NewBitBuilder's capacity: a builder is a value here.
- FoldToBits64: its loop bound at `longbits/byte_string.go:174-177` does not fold general lengths.
- The abandoned-request actor and the mailbox limits: no state to speak of.
- The answer to the stop message: only that the actor ends.
- RequestFetchers.RequestFetcher.Fetch: cut off after a given number of ledger calls, because against some ledgers the original never ends; RoundEnds quantifies over all such numbers.
- Key material, signatures and the JSON form of a certificate.
- ExecutionBrokers.ExecutionBroker.constructor: NewExecutionBroker returns nil when the latest pulse cannot be read, and the table would then hold a nil broker; here the pulse can always be read.
- Storage with heap objects inside the machine: StateStorages works on objects, StorageSystem on values; PulseEnds states for the machine what OnPulse states for the objects.
