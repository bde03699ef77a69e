# Log Store: protocol models and proofs

A Dafny 4.11 model of the parts of the Log Store that are state machines, indexes or wire formats, with proofs of what they promise.
`dafny verify dfyconfig.toml` checks the whole project.

## What is modelled

- **Recovery** (`SystemRecovery`, `RecoveryRuns`, `RecoverySafety`, `RecoveryDecisions`, `RecoveryLimits`, `ItemGate`, `RecoveryFiling`). A validator asks brokers, round after round, to resend system messages. The model holds the request id, the map from brokers to progress records, and the records themselves in an arena, so that a handler suspended at an `await` keeps the record it was started with after the map got a new one. Brokers and network are the environment: a broker numbers the responses of a round from 0 in timestamp order, its completion carries the next number, an empty reply from time 0 means it holds nothing, a fulfilled reply reaches the end of the window; messages get lost, repeated, reordered and stale. The main result says that nothing was missed, over every run, in particular when recovery stops; its limits are shown exactly, and the item gate and the store are tied to it.
- **Live and recovered deliveries** (`SystemListener`): the deduplicating store; what is hashed of a delivery is what `JSON.stringify` shows of it.
- **Back-pressure** (`Gates`, `PushBuffer`): the gate, the bounded buffer and `pull` as steps between suspensions, with safety for every interleaving, absence of deadlock and a bound on every run.
- **Indexes** (`BlockSearch`, `StoreManager`, `TimeIndexer`, `IndexingState`, `KeyWindows`): each against the simple computation it must agree with.
- **Network validation in the client** (`QueryInput`, `MessagePools`, `Propagates`, `StorageMatrix`, `NetworkValidation`): pre-filtered pools, missing propagates on sets shared through a shallow map copy, and the two verdicts, joined from the message stream to the verdict.
- **Wire formats** (`Json`, `Entries`, `SystemMessage`, `Serializers`): texts are sequences of UTF-16 code units; messages nest to any depth as strings inside arrays.
- **Reports** (`Hex`, `BigNumbers`, `Report`, `ReportContract`, `ReportHash`): plain, serialized and contract forms and what the hash is taken of.

Code that updates objects or loops is a class or a method proved equal to a function on values; the theorems are about those functions and about runs of them.

## What the proofs found

- A round that is complete but not fulfilled already lets live traffic set the clock of `latestTimestamp`, so an item can be produced while earlier system messages are still to be recovered; `ItemGate.ItemsAreWholeIff` says exactly when.
- A recovery message handled between the new request id and the reset of the records meets the old record, or none. It is safe exactly when its publisher has a record and it is the first of its reply or more than one ahead of the record's last number (`RecoveryLimits.EarlyIsSafeIff`); any other can lead to an aggregate that hides a missed message. The safety theorem speaks of runs in which such messages are harmless.
- `findBlock` throws for a time after the last block, since it asks for the block after it, and gives NaN on a chain of one block. A time before the first block gives block 0: the search then asks for block -1, which the provider counts from the latest block (the clauses about `asked` of `BlockSearch.FindBlock`).
- `getStores` depends on how the range is split exactly when a store pays a fee before its first update (`StoreManager.SplitsAgreeIffKnownBeforeCharged`).
- A failed index request of the last poller leaves waiting gates that no later wait revives (`IndexingState.StrandedIsReached`, `IndexingState.StrandedUntilTimeOut`).
- Without a start block, a process of the time indexer that restarts goes on at its own latest block, and a time in the gap finds a later block (`TimeIndexer.RestartSkipsBlocks`).
- An optional query parameter the caller leaves out is `undefined` in the client and `null` after the wire, so the client takes its own request for incompatible: its id becomes impossible or, once the id is known, the filter meets the same request without end (`QueryInput.ArrivedRequestIsCompatibleIff`, `MessagePools.OwnQueryIsCollectedIff`). The comment in the code calls the impossible ids a means to save work only.
- The comment in `checkCollectionCompletion` says that propagates of secondary nodes are waited for; as wired there is no secondary response, so none is (`NetworkValidation.CompletionAsWired`).
- The hash that tells deliveries apart does not cover the hash map of a response, which `JSON.stringify` writes as an empty object; that map and the metadata outside the hash are stored from whichever copy arrives first (`SystemListener.OutsideTheHashDependsOnOrder`).
- Report ids with a lone surrogate do not survive serializing, and a non-canonical amount changes what a serialized report is hashed over (`Report.DeserializeUndoesSerialize`, `ReportHash.HashIsTheSameIff`).

## Model

| member | source | states |
|---|---|---|
| `SystemRecovery.Recovery.constructor` | packages/validator/src/threads/SystemRecovery.ts:48-57 | A new object has no request, no records and is not restarting |
| `SystemRecovery.Recovery.GetProgress` | packages/validator/src/threads/SystemRecovery.ts:103-125 | The loop over the records computes the true minimum timestamp and the conjunction of both flags over all records, and no summary at all when there is no record or any record has no timestamp |
| `SystemRecovery.Recovery.BeginRequest` | packages/validator/src/threads/SystemRecovery.ts:143-145 | The request goes out under the new id and asks from the aggregate timestamp of the records as they are at that moment, or from 0 |
| `SystemRecovery.Recovery.ResetRecords` | packages/validator/src/threads/SystemRecovery.ts:172-194 | Every listed broker gets a new record that keeps only the timestamp of the old one; the old record lives on for handlers that hold it; restarting ends |
| `SystemRecovery.Recovery.OnRecoveryMessage` | packages/validator/src/threads/SystemRecovery.ts:223-351 | What a message does up to the first `await`: stale ids are ignored, an unknown publisher gets a record, a gap in the sequence numbers restarts once, a completion fills in a missing timestamp and decides between waiting, a next round and stopping |
| `SystemRecovery.Recovery.StampTimestamp` | packages/validator/src/threads/SystemRecovery.ts:303-306 | After a message was handed on, the record the handler was started with gets its timestamp, and no other record changes |
| `SystemRecovery.Recovery.FinishResponse` | packages/validator/src/threads/SystemRecovery.ts:308 | After the whole payload, the record the handler was started with gets the sequence number, even if that lowers it |
| `RecoveryDecisions.CompletionIsRecorded` | packages/validator/src/threads/SystemRecovery.ts:330-338 | An accepted completion marks the publisher's record complete, with the fulfilment of the reply and, if nothing was recovered, the time of the completion; its number and every other record stay |
| `RecoveryDecisions.DecisionIs` | packages/validator/src/threads/SystemRecovery.ts:238-350 | On the records a message leaves behind: stale ids are ignored, a gap restarts unless a restart is pending, a response starts a handler, and a completion stops recovery exactly when all records are stamped, complete and fulfilled, asks for the next round exactly when all are complete and some is not fulfilled, and waits otherwise |
| `RecoveryDecisions.StoppedMissesNothing` | packages/validator/src/threads/SystemRecovery.ts:340-343 | Over every quiet run: when a message stops recovery, every message each broker holds was delivered |
| `RecoveryDecisions.OneRestartPerReset` | packages/validator/src/threads/SystemRecovery.ts:270-280 | Over every run, a restart is scheduled exactly for the first failure, a gap or a handler that throws, since the last reset |
| `RecoveryRuns.ResetAllMeans` | packages/validator/src/threads/SystemRecovery.ts:174-186 | The loop leaves every listed broker with a fresh record that carries its previous timestamp and leaves all earlier records alone, for any list, repeats included |
| `RecoveryRuns.SequenceNumbersUnbroken` | packages/validator/src/threads/SystemRecovery.ts:240-244 | Over every run with loss, repetition, overlap at awaits and stale handlers: the numbers finished through one record are 0..m without a hole, `lastSeqNum` is at most m, and a record is complete with number c only if responses 0..c-1 were all finished through it |
| `RecoverySafety.StepSound` | packages/validator/src/threads/SystemRecovery.ts:138-351 | Every event of the protocol keeps the invariant that each round asks from at or below every recovered timestamp and everything strictly before a timestamp was delivered |
| `RecoverySafety.AggregateIsTrue` | packages/validator/src/threads/SystemRecovery.ts:103-125 | Nothing a broker holds before the aggregate timestamp was missed, and nothing at all once the aggregate is complete and fulfilled |
| `RecoverySafety.RecoveryMissesNothing` | packages/validator/src/threads/SystemRecovery.ts:138-351 | The same over every run from the start with lost, repeated and reordered messages, restarts and unfulfilled rounds, when every message handled before the reset of its round is harmless: from a known publisher, and the first of its reply or so far ahead that it is rejected |
| `RecoveryLimits.EarlyIsSafeIff` | packages/validator/src/threads/SystemRecovery.ts:143-186 | For every message handled between the new id and the reset, whatever its number and whether its publisher has a record with any last number or none: over all quiet runs before and after it, the aggregate can be believed exactly when the publisher has a record and the message is the first of its reply or more than one ahead of the last number |
| `RecoveryLimits.MessageBeforeResetIsUnsafe` | packages/validator/src/threads/SystemRecovery.ts:143-186 | For every last number and every later message that it lets through there is a run, with a message in each response, in which the aggregate becomes complete and fulfilled although a message was missed |
| `RecoveryLimits.LonePublisherIsUnsafe` | packages/validator/src/threads/SystemRecovery.ts:240-244 | A publisher without a record gets one on sight; whatever the number of its message, even one that is rejected, the run can go on so that the aggregate speaks for it alone while another broker's earlier message is missing |
| `ItemGate.GeneratedNeedsRecovery` | packages/validator/src/runtime.ts:249-256 | An item for key k is produced only if recovery is complete or every record has recovered at least to 1000k |
| `ItemGate.GeneratedIff` | packages/validator/src/runtime.ts:243-257 | Key 0 is empty; any other item is produced exactly when the time index has reached its key and recovery has, or live traffic has and recovery is complete |
| `ItemGate.GeneratedIsIndexed` | packages/validator/src/runtime.ts:250-257 | After any run of the time indexer with a start block: when an item is produced, `find` answers its key with the first block that is not earlier |
| `ItemGate.GeneratedMissesNothing` | packages/validator/src/runtime.ts:249-267 | When an item is produced, no system message before the end of its window was missed, unless the aggregate is complete but neither fulfilled nor recovered that far |
| `ItemGate.ItemsAreWholeIff` | packages/validator/src/runtime.ts:249-267 | For every key, clocks and aggregate a run can reach: over all brokers and quiet runs that end so, no system message before the window's end is missed when an item is produced exactly when the gate holds back, or the aggregate is incomplete, fulfilled, or recovered to that end |
| `ItemGate.UnfulfilledRoundLetsItemThrough` | packages/validator/src/threads/SystemListener.ts:76-84 | For every recovered time before the window's end and every live time from it on, a run ends with that complete but unfulfilled aggregate and that clock while an earlier system message is missing |
| `RecoveryFiling.ResponseCarriesCopies` | packages/protocol/src/system/RecoveryResponseSerializerV1.ts:10-54 | What a broker puts into a response is read back, in order, as the recovered copies that the listener gets |
| `RecoveryFiling.CopiesAgree` | packages/validator/src/threads/SystemListener.ts:102-126 | The live and the recovered copy of a message agree in all that is hashed and in the key, and differ in the other metadata only |
| `RecoveryFiling.StoreIsDelivered` | packages/validator/src/threads/SystemListener.ts:102-220 | After any run of recovery and live traffic, the store holds under each key exactly the hashes of the delivered messages that belong there, whichever way they came |
| `RecoveryFiling.RecoveryFilesEverything` | packages/validator/src/threads/SystemListener.ts:62-69 | Over every quiet run: once the aggregate is complete and fulfilled, every message of a listened kind that a broker holds is in the store under its key and hash, and at any time every one before the aggregate timestamp is |
| `RecoveryFiling.GeneratedItemIsBacked` | packages/validator/src/runtime.ts:249-267 | When an item is produced, every system message of a listened kind before the end of its window is in the store, unless the aggregate is complete but neither fulfilled nor recovered that far |
| `SystemListener.SystemStore.constructor` | packages/validator/src/threads/SystemListener.ts:40-42 | Nothing is stored before the first delivery |
| `SystemListener.SystemStore.Transact` | packages/validator/src/threads/SystemListener.ts:138-153 | The scan for the hash and the write of the longer list store an entry exactly when its hash is new under its key |
| `SystemListener.SystemStore.OnSystemMessage` | packages/validator/src/threads/SystemListener.ts:102-220 | Only the database of the message kind changes, whichever way the message came |
| `SystemListener.SystemStore.OnMessage` | packages/validator/src/threads/SystemListener.ts:86-100 | A live message of a listened kind also moves the clock; others change nothing |
| `SystemListener.OneEntryPerHash` | packages/validator/src/threads/SystemListener.ts:138-213 | After any deliveries with repeats, each key holds exactly one entry per distinct hash delivered for it, taken from one of those deliveries |
| `SystemListener.FoundByFields` | packages/validator/src/threads/SystemListener.ts:128-215 | After any deliveries, requests are found under their own time, responses and propagates under the request id they carry, each in the database of its kind |
| `SystemListener.ArrivalOrderIrrelevant` | packages/validator/src/threads/SystemListener.ts:102-220 | The same deliveries in any order store the same hashes, the same number of entries and, where the hash identifies what is hashed, the same hashed parts; a response's hash map is no part of them |
| `SystemListener.OutsideTheHashDependsOnOrder` | packages/validator/src/threads/SystemListener.ts:112-150 | What is outside the hash is kept from the first arrival only: two deliveries with one hash are stored alike in both orders exactly when they are the same, and with equal hashed parts exactly when a response's hash map and the other metadata agree |
| `Gates.GateHistory` | packages/client/src/streamr/utils/Gate.ts:34-139 | Over any calls: a locked gate stays locked, a settled promise stays settled, a call of `check` that waits is let go exactly when the gate was opened or locked while it waited, and resolves to false exactly when the gate was locked |
| `Gates.GateObject.constructor` | packages/client/src/streamr/utils/Gate.ts:34-36 | A gate starts open |
| `Gates.GateObject.ClearPending` | packages/client/src/streamr/utils/Gate.ts:115-127 | The pending promise is settled and forgotten |
| `Gates.GateObject.Open` | packages/client/src/streamr/utils/Gate.ts:43-50 | Opening settles the pending promise unless the gate is locked |
| `Gates.GateObject.Lock` | packages/client/src/streamr/utils/Gate.ts:55-63 | Locking settles the pending promise, once and for all |
| `Gates.GateObject.Close` | packages/client/src/streamr/utils/Gate.ts:84-94 | Closing makes a new promise unless one is pending or the gate is locked |
| `Gates.GateObject.SetOpenState` | packages/client/src/streamr/utils/Gate.ts:100-106 | Opens or closes as asked |
| `Gates.GateObject.Check` | packages/client/src/streamr/utils/Gate.ts:132-135 | A call waits for the pending promise, if there is one |
| `Gates.GateObject.CheckResumes` | packages/client/src/streamr/utils/Gate.ts:137 | A call that goes on resolves to whether the gate is not locked |
| `PushBuffer.PushBuffer.constructor` | packages/client/src/streamr/utils/PushBuffer.ts:53-69 | Empty, with both gates closed |
| `PushBuffer.PushBuffer.UpdateWriteGate` | packages/client/src/streamr/utils/PushBuffer.ts:87-89 | The write gate is open exactly below capacity |
| `PushBuffer.PushBuffer.Push` | packages/client/src/streamr/utils/PushBuffer.ts:76-85 | An unwritable buffer takes nothing; otherwise the item is appended, the write gate follows the capacity, the read gate opens and the caller waits exactly if the write gate is closed |
| `PushBuffer.PushBuffer.Lock` | packages/client/src/streamr/utils/PushBuffer.ts:105-108 | Both gates are locked |
| `PushBuffer.PushBuffer.End` | packages/client/src/streamr/utils/PushBuffer.ts:95-100 | A given error replaces a stored one and both gates lock; the items stay |
| `PushBuffer.PushBuffer.EndWrite` | packages/client/src/streamr/utils/PushBuffer.ts:114-121 | The first error is stored, readers are let go and writing is locked |
| `PushBuffer.PushBuffer.Finally` | packages/client/src/streamr/utils/PushBuffer.ts:186-189 | Whatever ends the reader empties the buffer and locks both gates |
| `PushBuffer.PushBuffer.Exit` | packages/client/src/streamr/utils/PushBuffer.ts:181-185 | Leaving the loop throws a stored error once |
| `PushBuffer.PushBuffer.Iterate` | packages/client/src/streamr/utils/PushBuffer.ts:146-190 | One stretch of the generator between two suspensions: flush while there is something, throw an error item, leave when writing has ended, else close the read gate and wait |
| `PushBuffer.StepKeeps` | packages/client/src/streamr/utils/PushBuffer.ts:76-190 | Every step of producer, reader or anyone calling `end` or `endWrite` keeps the gates in step with the buffer and yielded + buffered equal to accepted |
| `PushBuffer.BufferIsFaithful` | packages/client/src/streamr/utils/PushBuffer.ts:76-190 | For every interleaving, items yielded followed by items buffered are the items accepted, in order, and the buffer never exceeds its size; a reader that is done threw an accepted Error item after everything before it, or threw the error stored first, if any, after everything accepted unless someone called `end` |
| `PushBuffer.NeverBothWait` | packages/client/src/streamr/utils/PushBuffer.ts:76-89 | A waiting producer means a full buffer, a waiting reader an empty one, so both never wait together |
| `PushBuffer.PullsAtMostOneMore` | packages/client/src/streamr/utils/PushBuffer.ts:230-250 | After writing has ended nothing more is accepted, a producer that waits takes nothing more from its source, and one between two items takes at most one |
| `PushBuffer.FlushIsBounded` | packages/client/src/streamr/utils/PushBuffer.ts:110-121 | After any run that ended writing, the reader yields at most what is buffered, has a step to take until it is done, and is done after two steps more than the items buffered |
| `PushBuffer.PullDelivers` | packages/client/src/streamr/utils/PushBuffer.ts:230-250 | With `pull` alone on the buffer, a reader that is done has yielded exactly the source up to its first error item and ends as the source does, a source error coming after the flush |
| `PushBuffer.NoDeadlock` | packages/client/src/streamr/utils/PushBuffer.ts:146-250 | Some step of producer or reader is possible exactly until both have finished |
| `PushBuffer.PullTerminates` | packages/client/src/streamr/utils/PushBuffer.ts:146-250 | Every run is at most 6n + 8 steps long for n source items, and one that cannot go on has delivered the source |
| `IndexingState.Indexing.constructor` | packages/client/src/utils/SynchronizedGraphQLClient.ts:38-56 | Block number 0, no answer of the index, no gates, no poller |
| `IndexingState.Indexing.GetOrCreateGate` | packages/client/src/utils/SynchronizedGraphQLClient.ts:77-88 | A block already indexed gets an open gate; otherwise a closed one joins the set, and a poller starts only if the set was empty |
| `IndexingState.Indexing.OpenReached` | packages/client/src/utils/SynchronizedGraphQLClient.ts:97-102 | The loop opens and drops exactly the gates whose block is reached |
| `IndexingState.Indexing.OnPollAnswer` | packages/client/src/utils/SynchronizedGraphQLClient.ts:93-107 | A poll answer updates the index when it differs, opens what is reached and keeps polling while gates are left |
| `IndexingState.Indexing.OnTimeout` | packages/client/src/utils/SynchronizedGraphQLClient.ts:69-74 | A timeout takes its gate out of the set |
| `IndexingState.WaitsAreSound` | packages/client/src/utils/SynchronizedGraphQLClient.ts:58-109 | Over every run: the set holds exactly the waits still pending, each closed and wanting more than the last index; a wait for a block beyond 0 returns only after the index answered with it or a later one; absent failed requests some poller is alive while a gate waits, across timeouts that empty and refill the set |
| `IndexingState.ReturnsIffReached` | packages/client/src/utils/SynchronizedGraphQLClient.ts:58-109 | Over every run, a wait has returned exactly when the index had its block at some time before it was given up |
| `IndexingState.TimedOutIffGivenUp` | packages/client/src/utils/SynchronizedGraphQLClient.ts:63-75 | Over every run, a wait is timed out exactly when it was given up |
| `IndexingState.PollersMove` | packages/client/src/utils/SynchronizedGraphQLClient.ts:77-109 | A poller starts exactly with a wait beyond the index and an empty set, and ends exactly with a failed request or when no gate is left; otherwise it moves between asking and sleeping |
| `IndexingState.IndexIsLastAnswer` | packages/client/src/utils/SynchronizedGraphQLClient.ts:90-96 | Over every run the index number is what the last answer said |
| `IndexingState.WaitsReturnAfterRetry` | packages/client/src/utils/SynchronizedGraphQLClient.ts:90-109 | A wait whose block the first answer does not reach returns after the poller has slept and asked again |
| `IndexingState.CaughtUp` | packages/client/src/utils/SynchronizedGraphQLClient.ts:90-109 | An answer at or above every wanted block lets every wait in the set return, leaves none pending, and ends the poller that got it |
| `IndexingState.AnswerReturnsReached` | packages/client/src/utils/SynchronizedGraphQLClient.ts:94-105 | A new answer lets exactly those waits in the set return that want its block or an earlier one; the others go on waiting and no other wait changes |
| `IndexingState.FailureStrandsIffLastPoller` | packages/client/src/utils/SynchronizedGraphQLClient.ts:90-93 | A failed index request leaves gates without a poller exactly when its poller was the last one and a gate is waiting |
| `IndexingState.StrandedUntilEmptied` | packages/client/src/utils/SynchronizedGraphQLClient.ts:77-88 | Such gates stay without a poller, and no later wait starts one, until all of them have timed out |
| `IndexingState.StrandedIsReached` | packages/client/src/utils/SynchronizedGraphQLClient.ts:77-110 | One wait for any block and one failed request lead there from the start |
| `IndexingState.StrandedUntilTimeOut` | packages/client/src/utils/SynchronizedGraphQLClient.ts:77-110 | From there no run without a time-out gets out: the index number stays, every gate stays, and every later wait for a block beyond it goes on waiting |
| `BlockSearch.InterpolateIsNaNIff` | packages/validator/src/managers/Managers.ts:64-68 | The probe is no number exactly when both bounds read one timestamp and are one block or meet the time itself |
| `BlockSearch.Search` | packages/validator/src/managers/Managers.ts:60-70 | One probe stays between the bounds and is clamped to an end when the time lies outside them; it throws exactly for a bound beyond the chain, where the provider returns `null`, and a negative bound reads a block counted from the latest one |
| `BlockSearch.FoundIsNearest` | packages/validator/src/managers/Managers.ts:74-88 | Where the search stops, the block is the one at the time if there is one, and else next to the place where the time belongs |
| `BlockSearch.FindBlock` | packages/validator/src/managers/Managers.ts:49-89 | Terminates on every increasing chain; throws exactly for a time after the last of several blocks, gives NaN exactly on a chain of one block, and in every other case finds the block at the time or a neighbour of its insertion point, block 0 for a time before it; it asks for blocks inside the chain only exactly when there is one block or the time lies between the first and the last, for block -1 exactly when the time is before the first of several, and for the block after the last exactly when it is after it |
| `StoreManager.Manager.constructor` | packages/validator/src/managers/StoreManager.ts:5-8 | Nothing cached, from block 0 |
| `StoreManager.Manager.AddUpdates` | packages/validator/src/managers/StoreManager.ts:35-47 | The loop appends new stores and adds to known ones, in event order |
| `StoreManager.Manager.SubtractFees` | packages/validator/src/managers/StoreManager.ts:53-60 | The loop takes fees off known stores and drops fees of unknown ones |
| `StoreManager.Manager.Update` | packages/validator/src/managers/StoreManager.ts:14-67 | One call equals the fold over the events of the blocks not yet covered, and nothing when all are |
| `StoreManager.CallKeeps` | packages/validator/src/managers/StoreManager.ts:14-67 | One more call keeps the list equal to what the events of the whole range say: ids in the order of first updates, each amount the sum of the updates less the fees |
| `StoreManager.CallsAgree` | packages/validator/src/managers/StoreManager.ts:14-67 | Any sequence of calls with a fixed start block ends with the list one recomputation up to the highest block gives, and that is what the events say, when no store is charged before it is known |
| `StoreManager.RecomputedRepresents` | packages/validator/src/managers/StoreManager.ts:14-67 | One recomputation lists the stores in the order of their first updates, each with the sum of its updates less its fees, whatever the order of events |
| `StoreManager.EarlyFeeIsLost` | packages/validator/src/managers/StoreManager.ts:57-59 | Splitting the range right after a fee that comes before the first update of its store loses that fee |
| `StoreManager.SplitsAgreeIffKnownBeforeCharged` | packages/validator/src/managers/StoreManager.ts:14-67 | Every split of the range agrees with one recomputation exactly when no store that is ever updated pays a fee before its first update |
| `TimeIndexer.SplitIsExact` | packages/validator/src/threads/TimeIndexer.ts:209-210 | Putting the line ends back gives the text, and no part holds one |
| `TimeIndexer.SplitJoins` | packages/validator/src/threads/TimeIndexer.ts:206-210 | Cutting a text in two neither loses nor repeats a line |
| `TimeIndexer.ChunkingIsInvisible` | packages/validator/src/threads/TimeIndexer.ts:205-210 | However output is cut into chunks, the lines handled and the remainder kept are those of the whole output |
| `TimeIndexer.Indexer.constructor` | packages/validator/src/threads/TimeIndexer.ts:40-58 | Nothing indexed |
| `TimeIndexer.Indexer.OnData` | packages/validator/src/threads/TimeIndexer.ts:206-275 | A chunk handles its complete lines in order, keeps the open one, and stops at a disagreement with what came before it kept; this is the step of the runs below |
| `TimeIndexer.Indexer.Restart` | packages/validator/src/threads/TimeIndexer.ts:205-284 | A restarted process begins with an empty remainder |
| `TimeIndexer.Indexer.Find` | packages/validator/src/threads/TimeIndexer.ts:114-131 | The answer is that of the first indexed timestamp that is not earlier |
| `TimeIndexer.RunIndexes` | packages/validator/src/threads/TimeIndexer.ts:206-284 | With a start block, for any interleaving of chunks and restarts of sources whose complete lines, however cut, name consecutive blocks of one chain from it on: nothing throws, each source's open line ends what its process printed, and the index holds exactly the blocks from the start block up to some top block |
| `TimeIndexer.FindAgreesWithChain` | packages/validator/src/threads/TimeIndexer.ts:114-131 | After any such run over chunks, every nonzero timestamp up to the latest one finds the first block from the start block on that is not earlier |
| `TimeIndexer.RunAgrees` | packages/validator/src/threads/TimeIndexer.ts:156-284 | Wherever each process starts, start block given or not: as long as indexed lines name blocks of one chain nothing throws, the index agrees with the chain, and it has every block whose line is complete |
| `TimeIndexer.FindAgreesIffIndexed` | packages/validator/src/threads/TimeIndexer.ts:114-131 | Wherever each process starts, a nonzero timestamp finds the first block of the chain that is not earlier exactly when that block is indexed |
| `TimeIndexer.FindAnswersIff` | packages/validator/src/threads/TimeIndexer.ts:114-131 | Time 0 is answered with block 0; any other time is answered exactly when a block at or after it is indexed, and then with the first such block |
| `TimeIndexer.RestartSkipsBlocks` | packages/validator/src/threads/TimeIndexer.ts:152-156 | Without a start block, for any two blocks at which a process and its successor begin, every time in the gap between them finds the block after the gap |
| `TimeIndexer.DisagreementThrows` | packages/validator/src/threads/TimeIndexer.ts:227-247 | A reported block throws exactly when the timestamp is indexed under another block |
| `KeyWindows.WindowsJoinIffWellSpaced` | packages/validator/src/shared/rollingConfig.ts:8-28 | The window of the next key starts at every key exactly when the two thresholds are at least 20 apart (or the second never comes after the first) |
| `KeyWindows.RunWindows` | packages/validator/src/runtime.ts:363-375 | Along every run of keys each window starts at the key before it, across both step changes |
| `KeyWindows.WindowsTile` | packages/validator/src/core/item.ts:44-47 | Every instant after the first key lies in exactly one window of the run, shared start points excluded |
| `KeyWindows.WindowsShareOnlyEnds` | packages/validator/src/core/item.ts:58-70 | With both ends of the query range included, only neighbouring windows share an instant, and only their common end |
| `KeyWindows.NetworkIsWellSpaced` | packages/validator/src/shared/rollingConfig.ts:9-15 | The thresholds in use are far enough apart |
| `KeyWindows.NetworkDates` | packages/validator/src/shared/rollingConfig.ts:9-13 | The thresholds are 18:00 on 5 July 2023 and 5:00 on 6 July 2023, read as UTC |
| `KeyWindows.FirstKeyIsStartKey` | packages/validator/src/runtime.ts:366-370 | A pool without a key begins at the start key |
| `KeyWindows.EverySecondIsAKey` | packages/validator/src/runtime.ts:372-374 | Up to the first threshold every second of a run is a key with a window of one second |
| `KeyWindows.LaterSteps` | packages/validator/src/shared/rollingConfig.ts:8-18 | Between the thresholds keys are 10 seconds apart, and 20 after the second |
| `StorageMatrix.AddResponse` | packages/client/src/utils/networkValidation/manageStorageMatrix.ts:31-40 | The inner loop appends one entry per listed id |
| `StorageMatrix.ConvertToStorageMatrix` | packages/client/src/utils/networkValidation/manageStorageMatrix.ts:26-43 | The nested loops give every id exactly the entries of the responses that list it, in order |
| `StorageMatrix.NodesAgreeOnStorageMatrix` | packages/client/src/utils/networkValidation/manageStorageMatrix.ts:45-61 | True exactly when all entries of every id have one hash |
| `StorageMatrix.VerifyMessagePresence` | packages/client/src/utils/networkValidation/manageStorageMatrix.ts:63-81 | True exactly when every id of the HTTP response has an entry |
| `StorageMatrix.AgreementMeansNoConflict` | packages/client/src/utils/networkValidation/manageStorageMatrix.ts:26-61 | The nodes agree exactly when any two responses that list an id list the same hash |
| `StorageMatrix.PresenceMeansListed` | packages/client/src/utils/networkValidation/manageStorageMatrix.ts:63-81 | An id has an entry exactly when some response lists it |
| `StorageMatrix.VerdictsIgnoreOrderAndRepeats` | packages/client/src/utils/networkValidation/manageStorageMatrix.ts:26-81 | Both verdicts are unchanged by reordering or repeating responses |
| `Propagates.GetExpectedPropagatedMessages` | packages/client/src/utils/networkValidation/handlePropagatedMessages.ts:43-67 | Fresh, unshared sets: per normalised address what its latest response has and the primary lacks; throws exactly for a malformed address |
| `Propagates.AddressesAre` | packages/client/src/utils/networkValidation/handlePropagatedMessages.ts:60-63 | An address is `0x` and 40 hexadecimal digits of either case |
| `Propagates.LowerSameIff` | packages/client/src/utils/networkValidation/handlePropagatedMessages.ts:60-63 | Two texts are normalised to the same address exactly when their digits have the same values |
| `Propagates.DeleteIds` | packages/client/src/utils/networkValidation/handlePropagatedMessages.ts:28-32 | The inner loop deletes the propagated ids from the shared set |
| `Propagates.HandlePropagate` | packages/client/src/utils/networkValidation/handlePropagatedMessages.ts:25-34 | One propagate changes only the set of its own address |
| `Propagates.GetMissingPropagatedMessages` | packages/client/src/utils/networkValidation/handlePropagatedMessages.ts:17-41 | The deletions stay behind in the caller's sets, emptied addresses leave the copy only, and a malformed address stops the loop after the propagates before it |
| `Propagates.EvaluationsAccumulate` | packages/client/src/utils/networkValidation/handlePropagatedMessages.ts:24-34 | After evaluations over several lists the shared sets remember the union of all of them |
| `Propagates.ReevaluationIsFresh` | packages/client/src/utils/networkValidation/checkCollectionCompletion.ts:71-83 | Re-evaluating over a list that keeps everything seen gives the answer of one fresh evaluation of it |
| `Propagates.ReevaluationAfterLoss` | packages/client/src/utils/networkValidation/handlePropagatedMessages.ts:24-40 | A list that lost something still gets that answer exactly when nothing expected was propagated only in the lost part |
| `Propagates.NothingMissingMeansNothingOwed` | packages/client/src/utils/networkValidation/handlePropagatedMessages.ts:17-67 | Nothing is missing exactly when every id that the latest response of an address has and the primary lacks was propagated by that same address |
| `QueryInput.LocalRequestIsCompatible` | packages/client/src/utils/networkValidation/retrieveFilteredSystemMessages.ts:157-210 | A request with the input's own values is never found incompatible before it crosses the wire |
| `QueryInput.ArrivedRequestIsCompatibleIff` | packages/client/src/utils/networkValidation/retrieveFilteredSystemMessages.ts:157-210 | A request that crossed the wire is found compatible exactly when it asks the same as the input and the input leaves no optional parameter out, since `undefined` here meets `null` there |
| `MessagePools.Collector.constructor` | packages/client/src/utils/networkValidation/retrieveFilteredSystemMessages.ts:25-60 | Empty pools, no impossible id, nothing known |
| `MessagePools.Collector.FillPools` | packages/client/src/utils/networkValidation/retrieveFilteredSystemMessages.ts:62-66 | A change of what the filters know emits the latest response and the latest propagate again |
| `MessagePools.Collector.FillImpossibleIds` | packages/client/src/utils/networkValidation/retrieveFilteredSystemMessages.ts:68-78 | The latest request that passes and is incompatible makes its id impossible; with the HTTP request id known, the emission meets the same request without end and the collection fails |
| `MessagePools.Collector.OnSystemMessage` | packages/client/src/utils/networkValidation/retrieveFilteredSystemMessages.ts:27-60 | Each kind of message goes to its filter; a flagged request re-emits the pools |
| `MessagePools.Collector.OnNodeAddress` | packages/client/src/utils/networkValidation/filterSystemMessageOperations.ts:39-56 | The node address reaches the request filter before the pools |
| `MessagePools.Collector.OnRequestId` | packages/client/src/utils/networkValidation/retrieveFilteredSystemMessages.ts:80-91 | The HTTP request id reaches the filters in the same order and then shrinks both pools |
| `MessagePools.RunKeeps` | packages/client/src/utils/networkValidation/retrieveFilteredSystemMessages.ts:25-103 | Over every run a pool holds nothing but heard messages of the query node, and all of them whose id was never impossible |
| `MessagePools.RunIsExplained` | packages/client/src/utils/networkValidation/retrieveFilteredSystemMessages.ts:70-78 | Over every run an id is impossible, or the collection failed, only because the query node published an incompatible request under that id |
| `MessagePools.PoolsAreExact` | packages/client/src/utils/networkValidation/retrieveFilteredSystemMessages.ts:25-155 | With node and id known, each pool as a set is exactly the messages heard since the node was resolved that carry the id and belong to the node, unless the node published an incompatible request under that id; re-emissions never add or lose one |
| `MessagePools.PoolsHoldOwnMessages` | packages/client/src/utils/networkValidation/filterSystemMessageOperations.ts:28-88 | The same on the messages' own fields: a message is in the pool exactly when it was heard, is of the pool's kind, and its `requestPublisherId` and `requestId` are the node and the id |
| `MessagePools.AnswersOfAllNodesAreKept` | packages/client/src/utils/networkValidation/filterSystemMessageOperations.ts:62-88 | An answer to the query node's request is kept whichever node published it |
| `MessagePools.ResponseIsKeptIff` | packages/client/src/utils/networkValidation/filterSystemMessageOperations.ts:34-74 | An arriving response is kept exactly when its `requestPublisherId` is the query node and its id is the known one or, while none is known, not impossible; nothing else changes |
| `MessagePools.PropagateIsKeptIff` | packages/client/src/utils/networkValidation/filterSystemMessageOperations.ts:34-88 | The same for a propagate |
| `MessagePools.RequestIsFlaggedIff` | packages/client/src/utils/networkValidation/filterSystemMessageOperations.ts:34-60 | An arriving request is compared exactly when its publisher is the query node and its id passes; an incompatible one makes its id impossible, or ends the collection once the id is known |
| `MessagePools.PoolsKeepUnflagged` | packages/client/src/utils/networkValidation/filterSystemMessageOperations.ts:46-55 | While the id is not known, no heard message of the node under an unflagged id is lost |
| `MessagePools.ImpossibleIdLosesMessages` | packages/client/src/utils/networkValidation/filterSystemMessageOperations.ts:46-50 | Of two unpooled messages followed by the news that their id is the HTTP request id, the earlier one is kept exactly when that id was not impossible |
| `MessagePools.OwnQueryIsCollected` | packages/client/src/utils/networkValidation/retrieveFilteredSystemMessages.ts:25-103 | A client that leaves no optional parameter out collects exactly the messages of its own query |
| `MessagePools.OwnQueryIsCollectedIff` | packages/client/src/utils/networkValidation/retrieveFilteredSystemMessages.ts:25-103 | For every node and id: in every run whose only request under them is the client's own, it collects exactly its own responses and propagates if and only if it leaves no optional parameter out |
| `MessagePools.OwnRequestIsFlaggedIff` | packages/client/src/utils/networkValidation/retrieveFilteredSystemMessages.ts:70-78 | The client's own request as it arrives is flagged, or ends the collection, exactly when the input left an optional parameter out |
| `NetworkValidation.GotResponseFromAll` | packages/client/src/utils/networkValidation/checkCollectionCompletion.ts:54-67 | Done exactly when every expected node is an address with a response; the first node without one ends the check |
| `NetworkValidation.Primary` | packages/client/src/utils/networkValidation/checkCollectionCompletion.ts:27-40 | The first response that belongs to the request's publisher, if there is any |
| `NetworkValidation.Secondaries` | packages/client/src/utils/networkValidation/checkCollectionCompletion.ts:42-52 | Exactly the responses that belong to another publisher's request |
| `NetworkValidation.DoneMeans` | packages/client/src/utils/networkValidation/checkCollectionCompletion.ts:12-81 | For arbitrary pools the collection is done exactly when all expected nodes answered, a primary response is there, the addresses are well-formed and nobody owes the primary a message |
| `NetworkValidation.PrimaryIsKept` | packages/client/src/utils/networkValidation/checkCollectionCompletion.ts:27-40 | After the HTTP request id has arrived, the first primary response found is the one every later evaluation finds, so keeping it changes nothing |
| `NetworkValidation.CompletionAsWired` | packages/client/src/utils/networkValidation/checkCollectionCompletion.ts:32-81 | As the streams are wired there is never a secondary response, so the collection is done exactly when some response is pooled, every expected node answered and the propagates' addresses are well-formed: no propagate is waited for |
| `NetworkValidation.VerdictsAreAboutAnswers` | packages/client/src/utils/networkValidation/validateNetworkResponses.ts:153-172 | From the stream of system messages to the verdicts: for a fully specified query, agreement on the pooled responses means no two answers heard conflict, and presence means some answer heard lists the message |
| `Json.ParseUndoesStringify` | packages/protocol/src/system/SystemMessage.ts:131-157 | Parsing undoes writing for values nested to any depth and strings of any UTF-16 code units |
| `Json.FixedTexts` | packages/protocol/src/system/SystemMessage.ts:131-157 | The literals and signs of the format, decimal digits, and lower case in escapes |
| `Json.StringifyIsInjective` | packages/protocol/src/system/QueryResponseSerializerV1.ts:15 | Different values have different texts |
| `Json.EscapedIsClean` | packages/protocol/src/system/SystemMessage.ts:135-140 | A written string holds no control character, no surrogate without its partner, quotes only as the second unit of an escape, and no escape left open for the closing quote (section 7 of RFC 8259) |
| `Entries.NewMapIsMap` | packages/protocol/src/system/QueryResponseSerializerV1.ts:34 | A map built from any pairs has unique keys |
| `Entries.NewMapOfMap` | packages/protocol/src/system/QueryResponseSerializerV1.ts:15-34 | The entries of a map build the same map, in the same order |
| `SystemMessage.MapTextBack` | packages/protocol/src/system/QueryResponseSerializerV1.ts:8-36 | The map encoded as JSON inside JSON comes back with its order |
| `SystemMessage.QueryBack` | packages/protocol/src/system/QueryRequestSerializerV1.ts:27-96 | The positional encoding of each query type is undone, with `undefined` as `null` and without `limit` |
| `SystemMessage.QueryTypeTexts` | packages/protocol/src/system/QueryRequestSerializerV1.ts:27-96 | The texts of the three query types |
| `SystemMessage.RequestBack` | packages/protocol/src/system/QueryRequestSerializerV1.ts:15-108 | A query request comes back from its array |
| `SystemMessage.ResponseBack` | packages/protocol/src/system/QueryResponseSerializerV1.ts:8-36 | A query response comes back from its array |
| `SystemMessage.PropagateBack` | packages/protocol/src/system/QueryPropagateSerializerV1.ts:8-36 | A query propagate comes back from its array |
| `SystemMessage.ProofBack` | packages/protocol/src/system/ProofOfReportSerializerV1.ts:8-42 | A proof of report comes back from its array |
| `SystemMessage.RecoveryRequestBack` | packages/protocol/src/system/RecoveryRequestSerializerV1.ts:8-29 | A recovery request comes back from its array |
| `SystemMessage.RecoveryCompleteBack` | packages/protocol/src/system/RecoveryCompleteSerializerV1.ts:8-27 | A recovery completion comes back from its array |
| `SystemMessage.RecoveredArrive` | packages/protocol/src/system/RecoveryResponseSerializerV1.ts:9-60 | The nested messages of a recovery response are written exactly when all of them can be, and come back with their metadata |
| `SystemMessage.SerializeArrives` | packages/protocol/src/system/SystemMessage.ts:131-157 | By induction over nesting: a message is written exactly when it and all messages in it have the latest version, and reading it gives the message as it arrives |
| `SystemMessage.RoundTripIsExactIffPlain` | packages/protocol/src/system/QueryRequestSerializerV1.ts:33-49 | A message comes back unchanged exactly when no request in it leaves an optional field undefined or carries a limit |
| `SystemMessage.SameTextAgain` | packages/protocol/src/system/SystemMessage.ts:131-141 | Writing what arrived gives the same text |
| `SystemMessage.SameTextMeansSameArrival` | packages/protocol/src/system/SystemMessage.ts:131-157 | Two messages share a text exactly when they arrive as the same message |
| `SystemMessage.AcceptedTextSettles` | packages/protocol/src/system/SystemMessage.ts:146-157 | Whatever well-typed text is accepted, even with nested messages as arrays instead of strings, its message can be written and read again without further change |
| `Serializers.Registry.constructor` | packages/protocol/src/system/SystemMessage.ts:13-16 | The table starts empty |
| `Serializers.Registry.RegisterSerializer` | packages/protocol/src/system/SystemMessage.ts:66-98 | Registers, or throws and changes nothing when the version and type are taken |
| `Serializers.Registry.UnregisterSerializer` | packages/protocol/src/system/SystemMessage.ts:100-102 | Removes the type, or throws for a version never registered |
| `Serializers.UnregisterUndoesRegister` | packages/protocol/src/system/SystemMessage.ts:66-102 | Unregistering takes back registering, and the table is the same again exactly when the version was known before |
| `Serializers.LoadingFailsOnRepeat` | packages/protocol/src/system/SystemMessage.ts:87-97 | Loading the serializers fails exactly when a type comes twice |
| `Serializers.LoadingOrderIsIrrelevant` | packages/protocol/src/system/SystemMessage.ts:104-123 | The lookup after loading does not depend on the order, and tells an unknown version from an unknown type |
| `Serializers.MessagesUseTheTable` | packages/protocol/src/system/SystemMessage.ts:131-157 | Reading and writing fail at the lookup exactly as the table of the seven serializers does |
| `Hex.FromUtf8OfUtf8` | packages/protocol/src/utils/hex.ts:3-7 | Decoding the UTF-8 bytes of a text gives the text with lone surrogates replaced |
| `Hex.Utf8OfFromUtf8Iff` | packages/protocol/src/utils/hex.ts:3-7 | Encoding decoded bytes gives them back exactly when they are valid UTF-8 |
| `Hex.HexToStrUndoesStrToHex` | packages/protocol/src/utils/hex.ts:3-7 | A text comes back from its hex form exactly when every surrogate in it has its partner |
| `Hex.StrToHexUndoesHexToStr` | packages/protocol/src/utils/hex.ts:3-7 | A hex form comes back exactly when it is `0x` and lower-case digit pairs of valid UTF-8 |
| `Hex.HexToStrSettles` | packages/protocol/src/utils/hex.ts:3-7 | Decoding, encoding and decoding again is decoding once, for any input |
| `BigNumbers.MakeMeans` | packages/protocol/src/report/ReportSerializerV1.ts:28 | Padding to bytes and stripping zero bytes keep the value and the sign |
| `BigNumbers.OfInt` | packages/protocol/src/report/ReportSerializerV1.ts:138-156 | Every integer has a BigNumber of that value |
| `BigNumbers.FromTextKeepsIff` | packages/protocol/src/report/ReportSerializerV1.ts:77 | An amount read and written keeps its text exactly when the text is canonical |
| `Report.FillRecord` | packages/protocol/src/report/ReportSerializerV1.ts:26-29 | The loop that fills the node record keeps every entry in its place |
| `Report.FillDelegates` | packages/protocol/src/report/ReportSerializerV1.ts:31-40 | The nested loops that fill the delegate records do too |
| `Report.SerializeReport` | packages/protocol/src/report/ReportSerializerV1.ts:25-72 | Serializing gives the serialized form, whose records are records again |
| `Report.ReadRecord` | packages/protocol/src/report/ReportSerializerV1.ts:75-78 | The loop that reads a record stops at the first amount that is none |
| `Report.ReadDelegates` | packages/protocol/src/report/ReportSerializerV1.ts:80-88 | So do the nested loops over the delegates |
| `Report.DeserializeReport` | packages/protocol/src/report/ReportSerializerV1.ts:74-120 | Deserializing gives the plain form, or throws when any amount is malformed |
| `Report.DeserializeUndoesSerialize` | packages/protocol/src/report/ReportSerializerV1.ts:25-120 | Every plain report can be read back, signed amounts and nested delegates included, and is unchanged exactly when its stream and event ids are well-formed texts |
| `Report.SerializeUndoesDeserialize` | packages/protocol/src/report/ReportSerializerV1.ts:25-120 | A serialized report survives reading and writing exactly when all its amounts and hex ids are canonical |
| `ReportContract.ContractRebuildsReport` | packages/protocol/src/report/ReportSerializerV1.ts:137-173 | The parallel arrays are aligned, and streams, consumers, nodes and delegates can be rebuilt from them |
| `ReportContract.ContractIsTheSameIff` | packages/protocol/src/report/ReportSerializerV1.ts:131-176 | Both forms of a report give the same contract call exactly when its stream ids are well-formed texts |
| `ReportHash.PackStreams` | packages/protocol/src/report/ReportSerializerV1.ts:187-193 | The loop packs the decoded id, the amount text and the bytes of every stream |
| `ReportHash.PackConsumers` | packages/protocol/src/report/ReportSerializerV1.ts:194-199 | The loop packs every consumer after what was packed before |
| `ReportHash.PackRecord` | packages/protocol/src/report/ReportSerializerV1.ts:200-205 | The loop packs every entry of a record |
| `ReportHash.PackDelegates` | packages/protocol/src/report/ReportSerializerV1.ts:206-215 | The nested loops pack each delegate before its own records |
| `ReportHash.ToHash` | packages/protocol/src/report/ReportSerializerV1.ts:180-232 | The arguments of the hash are those of the serialized form; a timestamp of 0 counts as none |
| `ReportHash.HashedFields` | packages/protocol/src/report/ReportSerializerV1.ts:216-232 | The id, the height and the treasury are hashed as they are, a timestamp of 0 is dropped, and the packing has no item besides those below |
| `ReportHash.StreamIsHashed` | packages/protocol/src/report/ReportSerializerV1.ts:187-193 | Stream i is packed from item 3i on: decoded id, amount, bytes |
| `ReportHash.ConsumerIsHashed` | packages/protocol/src/report/ReportSerializerV1.ts:194-199 | After all streams, consumer i is packed as address, amount, bytes |
| `ReportHash.NodeIsHashed` | packages/protocol/src/report/ReportSerializerV1.ts:200-205 | After all consumers, node i is packed as address and amount |
| `ReportHash.DelegateIsHashed` | packages/protocol/src/report/ReportSerializerV1.ts:206-215 | After all nodes, each delegate's address stands before its own entries |
| `ReportHash.DelegateEntryIsHashed` | packages/protocol/src/report/ReportSerializerV1.ts:206-215 | Entry j of delegate i follows that delegate's address, as address and amount |
| `ReportHash.HashIsTheSameIff` | packages/protocol/src/report/ReportSerializerV1.ts:180-232 | A serialized report and the plain report read from it are hashed over the same arguments exactly when the amounts are canonical; ids do not matter |

## Left out

- RecoverySafety.RecoveryMissesNothing: the set of brokers is fixed and equal to the list every answer carries; `from` is computed before a newly listed broker gets a record, so a broker that joins later is not covered.
- ItemGate.GeneratedMissesNothing: the direction used for single runs; the exact condition over all runs is `ItemGate.ItemsAreWholeIff`.
- RecoveryLimits.EarlyIsSafeIff: one early message among otherwise quiet runs, judged by what the guard sees, the publisher's record and the two numbers. A message that is not safe by that can still be harmless in a particular run, such as number 1 after number 0 of the same reply was finished early.
- MessagePools.PoolsAreExact: one source event is one atomic step; the order in which one emission reaches the subscribers is that of their subscription, and finer scheduling of rxjs is not modelled.
- NetworkValidation.DoneMeans: one evaluation on the current pools; that repeated evaluations on the shared sets agree with it is `Propagates.ReevaluationIsFresh`, and that the kept primary is the current one is `NetworkValidation.PrimaryIsKept`. When the request stream is subscribed and which request it replays is not modelled.
- SystemMessage.AcceptedTextSettles: fields of a type the message does not have stop the model, while the program passes them on; the same for a missing sequence number, which the program takes from a counter.
- Json.ParseUndoesStringify: fractions, exponents, numbers beyond the safe integers, negative zero and objects are not modelled; no modelled message contains them.
- BlockSearch.Search: timestamps and block numbers are exact; rounding is that of `Math.round` on reals, without double-precision effects. What the provider does with a negative number, NaN and a block that does not exist yet follows version 5.7.2 of @ethersproject/providers, which pnpm-lock.yaml pins and which is not part of the repository; the chain does not grow during a search.
- TimeIndexer.FindAgreesWithChain: data events of one source are handled one at a time; handlers that overlap at the database `await` are not modelled.
- StoreManager.CallsAgree: calls run one after the other; overlapping calls, and callers that change the returned list, which is the cache itself, are not modelled.
- PushBuffer.PullTerminates: `clear`, `throw` and `return` of the buffer are not modelled, nor several producers that do not await.
- BigNumbers.FromTextKeepsIff: the `0X` prefix and other inputs of the BigNumber library than texts and integers are not modelled.
- `Gate.error`: not used by the buffer.
- sha256, keccak, signatures and the packed encoding: the store takes hashes as given, or as any function of what is hashed, and the report hash is compared by its typed arguments.
- `toEthereumAddress`, `toStreamID` and `toStreamPartID` come from the Streamr packages; addresses are taken to be `0x` and 40 hex digits compared in lower case, and stream parts are compared as pairs of stream id and partition.
- `Report.toJSON`, the `SystemReport` wrapper and `toProof`: they add no property to the forms modelled.
- Reading the stdout lines of the time indexer (`JSON.parse`, `parseInt`) is a parameter; stderr is not modelled.
- `Item.generate` beyond its window: fetching and sorting messages by `localeCompare`.
- `updateRequiredBlockNumber`, `startKey` and `startBlockNumber`: a maximum and two caches.
- `Report.generate`, `NodeManager.getDelegates` and `Managers.withSources`: fee distribution is commented out in the source, and the other two collect contract data.
- HTTP, RPC, the Streamr network, Arweave, KYVE, LMDB and ethereumetl appear as events or as an atomic map.
- The contracts, the subgraph, the command line tools and configuration.
