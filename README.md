# akt-tcc coordinator core in Dafny

akt-tcc is a Try-Confirm-Cancel (TCC) transaction coordinator. A caller calls
`transaction(...requests)`. The coordinator then:

1. resolves each request to a registered component;
2. asks the transaction store for a record, which holds one Hanging entry per
   component;
3. sends every component a `Try` and records each answer in the store;
4. reloads the record and, from the derived status, sends `Confirm` (Successful)
   or `Cancel` (Failure) to every component in stored order;
5. marks the record as submitted.

A recovery timer takes a store lock, finalizes every record that is still Hanging,
and re-arms itself after a delay.

The project models the following pieces.

| Module | Models |
|---|---|
| `Wrappers`, `Errors`, `Component` | Option/Result, the error values the source throws, and a component reference (id plus identity) |
| `Model` | `Transaction` and `getStatus`: a pure derived-status rule (`DeriveStatus`), and the loop (`GetStatus`) proved against it |
| `Registry` | The component registry: a class around a map. `Register` refuses a duplicate id; `GetComponents` is an all-or-nothing ordered lookup |
| `RedisKeys` | The reference component's Redis key builders, including `BuildTXKey`, which ignores its arguments |
| `TccComponent` | The reference participant. `Try`, `Confirm` and `Cancel` are methods over a Redis-like map, each proved against a step function of the map |
| `TxRecordDao` | The `tx_record` table: a sequence of rows with a primary key, each row holding an ordered status object. The read-modify-write `UpdateComponentStatus` is included |
| `TxStore` | The reference store: `CreateTX`, `TXUpdate`, `GetHangingTXs`, `TXSubmit` and `GetTX` over that table |
| `TxManager` | The coordinator, split in two layers (below) |

`TxManager` has two layers:

- **Specification functions.** Request resolution, the Try phase, the finalize sweep, the batch recovery pass, one timer firing, and the delay arithmetic of the recovery scheduler.
- **The `TXManager` class.** Its methods run those steps with loops and are proved equal to the specification functions.

Components, the store lock and its release sit outside the model. Each call the coordinator makes to them is appended to a call log as an `Event`. The reply is whatever an environment function `Env(callsSoFar, event)` answers. This makes the order of calls, and which calls happen at all, something the lemmas can state.

Five behaviours of the code are modelled as written, and lemmas expose them:

- **Only the last entry decides.** With no failed entry, `getStatus` lets only the last component entry choose between Hanging and Successful (`Model.DeparturesFromIntendedRule`).
- **No back-off after a lock failure.** `#backOffTick` (src/txmanager.ts:47-54) doubles the tick it is given and caps it at eight monitor ticks. But every firing first resets the tick to one monitor tick (src/txmanager.ts:63), and a failure to take the lock re-arms without an error (src/txmanager.ts:68). So a lock failure re-arms at one monitor tick, a failed locked pass at two, and the delay never compounds (`TxManager.DelaysNeverCompound`).
- **A repeated name shares one entry.** A name given twice gets two Trys but one stored entry, and the later write wins. When the first Try refuses and the second acks, `transaction` returns false, yet the record is derived Successful and the component gets `Confirm` (`TxManager.RepeatedNameRefusedYetConfirmed`). The source runs the two Trys concurrently, so which write lands last depends on timing; the model takes them in request order.
- **Loaded transactions never time out.** `getTX` and `getHangingTXs` build each `Transaction` without its stored creation time, so `createdAt` becomes the load time (packages/example/src/txstore.ts:133). `#advanceProgress` takes its cutoff at that same moment (src/txmanager.ts:102-106), so the timeout branch of `getStatus` (src/model.ts:41) never fires for a transaction the coordinator loads; with any non-negative timeout, finalizing acts as with a timeout of 0, and a transaction whose entries still hang stays Hanging for good (`TxStore.LoadedTransactionsNeverTimeOut`, `TxManager.LoadedAdvanceIgnoresTimeout`).
- **One status key for everything.** The reference component keeps every transaction of every component under one status key. So after the first `Try`, later Trys write nothing, and a second participant cannot confirm (`TccComponent.LaterTriesWriteNothing`, `TccComponent.SecondParticipantCannotConfirm`).

## Model

| member | source | states |
|---|---|---|
| `Model.NewTransaction` | src/model.ts:30-36 | components default to none; `createdAt` defaults to the construction time `now` |
| `Model.GetStatus` | src/model.ts:38-62 | the loop with early returns and the overwritten `hangingExist` flag returns exactly `DeriveStatus`: timeout first, then any failure, then the last entry |
| `Model.TimeoutDominates` | src/model.ts:41-43 | created before the cutoff gives Failure, whatever the entries are |
| `Model.TimeoutIsStrict` | src/model.ts:41 | created exactly at the cutoff is not timed out: only the entries decide, and the result is Failure iff some entry failed |
| `Model.FailureAnywhereFails` | src/model.ts:48-51 | a TryFailure entry at any position gives Failure |
| `Model.AllSucceededSucceeds` | src/model.ts:45-61 | not timed out and every entry succeeded (including none) gives Successful |
| `Model.LastEntryDecides` | src/model.ts:53-60 | not timed out and no failure: the result is never Failure, and it is Hanging iff the last entry has not succeeded |
| `Model.EarlierHangingEntryIgnored` | src/model.ts:53-61 | [Hanging, Successful] is derived Successful |
| `Model.DeparturesFromIntendedRule` | src/model.ts:45-61 | the code differs from the "any unfinished entry keeps it Hanging" rule exactly when nothing failed, the last entry succeeded and an earlier one is Hanging; it then says Successful where that rule says Hanging |
| `Registry.Lookup` | packages/txmanager/src/lib/tccregister.ts:21-38 | succeeds iff every id is registered, then returns one component per id in request order; otherwise it fails with the first missing id |
| `Registry.RegistryCenter.constructor` | packages/txmanager/src/lib/tccregister.ts:5-8 | the registry starts empty |
| `Registry.RegistryCenter.Register` | packages/txmanager/src/lib/tccregister.ts:10-19 | an unused id adds exactly that entry; a used id fails with a duplicate error and leaves the map unchanged |
| `Registry.RegistryCenter.GetComponents` | packages/txmanager/src/lib/tccregister.ts:21-38 | the loop returns `Lookup` of the map and modifies nothing; on success there is one component per id in order; it fails iff some id is missing |
| `Registry.RegisterThenLookup` | packages/txmanager/src/lib/tccregister.ts:10-19 | after registering an unused id, looking it up returns the new component, and every lookup that succeeded before gives the same answer |
| `Registry.DuplicateKeepsFirst` | packages/txmanager/src/lib/tccregister.ts:12-15 | after a refused duplicate, the first component is still the one returned |
| `Registry.RepeatedIdsRepeat` | packages/txmanager/src/lib/tccregister.ts:25-28 | a repeated id yields the same component at each of its positions |
| `Registry.OneMissingFailsAll` | packages/txmanager/src/lib/tccregister.ts:29-31 | one missing id fails the whole lookup, with no partial result |
| `RedisKeys.TXKeyIgnoresArguments` | packages/example/src/dao/redis.ts:6-8 | the status key is the same for every component and transaction |
| `RedisKeys.DataKeyHasAtLeastThreeColons` | packages/example/src/dao/redis.ts:15-21 | every data key holds at least three ':' |
| `RedisKeys.DataKeyIsNotTXKey` | packages/example/src/dao/redis.ts:6-21 | no data key equals the status key, whatever the arguments of either |
| `RedisKeys.DetailKeyIsDistinct` | packages/example/src/dao/redis.ts:6-26 | a detail key never equals a status, data or lock key |
| `RedisKeys.LockKeysAreDistinct` | packages/example/src/dao/redis.ts:6-30 | lock keys, and the record-lock constant, never equal a key that holds state |
| `RedisKeys.DetailKeyInjective` | packages/example/src/dao/redis.ts:10-12 | with ':'-free component ids, equal detail keys mean equal component and transaction |
| `RedisKeys.DataKeyNamesItsComponent` | packages/example/src/dao/redis.ts:15-21 | with ':'-free component ids, data keys of different components never collide |
| `TccComponent.TryStep` | packages/example/src/tcccomponent.ts:44-67 | status tried or confirmed: ack, nothing written; canceled: nack, nothing written; apart from the component lock, never throws |
| `TccComponent.ConfirmStep` | packages/example/src/tcccomponent.ts:89-121 | apart from the component lock, never throws; a nack writes nothing; on a status already confirmed it acks and writes nothing |
| `TccComponent.CancelStep` | packages/example/src/tcccomponent.ts:134-159 | apart from the component lock: throws, writing nothing, iff the status is confirmed; otherwise acks |
| `TccComponent.CancelEffect` | packages/example/src/tcccomponent.ts:142-151 | a Cancel that is not refused deletes the data key its detail names (unless the detail is the empty string), sets the status key to canceled, and changes no other key |
| `TccComponent.MockComponent.constructor` | packages/example/src/tcccomponent.ts:26 | keeps its id and client |
| `TccComponent.MockComponent.Try` | packages/example/src/tcccomponent.ts:28-73 | the get/set/setnx sequence leaves the client's map and the response exactly as `TryStep` of the old map says |
| `TccComponent.MockComponent.Confirm` | packages/example/src/tcccomponent.ts:75-127 | leaves the map and the response as `ConfirmStep` of the old map says |
| `TccComponent.MockComponent.Cancel` | packages/example/src/tcccomponent.ts:129-165 | leaves the map and the result as `CancelStep` of the old map says |
| `TccComponent.FreshTryEffect` | packages/example/src/tcccomponent.ts:53-67 | a first Try acks, stores biz_id under the detail key, sets the data key to frozen only if absent, marks the status key tried, and changes no other key |
| `TccComponent.ConfirmAfterFrozen` | packages/example/src/tcccomponent.ts:99-121 | tried with frozen data: acks, the data becomes successful and the status confirmed, and every other key keeps its value |
| `TccComponent.ConfirmRejectsOtherwise` | packages/example/src/tcccomponent.ts:89-108 | Confirm acks iff the status is confirmed, or is tried with the data frozen |
| `TccComponent.ConfirmIsIdempotent` | packages/example/src/tcccomponent.ts:89-92 | after an acked Confirm, a repeat acks and writes nothing |
| `TccComponent.CancelIsIdempotent` | packages/example/src/tcccomponent.ts:134-159 | a second Cancel acks again and leaves the map as the first left it |
| `TccComponent.CancelAfterConfirmIsRefused` | packages/example/src/tcccomponent.ts:137-140 | after an acked Confirm, Cancel throws and writes nothing, for every component and transaction |
| `TccComponent.TryAfterCancelIsRejected` | packages/example/src/tcccomponent.ts:49-50 | after a Cancel, every Try nacks and writes nothing |
| `TccComponent.LaterTriesWriteNothing` | packages/example/src/tcccomponent.ts:36-48 | after any first Try, every later Try of any component for any transaction acks and writes nothing |
| `TccComponent.SecondParticipantCannotConfirm` | packages/example/src/tcccomponent.ts:36-121 | on a fresh store, two participants' Trys both ack, but only the first one's Confirm succeeds |
| `TxRecordDao.Put` | packages/example/src/txstore.ts:26-28 | assigning to an object key keeps an existing key's position and appends a new key; the keys stay distinct; only that key's entry changes |
| `TxRecordDao.FindMany` | packages/example/src/dao/txrecord.ts:4-8 | returns exactly the matching rows, at most as many as the table has, keeping the primary key |
| `TxRecordDao.FindFirst` | packages/example/src/dao/txrecord.ts:27-31 | none iff no row has the id; otherwise the first row with it |
| `TxRecordDao.SetComponentStatus` | packages/example/src/dao/txrecord.ts:22-46 | succeeds iff the record and its entry exist; otherwise fails with record-not-found or missing-entry |
| `TxRecordDao.SetRecordStatus` | packages/example/src/dao/txrecord.ts:16-20 | an update by id succeeds iff the record exists |
| `TxRecordDao.SetComponentStatusWritesOneEntry` | packages/example/src/dao/txrecord.ts:37-45 | only the named entry's try status changes; every other entry, record, id, key and column stays |
| `TxRecordDao.SetRecordStatusWritesOneRecord` | packages/example/src/txstore.ts:95-105 | submitting sets the record's status and update time and nothing else |
| `TxRecordDao.SetRecordStatusStores` | packages/example/src/txstore.ts:95-105 | after a successful submit, the record reads back the submitted status, the table stays valid, and every other row is unchanged |
| `TxRecordDao.TXRecordTable.CreateTXRecord` | packages/example/src/dao/txrecord.ts:10-14 | appends the row, or fails on an id already in use and changes nothing |
| `TxRecordDao.TXRecordTable.UpdateTXRecordStatus` | packages/example/src/dao/txrecord.ts:16-20 | the new table is `SetRecordStatus` of the old one; a failure changes nothing |
| `TxRecordDao.TXRecordTable.UpdateComponentStatus` | packages/example/src/dao/txrecord.ts:22-46 | the read-modify-write leaves the table as `SetComponentStatus` says; a failure changes nothing |
| `TxStore.InitialStatusesShape` | packages/example/src/txstore.ts:21-29 | one Hanging entry per distinct id, with repeated ids collapsing into one key; with distinct ids the keys are the ids in order |
| `TxStore.MockTXStore.constructor` | packages/example/src/txstore.ts:17-19 | wraps the table |
| `TxStore.MockTXStore.CreateTX` | packages/example/src/txstore.ts:21-42 | appends a Hanging record with one Hanging entry per component and returns its id; fails on an id already in use |
| `TxStore.MockTXStore.BuildStatuses` | packages/example/src/txstore.ts:23-29 | the loop builds the initial status object, with distinct keys |
| `TxStore.MockTXStore.TXUpdate` | packages/example/src/txstore.ts:44-50 | sets the entry to TrySucceesful if accepted, else TryFailure |
| `TxStore.MockTXStore.ParseComponents` | packages/example/src/txstore.ts:124-131 | the entities are the stored entries in key order |
| `TxStore.MockTXStore.GetHangingTXs` | packages/example/src/txstore.ts:52-79 | one transaction per Hanging record, in table order, loaded now |
| `TxStore.MockTXStore.TXSubmit` | packages/example/src/txstore.ts:95-105 | sets the status to Successful or Failure and the update time |
| `TxStore.MockTXStore.GetTX` | packages/example/src/txstore.ts:107-134 | fails unless exactly one record matches; the loaded transaction has that id and `createdAt == now` |
| `TxStore.HangingTransactionsAreTheHangingRecords` | packages/example/src/txstore.ts:52-79 | every Hanging record is returned, only Hanging records are returned, and no id is returned twice |
| `TxStore.SubmittedIsNoLongerHanging` | packages/example/src/txstore.ts:95-105 | after a submit, the hanging scan never returns that id |
| `TxStore.LoadedTransactionsNeverTimeOut` | packages/example/src/txstore.ts:133 | a loaded transaction's `createdAt` is its load time, so for any cutoff no later than that only the entries decide |
| `TxStore.GetTXFindsTheRecord` | packages/example/src/txstore.ts:107-134 | with a primary key, `GetTX` succeeds iff the record exists, then returns its id, the load time and its stored entries |
| `TxManager.ResolveOptions` | src/txmanager.ts:13-18 | a missing or zero option takes 5000 / 10000; a value that was given is kept; neither is ever 0 |
| `TxManager.BackOffTick` | src/txmanager.ts:47-54 | the result is the minimum of twice the tick and eight monitor ticks |
| `TxManager.Delays` | src/txmanager.ts:56-87 | the first timer is armed with delay 0, then one delay per firing |
| `TxManager.DelaysNeverCompound` | src/txmanager.ts:56-87 | each later delay is one monitor tick, or two after a failed locked pass (so a lock failure never backs off), and never more than eight |
| `TxManager.IdToReqKeys` | src/txmanager.ts:183-188 | `idToReq` binds exactly the requested names, each to a request that carries it |
| `TxManager.LastRequestWins` | src/txmanager.ts:185-188 | each name is bound to the last request given for it |
| `TxManager.Resolve` | src/txmanager.ts:182-205 | succeeds iff every name is registered, then gives one entity per request, in order, with the registered component; otherwise an unknown-id error for a requested name |
| `TxManager.RepeatedNameTakesLastRequest` | src/txmanager.ts:185-200 | with a repeated name, every entity for it carries the last request given for it |
| `TxManager.TryPhaseCallsEveryComponent` | src/txmanager.ts:151-167 | every component gets exactly one Try, in order, whatever the others answered |
| `TxManager.TryOneKeepsEntries` | src/txmanager.ts:158-164 | recording one Try keeps the table valid and every entry in place |
| `TxManager.TryOneFulfilledIffAck` | src/txmanager.ts:151-165 | one Try is fulfilled iff the component acked |
| `TxManager.TryPhaseKeepsEntries` | src/txmanager.ts:151-167 | the Try phase keeps the table valid and every entry in place |
| `TxManager.TryPhaseFulfilledIffAllAck` | src/txmanager.ts:167-179 | the `successful` flag is true iff every Try acked |
| `TxManager.TryOneWrites` | src/txmanager.ts:158-164 | a Try writes only its own entry: success on ack, failure on nack, nothing when it threw |
| `TxManager.TryPhaseKeepsShape` | src/txmanager.ts:151-165 | the Try phase changes try statuses only: every record keeps its id, columns and keys |
| `TxManager.TryPhaseLeavesOthers` | src/txmanager.ts:151-165 | an entry of a component the phase does not try stays unchanged |
| `TxManager.TryPhaseRecordsReply` | src/txmanager.ts:151-165 | with distinct components, each entry ends up holding what its own Try answered |
| `TxManager.AllAckedPhaseSucceeds` | src/txmanager.ts:151-165 | when every Try acks, every tried component's entry reads Successful, also with repeated components |
| `TxManager.RepeatedTryPhase` | src/txmanager.ts:151-179 | one component tried twice, refused then acked: the phase is not successful, yet the shared entry ends Successful |
| `TxManager.SweepStopsAtFirstFailure` | src/txmanager.ts:112-136 | once a prefix of the sweep fails, no later component is called |
| `TxManager.SweepOneCalls` | src/txmanager.ts:113-135 | an unregistered component fails without a call; a registered one gets Confirm or Cancel and must ack |
| `TxManager.SweepCallsAPrefix` | src/txmanager.ts:112-136 | the sweep calls a prefix of the stored components in order; on success, all of them |
| `TxManager.SweepSucceedsIffAllAck` | src/txmanager.ts:112-138 | the sweep succeeds iff every component is registered and acks |
| `TxManager.AdvanceSettles` | src/txmanager.ts:102-139 | derived Hanging: no call and no write; a failure writes nothing; a success has called every component in order, stored the derived status (Successful or Failure) in the record, changed no other row, and the record leaves the hanging scan |
| `TxManager.LoadedAdvanceIgnoresTimeout` | src/txmanager.ts:102-106 | for a transaction loaded at the finalize time and a non-negative timeout, finalizing equals finalizing with timeout 0, and entries that still hang leave it untouched with no call |
| `TxManager.SucceededRecordConfirms` | src/txmanager.ts:102-139 | a loaded transaction whose entries all succeeded, not timed out, commits when Confirm acks, and each of its components gets Confirm |
| `TxManager.AdvanceCommits` | src/txmanager.ts:102-139 | derived Successful with every component registered and acking Confirm: the finalize succeeds |
| `TxManager.AdvanceCallsOnlyFinalize` | src/txmanager.ts:102-139 | finalizing makes only Confirm and Cancel calls |
| `TxManager.BatchFailsIffSomeAttemptFails` | src/txmanager.ts:90-100 | every transaction is attempted; the pass fails iff some attempt fails, and then with the first failing attempt's error |
| `TxManager.BatchCallsOnlyFinalize` | src/txmanager.ts:90-100 | a pass makes only Confirm and Cancel calls |
| `TxManager.UnlockOnlyAfterCleanPass` | src/txmanager.ts:62-83 | a firing first asks for the lock; it is lock-rejected iff `Lock` threw; `Unlock` is called iff the lock was taken and the whole pass succeeded, and then it is the last call |
| `TxManager.NewRecordIsValid` | packages/example/src/txstore.ts:21-42 | appending the new record keeps the table valid |
| `TxManager.NewRecordHasEntries` | packages/example/src/txstore.ts:23-29 | the new record has an entry for every component of the transaction |
| `TxManager.FreshRecord` | packages/example/src/txstore.ts:21-42 | with distinct components, the new record is found last, its keys are the component ids in order, and each entry is Hanging |
| `TxManager.TransactionAnswersWhetherEveryTryAcked` | src/txmanager.ts:34-45 | `transaction` tries every component once in request order, and its answer is whether every Try acked |
| `TxManager.LoadedAfterTryPhase` | src/txmanager.ts:141-177 | after the Try phase, `GetTX` reloads the record with one entry per component, in request order, each holding what that Try answered |
| `TxManager.TriedRecordKeys` | packages/example/src/txstore.ts:21-42 | after the Try phase, the new record is still found where it was appended, and its keys are exactly the component ids |
| `TxManager.TriedRecordLoads` | src/txmanager.ts:141-177 | for any registered components, repeated ones included, `GetTX` reloads the record after the Try phase: its keys are their ids, one per distinct id, each entry holding that key's status |
| `TxManager.AckedRecordLoads` | src/txmanager.ts:141-177 | for any request list, when every Try acks, the reloaded record has every entry Successful and every key registered |
| `TxManager.ResolvedRegistered` | src/txmanager.ts:190-204 | each resolved component is the registered one under its request's name |
| `TxManager.TransactionFinalizesAsDerived` | src/txmanager.ts:34-45 | when derived Hanging, nothing after the Trys happens; a failure leaves the Try-phase table; a success has called Confirm (Successful) or Cancel (Failure) on every component in request order, stored that status in the record, changed no other row, and the record leaves the hanging scan |
| `TxManager.RejectedTryCancelsEveryComponent` | src/txmanager.ts:151-179 | one nack makes `transaction` return false, and a successful finalize cancels every component and stores Failure |
| `TxManager.AckedTriesConfirmEveryComponent` | src/txmanager.ts:151-179 | all acks within a non-negative timeout make `transaction` return true, and a successful finalize confirms every component and stores Successful |
| `TxManager.AckedTransactionCommits` | src/txmanager.ts:34-45 | for any request list, repeated names included, every Try and every Confirm acking, within a non-negative timeout, makes `transaction` return true |
| `TxManager.RepeatedNameRefusedYetConfirmed` | src/txmanager.ts:34-45 | a name given twice, its first Try refused and its second acked: `transaction` returns false, yet the component gets Confirm |
| `TxManager.TXManager.constructor` | src/txmanager.ts:13-22 | resolved options, an empty registry, no calls yet, and the first timer armed with tick 0 |
| `TxManager.TXManager.Register` | src/txmanager.ts:30-32 | delegates to the registry: the same duplicate and add outcomes |
| `TxManager.TXManager.GetComponentEntities` | src/txmanager.ts:182-205 | the loop that builds `idToReq` and the name list, the registry lookup and the pairing `map` return `Resolve` of the registry |
| `TxManager.TXManager.TwoPhaseCommit` | src/txmanager.ts:147-180 | the calls, the table and the result are those of `TwoPhase` |
| `TxManager.TXManager.AdvanceProgress` | src/txmanager.ts:102-139 | the loop's calls, table and result are those of `Advance` |
| `TxManager.TXManager.FinalizeComponent` | src/txmanager.ts:113-135 | one turn of the loop makes the call and gives the result `SweepOne` describes: unknown id, a thrown call, a rejected ack or success |
| `TxManager.TXManager.AdvanceProgressByTXID` | src/txmanager.ts:141-145 | loads the record, then does what `Advance` does |
| `TxManager.TXManager.BatchAdvanceProgress` | src/txmanager.ts:90-100 | the collect-all loop ends as `Batch` does |
| `TxManager.TXManager.Transaction` | src/txmanager.ts:34-45 | resolve, create the record, then the two-phase commit, as `Run` says |
| `TxManager.TXManager.Fire` | src/txmanager.ts:58-83 | one firing ends as `FireOnce` says, and re-arms the timer with `NextDelay` of its outcome |

## Specification functions

These functions model source code directly. Their contracts are the lemmas and method postconditions named beside them in the table above, so they have no row of their own.

- `RedisKeys.BuildTXKey`, `BuildTXDetailKey`, `BuildDataKey`, `BuildTXLockKey`, `BuildTXRecordLockKey`: packages/example/src/dao/redis.ts:6-30. Stated by the `RedisKeys` lemmas.
- `TxStore.NewRecord` (packages/example/src/txstore.ts:21-42), `TxStore.Load` (packages/example/src/txstore.ts:124-134), `TxStore.LoadTX` (packages/example/src/txstore.ts:107-134), `TxStore.HangingTransactions` (packages/example/src/txstore.ts:52-79). Stated by `MockTXStore.CreateTX`, `GetTX`, `GetHangingTXs`, `GetTXFindsTheRecord`, `HangingTransactionsAreTheHangingRecords` and `SubmittedIsNoLongerHanging`.
- `TxRecordDao.RecordStatus`, `TxRecordDao.SubmittedAs`: the status column after packages/example/src/txstore.ts:95-105. Stated by `SetRecordStatusStores`.
- `TxManager.TryOne`, `TxManager.TryPhase`: src/txmanager.ts:151-179. Stated by the `TryPhase…`, `TryOne…` and `AllAckedPhaseSucceeds` lemmas and by `TXManager.TwoPhaseCommit`.
- `TxManager.SweepOne`, `TxManager.Sweep`: src/txmanager.ts:112-136. Stated by the `Sweep…` lemmas and `TXManager.FinalizeComponent`.
- `TxManager.Advance` (src/txmanager.ts:102-139), `TxManager.AdvanceByTXID` (src/txmanager.ts:141-145). Stated by `AdvanceSettles`, `AdvanceCommits`, `AdvanceCallsOnlyFinalize`, `LoadedAdvanceIgnoresTimeout` and `TXManager.AdvanceProgress`.
- `TxManager.Batch`, `TxManager.BatchAttempt`: src/txmanager.ts:90-100. Stated by `BatchFailsIffSomeAttemptFails`, `BatchCallsOnlyFinalize` and `TXManager.BatchAdvanceProgress`.
- `TxManager.TwoPhase` (src/txmanager.ts:147-180), `TxManager.Run` (src/txmanager.ts:34-45). Stated by `TransactionAnswersWhetherEveryTryAcked`, `TransactionFinalizesAsDerived`, the scenario lemmas and `TXManager.Transaction`.
- `TxManager.NextDelay`, `TxManager.LockedPass`, `TxManager.FireOnce`: src/txmanager.ts:56-87. Stated by `DelaysNeverCompound`, `UnlockOnlyAfterCleanPass` and `TXManager.Fire`.

## Left out

- Timers: `setTimeout`, `clearTimeout`, `stop()` and the Node timer handle. The model keeps only the delay each firing re-arms with (`monitor` holds that delay). Time and concurrency are outside it.
- Promises run one after another. The `Promise.allSettled` and `Promise.all` fan-outs are taken as sequential loops over the elements, in order. Interleavings of concurrent Trys or finalizes are not modelled.
- The registry's `RWMutex`. This is concurrency. The unreleased lock after a refused duplicate (tccregister.ts:14 throws before line 18) is outside the model.
- `packages/example/src/redisLock.ts` is not part of this model. The coordinator's store lock (`Lock` and `Unlock`) is an abstract call that returns or throws, as the environment says.
- `TccComponent.TryStep`, and the `Try` method it specifies, assume the component's per-transaction `MiniRedisLock` (tcccomponent.ts:29-34, 71) is taken and released without error. In the source either step can make the call throw: `lock` is a `setex` (redisLock.ts:21-25) and `Unlock` throws when its ownership check fails (redisLock.ts:45-47), even after the step's writes.
- `TccComponent.ConfirmStep`, and the `Confirm` method, make the same assumption about the lock taken at tcccomponent.ts:76-78 and released at tcccomponent.ts:125.
- `TccComponent.CancelStep`, `TccComponent.CancelEffect` and the `Cancel` method make the same assumption about the lock taken at tcccomponent.ts:130-132 and released at tcccomponent.ts:163.
- The Prisma and Redis clients, module-level client creation, and JSON serialisation. The status column is the parsed object itself, and parse/stringify are taken as identity.
- JavaScript objects put integer-like keys first. The model keeps insertion order for every key.
- Writes that are not awaited (tcccomponent.ts:63, 117, 147) complete at once. The races they allow are concurrency.
- `Date.now()` is a `now` parameter, read once per call.
- The database allocates the record id. The model takes it as a parameter, `newId`, and a clash is a store error.
- The Redis client's calls (`Get`, `Set`, `SetNX`, `Del`) are small map operations. They need no row of their own.
- `TxManager.BackOffTick`: JavaScript's 32-bit `<<` is not modelled. Instead, a precondition keeps the tick and monitor tick in the range where doubling and ×8 do not overflow (`ShiftSafe`), and `Fire` requires it.
- `TccComponent.TryStep`: of the request payload only `biz_id` is kept, as a string. A missing `biz_id` (undefined turned into text) is not modelled. The component methods are not wired to the coordinator's abstract environment. The coordinator sends the whole request entity as the request data.
- `TxManager.TransactionFinalizesAsDerived`, `TxManager.LoadedAfterTryPhase`, `TxManager.RejectedTryCancelsEveryComponent`, `TxManager.AckedTriesConfirmEveryComponent`, `TxManager.FreshRecord` and `TxManager.TryPhaseRecordsReply` assume distinct component names in the request. With a repeated name, a later Try overwrites the single stored entry, and the reloaded record has fewer entries than requests. `TryPhaseFulfilledIffAllAck`, `TransactionAnswersWhetherEveryTryAcked`, `TriedRecordLoads`, `AckedRecordLoads` and `AckedTransactionCommits` hold without that assumption; `RepeatedNameRefusedYetConfirmed` covers the repeated case.
- The `components.length` check in `#advanceProgress` (src/txmanager.ts:120-122) and the length check in `#getComponents` (src/txmanager.ts:192-194) can never fire, because `getComponents` either returns one component per id or throws. The model shows this by assertion instead of having a branch.
- `src/txstore.ts` and `src/component.ts` are interfaces and plain data; they only give types and signatures here. `src/index.ts`, `packages/txmanager/src/index.ts` and `packages/txmanager/rollup.config.js` are re-exports and build configuration.
