# Verified model of the Serpent Circle evidence pipeline

A Dafny model of the parts of the pipeline that keep state under contention, or that compute
something in a fast or derived form that has to agree with a simple one. Each module follows one
or two source files; paths below are relative to the repository root.

- **Archive** (`Evidence`, `ConditionalWrites`, `ArchiveProtocol`, `ArchiveSafety`, `ArchiveProgress`, `ArchiveLock`,
  `ArchiveStores`, `Compactor`, `ArchiveLink`; `ops/archive.py`). Any number of compactors merge hot evidence rows
  into one object per source and month.
  `ArchiveProtocol` is a state machine whose steps are stat, read, conditional put (on local disk: check, then
  rename), the two verifications, marking, commit, rollback or crash, and pruning; every interleaving is a run.
  `ArchiveLock` lets local writers bypass the merge lock and says what is lost then. `Compactor` is the compactor
  object itself, run against a store whose rivals follow an arbitrary script; `ArchiveLink` ties it to the protocol.
  Conditional writes are If-Match and If-None-Match, sections 13.1.1 and 13.1.2 of RFC 9110.
- **RPC endpoint pool** (`RpcRouting`, `RpcHealth`, `RpcAlerts`, `RpcEndpointPools`, `RpcDispatch`;
  `ingestion/rpc_pool.py`). Selection by
  health and least recent use, the forced probe slot, down state, and outage alerts whose delivery happens outside
  the lock. The class is proved against value-level operations; the fairness and at-most-once results are about
  whole runs of those.
- **Lake reconstruction** (`LakeMarket`, `LakeHolders`, `HolderPaths`, `HolderFeatures`, `LakeCaches`;
  `features/lake.py`, `features/factory.py`).
  The batched, cached read of the archived evidence against the uncached single-asset read, and the holder features
  against the table path.
- **Labels** (`LabelTables`, `DenseLabels`; `data_lake/labels.py`, `forecast/labels.py`). Four writers and two
  upserts over one table, and the hourly grid of dense labels.
- **Event broker** (`EventBroker`, `BrokerDelivery`; `engine/state.py`). Bounded fan-out with callbacks on event loops.
- **Learning and evaluation** (`Fingerprint`, `Narrative`, `Hazard`, `Splits`, `Backtest`). Wallet syndicates as
  connected components, greedy narrative clustering, the empirical survival curve, leak-free splits and
  walk-forward accounting.

Objects whose methods update fields are classes. Dictionaries with the same keys that every operation updates
together (`_health`, `_consecutive_failures` and `_last_used` of the pool; its three probe dictionaries) are one map
of records. Times are integer seconds or hours; scores and rates are exact reals. Database tables are maps or
sequences, a transaction is atomic, and times of day, probe answers, callback answers and embeddings are parameters.

`dafny verify dfyconfig.toml` checks everything.

## Where the code and its documentation differ

The model follows the code.

- `ops/archive.py:186-188` says that the local If-Match check stops a writer that bypasses the lock. The check and the
  rename are two steps: `ArchiveLock.BypassLosesARow` is a run from the empty archive in which an archived and pruned
  row is overwritten, and `ArchiveLock.RenameLosesExactly` says which rows a rename loses.
- `features/lake.py:310-323` calls the cache least-recently-used. A hit does not reorder entries; eviction is first in,
  first out (`LakeCaches.InsertedEvictsTheOldest`).
- `ingestion/rpc_pool.py:163` dates an outage only if no date is left from before, and a success clears none. The
  reported down time is therefore that of the present outage only under the condition of
  `RpcAlerts.DownTimeIsExactUnlessARecoveryWasMissed`.
- `data_lake/labels.py:181-184` calls dense entry prices interpolated; they are the last price known at the grid point.
- `forecast/hazard.py:17-20` describes events over those at risk per bin. The number at risk is the sample count in
  every bin.

## Model

| member | source | states |
|---|---|---|
| Evidence.MergeAppends | ops/archive.py:572-577 | merging a batch into duplicate-free rows keeps them as a prefix, adds exactly the unknown ids, each once |
| Evidence.MergeIsIdempotent | ops/archive.py:573-577 | merging a batch again after a failed commit changes nothing |
| ArchiveSafety.GuardedPutExtends | ops/archive.py:566-585 | if the tag still matches at the put, the bytes read are the present object even when they were newer than the tag, so the put extends it: no ABA |
| ArchiveSafety.StepKeepsInv | ops/archive.py:552-630 | every step of every process, crashes and rollbacks included, keeps the invariant and shrinks no object |
| ArchiveSafety.ObjectsAreAppendOnly | ops/archive.py:552-608 | in every run each object is duplicate-free, holds only rows ingested for it and is a prefix of all its later versions |
| ArchiveSafety.NoRowIsLost | ops/archive.py:571-630 | in every reachable state every row ever ingested is in the hot table or in its object |
| ArchiveSafety.ArchivedOrPrunedIsInLake | ops/archive.py:712-730 | a row committed as archived, or gone from the hot table, is in its object from then on |
| ArchiveSafety.LocalMergesExclude | ops/archive.py:64-93 | on local disk at most one process is inside a merge |
| ArchiveSafety.LostAnswerIsHarmless | ops/archive.py:571-585 | a write whose answer is lost marks nothing and gives the lock back; its rows are in the object from then on, and merging the group again would leave the object as it is |
| ArchiveProgress.ConflictsAreCharged | ops/archive.py:536-550 | the conflicts of one merge, pending ones included, never outnumber the rival writes on that partition |
| ArchiveProgress.ConflictHasRival | ops/archive.py:584-598 | a put conflicts only if a rival write landed between its own stat and the put, so some contender progressed |
| ArchiveProgress.TwoRivalsNeverExhaust | ops/archive.py:517-550 | at most two rival writes never use up the three attempts, unless the compactor's own write or verification fails |
| ArchiveProgress.ThirdConflictIsFinal | ops/archive.py:517-550 | in no reachable state does a merge go on after three conflicts |
| ArchiveProgress.TwoRivalsReachTheLastCheck | ops/archive.py:517-617 | then the merge stands before its last check after at most eleven steps of its own, and a step of its own is possible until it does |
| ArchiveProgress.UndisturbedWriteIsMarked | ops/archive.py:599-630 | a written merge that no rival overwrites before the last check marks its whole group and goes on to the next |
| ArchiveProgress.MarkedWithinTwelveSteps | ops/archive.py:517-630 | with at most two rival writes, none of them while the merge verifies its own, and no other error, the whole group is marked within twelve steps of the compactor |
| ArchiveLock.RenameLosesExactly | ops/archive.py:185-192 | with writers that may bypass the lock, a local rename loses a stored row if and only if the row was neither in the object at the writer's own If-Match check nor in its batch |
| ArchiveLock.HoldingTheLockLosesNothing | ops/archive.py:185-192 | no row is lost by a writer that holds the lock from its check to its rename, if those that write meanwhile hold it too |
| ArchiveLock.WithoutBypassNothingIsLost | ops/archive.py:64-93 | as long as nobody bypasses the lock no row of a local archive is ever lost |
| ArchiveLock.BypassLosesARow | ops/archive.py:185-192 | some run in which only one writer bypasses the lock ends with a row that is neither hot nor in any object |
| ArchiveStores.ArchiveStore.PutIfMatch | ops/archive.py:305-313 | the write lands exactly if the object still carries the tag, which fails exactly if it did not to begin with or a rival wrote a new version; with tags that are digests a rival's rewrite of the same bytes does no harm |
| ArchiveStores.ArchiveStore.PutIfAbsent | ops/archive.py:288-303 | the write lands exactly if the object did not exist and no rival created it meanwhile |
| Compactor.PutMerged | ops/archive.py:566-598 | one attempt under any interference is decided by its own three looks at the store; a lost one cost a rival a new version |
| Compactor.Verified | ops/archive.py:599-617 | the verification passes exactly if the size found and then the bytes read are those of the payload; it passes without interference and never on other bytes |
| Compactor.RawEvidenceCompactor.MergeOnePartition | ops/archive.py:552-630 | on success the object covers the group, exactly the group is marked, and the manifest has the digest and row count of the written version, a prefix of the object, which is the object itself if nobody interferes; otherwise nothing is marked or recorded and a rival wrote |
| Compactor.RawEvidenceCompactor.CompactPartition | ops/archive.py:519-550 | at most three attempts; failing with a conflict takes all three and means three more versions written by rivals on the partition |
| Compactor.RawEvidenceCompactor.GroupBatch | ops/archive.py:480-486 | the groups split the rows of the batch that pass the filter, in order |
| Compactor.RawEvidenceCompactor.Compact | ops/archive.py:429-510 | a completed pass marks and counts exactly its part of the batch, covers it in the lake, and reports; rows that are referenced, unarchived or younger than the retention cutoff stay unchanged and all others go; an aborted pass marks whole partitions only, those covered in the lake, and prunes nothing |
| Compactor.RawEvidenceCompactor.Prune | ops/archive.py:712-730 | every referenced, every unarchived and every younger row is still there unchanged, and every other row is gone and counted |
| Compactor.PassShrinksBacklog | ops/archive.py:455-510 | a pass takes exactly its filtered batch off the backlog |
| Compactor.ScheduledPassMoves | ops/archive.py:351-379 | a scheduled pass makes progress if and only if a due partition has a row among the oldest batch |
| Compactor.PassesDrainBacklog | ops/archive.py:351-379 | with no new aged rows, passes leave no partition due, and no aged row unarchived, if and only if their number times the batch size reaches the number of aged unarchived rows at the start |
| ArchiveLink.AttemptIsProtocolSteps | ops/archive.py:566-598 | an attempt of the compactor object that meets the store at the protocol's stat, read and put has the outcome of that put and leaves the same objects; on local disk the put is a check and a rename with no rival write in between |
| ArchiveLink.VerificationIsProtocolSteps | ops/archive.py:599-630 | the protocol's two checks, of size and of hash, pass exactly when the object's read-back does, and only then is the group marked |
| ArchiveLink.CommitIsMarkAndPrune | ops/archive.py:712-730 | the protocol may delete what the compactor object prunes, and its prune and commit leave the hot table as marking and pruning do |
| ArchiveLink.BatchMayBeOpened | ops/archive.py:455-486 | the groups of a batch of the backlog are groups the protocol lets a process open |
| RpcRouting.HealthiestMeans | ingestion/rpc_pool.py:128-135 | the healthiest endpoints are those no other one beats |
| RpcHealth.PickTakes | ingestion/rpc_pool.py:109-139 | every twentieth pick takes the least recently used of those down, if any is and no probe runs; other picks take, of those up, the least recently used of the healthiest; with none up, the least recently used of all |
| RpcHealth.FreshPoolServesInOrder | ingestion/rpc_pool.py:70-139 | a fresh pool serves its endpoints once each in the order given |
| RpcRouting.RunKeepsValid | ingestion/rpc_pool.py:141-163 | along every run health stays in [0, 1] and no endpoint was used in the future |
| RpcRouting.RotationVisitsEachOnce | ingestion/rpc_pool.py:109-139 | while k endpoints stay the healthiest, any k ordinary picks choose each exactly once, whatever marks and forced picks come between |
| RpcRouting.RoundRobin | ingestion/rpc_pool.py:109-139 | with no forced slot ahead, k picks in a row return each of the k healthiest endpoints exactly once |
| RpcRouting.EveryDownEndpointIsProbed | ingestion/rpc_pool.py:121-139 | with d endpoints down throughout and no background probe, any 20 * d picks choose every one of them |
| RpcRouting.EveryDownEndpointComesUp | ingestion/rpc_pool.py:121-139 | 20 * d picks in a row return every one of d down endpoints |
| RpcRouting.DownTrafficIsOneInTwenty | ingestion/rpc_pool.py:121-138 | while some endpoint is available, each pick goes to a down endpoint if and only if its number is a multiple of 20 |
| RpcRouting.DownExactlyAfterThresholdFailures | ingestion/rpc_pool.py:141-163 | an endpoint is down if and only if its latest threshold marks are all failures |
| RpcRouting.SuccessRevives | ingestion/rpc_pool.py:145-154 | one success makes a down endpoint available at no less than the recovery health |
| RpcHealth.FailuresWearDown | ingestion/rpc_pool.py:156-163 | n failures in a row leave max(0, h - n/4) of the health h and count as n |
| RpcHealth.SuccessesLift | ingestion/rpc_pool.py:141-154 | n successes in a row leave an endpoint that is up at min(1, h + n/20), with no failures |
| RpcHealth.RecoveryLifts | ingestion/rpc_pool.py:145-154 | a success leaves a down endpoint at the greater of its raised health and the recovery health |
| RpcHealth.OnlyOwnMarks | ingestion/rpc_pool.py:141-163 | a mark changes no other endpoint; picks and the probe switch change no health and no failure count |
| RpcHealth.FailedLosesItsPlace | ingestion/rpc_pool.py:128-160 | one of several healthiest endpoints is no longer among them after a failure |
| RpcHealth.FailedIsPassedOver | ingestion/rpc_pool.py:109-160 | and no ordinary pick takes it then, however many follow, until something is marked again |
| RpcAlerts.SyncedOf | ingestion/rpc_pool.py:202-212 | a scan forgets an accepted or in-flight alert exactly when it sees the outage over |
| RpcAlerts.AtMostOneAlertPerOutage | ingestion/rpc_pool.py:202-295 | however dispatchers overlap, while no scan sees the recovery with the alert in flight, it is in flight at most once and accepted at most once per outage |
| RpcAlerts.SerialMeansNoRecoveryInFlight | ingestion/rpc_pool.py:263-295 | dispatches that do not overlap meet that condition |
| RpcAlerts.DownAlertExactlyWhenDue | ingestion/rpc_pool.py:239-261 | without overlap a scan alerts if and only if the endpoint is down and noticed, the cooldown has passed since then, and no alert was accepted in this outage; refused deliveries come again |
| RpcAlerts.ZeroAlertExactlyWhenDue | ingestion/rpc_pool.py:220-238 | the same for the alert that no endpoint is left |
| RpcAlerts.EveryBreachDoubles | ingestion/rpc_pool.py:202-295 | in any run of any pool, for endpoint alerts and for the pool-wide one: after a scan that saw the outage over with its alert in flight, the next outage can have two accepted alerts |
| RpcAlerts.AtMostOneExactlyWhen | ingestion/rpc_pool.py:202-295 | so the condition is exact: a run meets it if and only if after none of its scans the next outage can be alerted twice |
| RpcAlerts.OverlapCanAlertTwice | ingestion/rpc_pool.py:206-212 | such a breach occurs for every endpoint of every pool |
| RpcAlerts.DownTimeIsExactUnlessARecoveryWasMissed | ingestion/rpc_pool.py:156-163 | the reported start of an outage is its start if and only if no earlier outage ended unseen by a scan |
| RpcEndpointPools.HistoryIsTheLatestTwenty | ingestion/rpc_pool.py:194-200 | after any number of probes the history is the latest 20 and the counters cover all |
| RpcEndpointPools.SweepOutcome | ingestion/rpc_pool.py:360-386 | a sweep revives the endpoints that answer, adds one failure to those that do not, logs each once and leaves the rest alone |
| RpcEndpointPools.ScanIsAProtocolStep | ingestion/rpc_pool.py:214-261 | the object's scan is the scan step of the alert protocol |
| RpcEndpointPools.MarkIsAProtocolStep | ingestion/rpc_pool.py:141-163 | the object's marks are its steps down and up |
| RpcEndpointPools.RpcEndpointPool.constructor | ingestion/rpc_pool.py:70-103 | a fresh pool over the endpoints without repetitions, its settings clamped |
| RpcEndpointPools.RpcEndpointPool.HealthiestThenLeastRecentlyUsed | ingestion/rpc_pool.py:129-135 | one pass over pairs finds the least recently used of the healthiest |
| RpcEndpointPools.RpcEndpointPool.Pick | ingestion/rpc_pool.py:109-139 | the pick of the routing model, stamping only the endpoint chosen; an empty pool changes nothing |
| RpcEndpointPools.RpcEndpointPool.MarkSuccess | ingestion/rpc_pool.py:141-154 | the routing model's success, alerts untouched, unknown endpoints ignored |
| RpcEndpointPools.RpcEndpointPool.MarkFailure | ingestion/rpc_pool.py:156-163 | the routing model's failure, dating the outage if the endpoint is now down |
| RpcEndpointPools.RpcEndpointPool.ProbeDownEndpoints | ingestion/rpc_pool.py:378-386 | probes exactly the endpoints down at the start, once each: an answer clears the failures, a refusal adds one, others keep theirs |
| RpcEndpointPools.RpcEndpointPool.SyncAlertState | ingestion/rpc_pool.py:202-212 | the loop leaves the synchronised alert state |
| RpcEndpointPools.RpcEndpointPool.NotificationEvents | ingestion/rpc_pool.py:214-261 | emits the model's alerts with their details, in order, and marks them in flight |
| RpcEndpointPools.RpcEndpointPool.DispatchAlerts | ingestion/rpc_pool.py:263-295 | an uninterrupted dispatch is one scan and its settlements, and counts the accepted ones |
| RpcDispatch.AlertSays | ingestion/rpc_pool.py:214-261 | every alert gives the numbers of endpoints and of those with fewer failures than the threshold; that of an endpoint gives the seconds since its outage was noticed, that none is left says zero |
| RpcDispatch.SentCounts | ingestion/rpc_pool.py:263-295 | the count returned is the number of accepted deliveries |
| RpcDispatch.SettlingMeans | ingestion/rpc_pool.py:263-295 | after a dispatch none of its alerts is in flight and exactly the accepted ones are known as alerted |
| LakeMarket.KeptIsLegal | features/lake.py:184-202 | the window query keeps one earliest row of each pair and hour |
| LakeMarket.SeriesSays | features/lake.py:184-202 | an asset's series is, of each of its pairs in each hour, what was observed first |
| LakeMarket.BatchGivesSeries | features/lake.py:179-202 | under both conditions a batch yields for each of its assets the asset's own first observations |
| LakeMarket.BatchIndependentExactlyWhen | features/lake.py:179-202 | batch and tie-breaking never matter if and only if within an hour a pair has one base token and an unambiguous first observation |
| LakeHolders.HolderBuckets | features/lake.py:764-788 | one pass fills the buckets of all assets of a batch, each from its own snapshots |
| LakeHolders.ConcentrationIsOrderFree | features/lake.py:799-801 | the top-ten sum does not depend on the order of the wallets |
| HolderPaths.ViewsAgreeExactlyWhen | features/factory.py:597-633 | lake and table show the same hours with the same wallets and shares if and only if each hour with a snapshot has one with an account, and in the decision's own hour, once observed, no later reading changes a share or adds a wallet and some wallet is not read again |
| HolderPaths.HolderPathsAgree | features/factory.py:597-633 | then both paths give the same count, growth and concentration |
| HolderPaths.HolderPathsAgreeExactlyWhen | features/lake.py:789-807 | the features agree if and only if the latest hour at least an hour old has an account and the reported hour matches: if the own hour is unobserved, the latest hour has an account; if the table reads it, it has no new wallet and an equal top-ten sum; if the table passes it over, the latest earlier hour with an account has as many wallets and an equal sum |
| HolderPaths.EmptySnapshotSplitsThePaths | features/lake.py:774-786 | a snapshot without accounts makes the lake report zero holders and the table none |
| HolderPaths.LaterWalletsRaiseTheCount | features/factory.py:609-613 | while both paths read the decision's hour, the table's count exceeds the lake's if and only if some wallet is first read in it after the decision, and never falls below |
| HolderPaths.ReReadHourIsPassedOver | features/factory.py:600-608 | if all its wallets are read again later in the hour, the table path passes the hour over and may find no holders where the lake finds some |
| HolderFeatures.LatestIsLast | features/lake.py:776-788 | the entry of an hour and wallet is its last reading by time, of equals the first by position |
| HolderFeatures.LakePathSaysNothing | features/lake.py:791-797 | there are no holder features if and only if no hour was observed by the decision |
| HolderFeatures.LakePathSays | features/lake.py:789-807 | count is the number of wallets read by the decision in the latest hour observed, concentration the top-ten sum of their shares; growth plus the number read in the latest hour that began an hour earlier or more is the count, and there is none exactly without such an hour |
| HolderFeatures.TablePathSays | features/factory.py:597-633 | the same of the hours the table shows, with every wallet read in them, however late |
| HolderFeatures.ConcentrationMeans | features/lake.py:799-801 | the sum of the ten largest shares, or of all if they are fewer |
| LakeCaches.FreshIsUnique | features/lake.py:594-598 | the uncached answer for an asset and time is determined |
| LakeCaches.InsertedEvictsTheOldest | features/lake.py:587-590 | a full cache drops its oldest entry and keeps the order of the others |
| LakeCaches.BatchEntersInOrder | features/lake.py:438-443 | after a batch the cache holds the latest of its old keys followed by the new ones, in order, as many as its bound admits |
| LakeCaches.SharedCache.Insert | features/lake.py:587-590 | the bound holds and all entries stay equal to the uncached answers of their own store |
| LakeCaches.LakeFeatureFactory.MarketWinners | features/lake.py:184-202 | the pass over the rows computes the window query |
| LakeCaches.LakeFeatureFactory.ReconstructBatch | features/lake.py:600-651 | each asset of a batch gets its own uncached answer |
| LakeCaches.LakeFeatureFactory.Reconstruct | features/lake.py:566-592 | the answer is the uncached one; only on the hour is the cache read or written; hits and misses add up to the addresses asked |
| LakeCaches.LakeFeatureFactory.BuildForAssets | features/lake.py:403-457 | the same for a batch with repetitions, with the exact misses and cache contents after it |
| LabelTables.RefusedExactlyByRank | data_lake/labels.py:370-384 | both upserts refuse exactly lower ranks, except that the forecast one lets a replay replace an observation |
| LabelTables.StoredIsLastOfBest | forecast/labels.py:127-170 | over any interleaving in which the forecast upsert is given no replayed label, the stored label, value and marker, is the last of the highest-ranking writes of its key |
| LabelTables.FourWritersKeepPrecedence | data_lake/labels.py:344-397 | this holds of every interleaving of the four writers with their own markers, without a condition |
| LabelTables.NoWriterLowersRank | data_lake/labels.py:344-397 | none of the four writers lowers the rank of a stored label |
| LabelTables.RankNeverFalls | data_lake/labels.py:344-397 | no upsert or seeding lowers the rank of a stored label, unless the forecast upsert is given a replayed one |
| LabelTables.ForecastReplayOverwritesObserved | forecast/labels.py:149-158 | why the forecast upsert must not be given replayed labels |
| LabelTables.SeedOnlyFillsGaps | forecast/labels.py:223-233 | seeding changes no existing label and writes both types or none |
| LabelTables.FreeKeyTakesTheWrite | data_lake/labels.py:344-397 | where the table has nothing each writer stores its value, its time and its own marker, and changes nothing else |
| LabelTables.LabelTable.UpsertFromDataLake | data_lake/labels.py:344-397 | the branches amount to the model's write; created means the key was new |
| LabelTables.LabelTable.UpsertFromForecast | forecast/labels.py:127-170 | the same for the other upsert |
| DenseLabels.EntryPrice | data_lake/labels.py:35-75 | the entry is the latest snapshot both dated and ingested by the grid point, or none |
| DenseLabels.Extremes | data_lake/labels.py:160-177 | highest and lowest price of the window, found if and only if it has one |
| DenseLabels.ExtremesJudge | data_lake/labels.py:176-199 | the labels say 1 exactly when some price of the window crosses the threshold |
| DenseLabels.LabelPoint | data_lake/labels.py:154-210 | a grid point is labelled if and only if it has a known entry and a later price |
| DenseLabels.GenerateForAsset | data_lake/labels.py:139-213 | the loop ends; at most min(hours, 168) points, each closed and correctly judged; below the cap no labelable closed point is passed over; a labelled point whose key was free or dense then holds "1" if some price of its window crosses the threshold and "0" if none does, with the decision time and the dense marker; every other key is unchanged |
| DenseLabels.GridSays | data_lake/labels.py:142-157 | the points lie on whole hours from the first snapshot on, ascending, at most 168 and each window closed; below the cap exactly the grid hours with a known entry and a later price have one |
| EventBroker.NextKeepsInv | engine/state.py:46-96 | every step of broker, loops and handlers keeps the invariant |
| EventBroker.AlwaysBounded | engine/state.py:34-35 | at most 256 subscribers and 1000 queued events; loops are known only for tracked queues |
| EventBroker.EverySubscriberAccounts | engine/state.py:66-96 | between broadcasts a subscriber's received, queued and pending events are in order and miss exactly those dropped for a full queue or closed loop or broadcast after it was untracked |
| BrokerDelivery.LossIsReal | engine/state.py:66-91 | an event is recorded as lost to a full queue only from a queue of 1000 events, and to a closed loop only if the home loop is closed; records stay |
| BrokerDelivery.EveryEventArrives | engine/state.py:66-96 | between broadcasts a tracked subscriber whose queue was never full and whose loop never closed has every event since it connected, in order |
| BrokerDelivery.AllIsDelivered | engine/state.py:66-86 | left alone, an open loop and its handler deliver all that is pending and queued, in order |
| EventBroker.SseBroker.Connect | engine/state.py:46-59 | the connect step, evicting the oldest at 256 |
| EventBroker.SseBroker.Disconnect | engine/state.py:61-64 | the disconnect step |
| EventBroker.SseBroker.Broadcast | engine/state.py:73-96 | begin, serve every target in turn, prune the dead |
| BrokerDelivery.ConnectMeans | engine/state.py:46-59 | the newcomer is tracked last and starts empty at the present count; at 256 the oldest is untracked; nobody loses an event |
| BrokerDelivery.BroadcastMeans | engine/state.py:73-96 | a broadcast puts one event behind the queue, or behind the pending ones, of every tracked subscriber, drops it for a full queue or closed loop, and untracks exactly those with a closed loop |
| Fingerprint.CoOccurrence | fingerprint/engine.py:58-67 | the weight of a pair is the number of actor sets containing both |
| Fingerprint.FrequentEdges | fingerprint/engine.py:68-72 | the retained edges are exactly the pairs together often enough |
| Fingerprint.Grow | fingerprint/engine.py:73-75 | the component of a node: closed under edges and not divisible without cutting one |
| Fingerprint.ComponentsAreDisjoint | fingerprint/engine.py:75-77 | two components are equal or disjoint |
| Fingerprint.ComponentHasTwo | fingerprint/engine.py:76-77 | every component has at least two wallets |
| Fingerprint.FingerprintEngine.ClusterExists | fingerprint/engine.py:155-171 | true if and only if a cluster of this version has exactly these members |
| Fingerprint.FingerprintEngine.Learn | fingerprint/engine.py:54-101 | the edges are the pairs together in at least the least number of actor sets; afterwards every component of them is stored; additions are new, disjoint components and are counted; where all were stored, nothing is added |
| Fingerprint.LearnTwice | fingerprint/engine.py:78-79 | a second pass over unchanged data adds no cluster |
| Narrative.Embed | narrative/embed.py:38-45 | one least mixed hash for each seed, of the fixed signature length |
| Narrative.SignatureOfSet | narrative/embed.py:43-44 | the signature depends on the set of shingles only |
| Narrative.SimilarityIsAFraction | narrative/embed.py:47-51 | similarity is symmetric, in [0, 1], and 1 exactly for equal non-empty signatures |
| Narrative.SimilarityCounts | narrative/embed.py:47-51 | similarity is the share of the positions at which two signatures agree |
| Narrative.BestSeed | narrative/cluster.py:46-52 | the first of the most similar seeds, none if all are at zero |
| Narrative.FarTopicHasNewKey | narrative/cluster.py:55-64 | if no two of the texts at hand share a key, a topic below the threshold to every seed gets a key not yet taken |
| Narrative.FirstPassIsSound | narrative/cluster.py:38-42 | an empty store is a threshold net |
| Narrative.NarrativeStore.ClusterMentions | narrative/cluster.py:14-83 | a pass ends in an error if and only if some mention that is to become a seed finds its key taken, and otherwise stores the seeds of the greedy choice, gives each open mention of the time, and no other, the key of its most similar seed or its own, and counts them; with topics of 1 to 256 characters a pass without error keeps the net and the mention counts, and none fails if no two topics or seeds at hand share a key |
| Narrative.EmptyTopicTwice | narrative/cluster.py:38-65 | of two mentions without topic the second, in a pass of its own, ends that pass in an error if and only if the empty text is not near the word "untitled" |
| Hazard.Fit | forecast/hazard.py:26-52 | the loop's curve is the survival function hour by hour, and the mean its sum |
| Hazard.ExactlyOneBin | forecast/hazard.py:41-42 | a time falls in exactly one hourly bin if it is positive and within the horizon, else in none |
| Hazard.BinsShareThePositiveTimes | forecast/hazard.py:41-42 | the bins together hold exactly the positive event times |
| Hazard.EventsInBin | forecast/hazard.py:31-42 | a bin holds as many event times as there are events whose time, cut to the horizon, falls in its hour |
| Hazard.SurvivalSteps | forecast/hazard.py:41-43 | of n samples, as many stop surviving in an hour as its bin has events, in proportion |
| Hazard.SurvivalFloor | forecast/hazard.py:42-43 | survival never falls below 1 minus the events so far over the samples |
| Hazard.CurveIsBounded | forecast/hazard.py:38-44 | the curve starts at 1, never rises and stays between 1 - k/n and 1 |
| Hazard.MeanIsBounded | forecast/hazard.py:45-46 | the unrounded mean lies between H * (1 - k/n) + 1/2 and H + 1/2 |
| Splits.CollectSamples | forecast/engine.py:478-510 | samples are exactly the closed points with features for which a row known at the decision says so for each label |
| Splits.ForecastSplitLeaksNothing | forecast/engine.py:524-536 | for any input order no training window reaches into a test window; the training part has the wanted size and nothing in it is later than what follows; exactly the embargoed later rows are dropped |
| Splits.NoForecastSplitExactlyWhen | forecast/engine.py:524-536 | there is no split if and only if the training part would have fewer than five samples or more than there are, or no later sample starts after the last training window ends |
| Splits.ConfidenceSplitLeaksNothing | risk_engine/confidence_calibration.py:27-44 | every training outcome was known by any validation scoring time; the split time is the score time at the wanted place; exactly the late-known rows are dropped |
| Backtest.LeadTime | backtest/runner.py:190-198 | the seconds to the first tick that reaches the return target, in minutes; none if and only if no tick reaches it |
| Backtest.ReturnMeetsThreshold | backtest/runner.py:319-346 | percent returns and price thresholds decide alike |
| Backtest.Run | backtest/runner.py:256-348 | the nested loops compute the model's totals |
| Backtest.CountersCount | backtest/runner.py:305-348 | each counter is the number of selected candidates it is meant to count |
| Backtest.TopOfMeans | backtest/runner.py:294-302 | selected are the not-black candidates of highest priority, at most top_k, in falling order, each as often as scored |
| Backtest.ReturnsAreCollected | backtest/runner.py:319-330 | gains and drawdowns are the last and the lowest return of each selected candidate with an entry and a future, in order |
| Backtest.CountersAddUp | backtest/runner.py:305-348 | no counter exceeds its whole and selected is at most top_k times the decision hours; with a return target of at least zero and a collapse target below it, collapses equal collapse lead times and useful picks have ignition lead times |
| Backtest.CountersAddUpExactlyWhen | backtest/runner.py:330-348 | for top_k above zero the counters agree in every replay if and only if the targets have these signs |
| Backtest.RatesAreFractions | backtest/runner.py:350-365 | every reported rate lies in [0, 1], whatever the targets |
| Backtest.RiseWarnsOfNoCollapse | backtest/runner.py:338-346 | with a collapse target that is not negative, a rise is a collapse lead time without a collapse |
| Backtest.StillPriceIsUseful | backtest/runner.py:330-344 | with a negative return target, an unchanged price is a useful pick without an ignition lead time |

## Left out

- Archive: Parquet encoding, SHA-256 and byte sizes; an object is its row sequence, its digest is that sequence and its row count stands for the size.
- Archive: equal ETags of one object are assumed to mean equal content, and evidence ids are never reused. Local tags are made of the time of the write; `ArchiveLock` takes them to differ from write to write.
- Archive: the manifest's first and last observation times, and the order in which concurrent sessions commit their manifests.
- Archive: I/O errors are one failing step at any point; source names are assumed to be unique, so a partition is its source id, year and month.
- ArchiveProgress.TwoRivalsNeverExhaust: speaks of stores that return ETags; a stat without one is a conflict that no rival pays for.
- Compactor.RawEvidenceCompactor.Compact: runs against a scripted store in which rivals write whole merges between calls; the interleaving of their inner steps is that of `ArchiveProtocol`.
- RPC pool: rounding of floating-point health scores, the background thread itself, and `snapshot`, which copies fields.
- RpcEndpointPools.RpcEndpointPool.DispatchAlerts: models a dispatch that nothing interrupts; interleaved dispatches are the subject of `RpcAlerts`.
- Lake: extraction of fields from JSON payloads, the contract-flag count, and the feature formulas computed from a reconstruction.
- HolderPaths.HolderPathsAgreeExactlyWhen: takes the holders table as one row for each hour and wallet with its latest reading; rows of several sources for one wallet are not modelled.
- Lake: concurrent batches of several threads; the calls of a process are taken one after the other.
- Labels: the queries that select assets, pairs and snapshots, and the loops over assets of the replay and observed writers; their writes are arbitrary.
- EventBroker.EverySubscriberAccounts: broadcasts do not overlap; two at once may serve a subscriber in either order. Queue identities are not reused.
- Fingerprint: actor sets are given; confidences, roles and recidivism scores are not modelled. Components are grown edge by edge in place of the graph library.
- Narrative: tokenising and hashing of text are parameters; first and last seen times of clusters are not modelled.
- Hazard: rounding of the curve to six digits and of the mean to three.
- Splits: label sources of samples; feature values are reduced to whether there are any.
- Backtest: scoring of candidates, medians, drawdown minimum and persistence of results.
- HTTP clients, crawlers, the API and user interface, notification delivery and model training: input and output without a provable core of their own.
