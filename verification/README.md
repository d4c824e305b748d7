# FlowSketch: windows, sketches, lanes and the gateway

A Dafny model of FlowSketch's streaming core and proofs of what it promises.

Two layers share one idea, bounded summaries that can be split, windowed and merged
without changing the answer.

- **The windowed runtime and its distributed forms.** A running query keeps a sliding
  window as a ring of tumbling buckets (`WindowRing`, `GapRefinement`, `QuerySpec`,
  `WindowMeaning`, `WindowRuns`, and the objects in `RunningQuery` and `Engines`). A
  sharded engine splits a stream over many engines and merges by bounds (`Reports`,
  `Sharding`, `ShardCalls`, `ShardedEngine`, `ShardAgreement`, `ShardTheorem`,
  `ShardAcceptance`, `ShardCorollaries`, `FilteredStreams`). Concurrent lanes do the same
  behind a two-phase checkpoint, modelled as a state machine over every interleaving
  (`LaneEngine`, `LaneProtocol`, `LaneInvariants`, `LaneBarrier`, `LaneWatermark`,
  `LaneRefusals`, `LaneProgress`, `LaneReport`). The gateway merges windows of many nodes
  through a 16-shard cache (`Gateway`).
- **The sketches.** SpaceSaving with its arena, digest index and indexed heap
  (`SpaceSavingSpec`, `SpaceSavingArena`, `SpaceSaving`, `RankedCandidates`,
  `SpaceSavingSnapshot`), Misra-Gries, Count-Min, HyperLogLog, HLLMap and KLL, each with
  its deterministic guarantee over any tree of updates and merges, against the exact
  stream (`Streams`).
- **The codecs.** `FSK1` snapshots and `FSKB` push batches (`Codec`).

In the window layer a sketch state stands for the multiset of events it absorbed, the
free commutative summary; `DistinctWindows` instantiates it with HyperLogLog storage. In
the gateway a state stands for the sequence of parts it was merged from.

Where the code and what is said about it differ, the model follows the code:

- Sharding equals one engine only for streams in step. `ShardTheorem.ShardingAgrees` gives
  the exact condition and `ShardCorollaries.DisorderShows` a stream that breaks it. A
  filter changes the condition (`FilteredStreams.FilteredAgrees`), since one engine moves
  on matching events only.
- `crates/flowsketch-algos/src/hll_map.rs:161` assumes cached estimates are lower bounds.
  The switch from exact counts to the dense estimator does not guarantee it:
  the map evicts the least key in every run if and only if the estimate never decreases
  (`HllMapRuns.EvictsLeastExactlyWhenMonotone`, with `HllMapSpec.MonotoneExactly` for when
  that is), and `Ertl.ErtlEvictsWrongKey` is a run that goes wrong with the code's own
  estimate. A map whose tracked keys are all sparse is safe (`HllMapSpec.OnlyDenseCachesMislead`).
- A snapshot read ignores bytes between the payload and the checksum
  (`SnapshotCodec.ReadsExactly`), so writing again what was read gives the same bytes only
  when there are none (`SnapshotCodec.RewritesExactly`, and `SnapshotCodec.OneByteLost` for
  an input); a push batch with trailing bytes is refused.

`dafny verify dfyconfig.toml` checks the whole project.

## Model

| member | source | states |
|---|---|---|
| GapRefinement.SlideTimesShape | crates/flowsketch-runtime/src/lib.rs:569-611 | after k slides the ring is still contiguous, has min(len + k, buckets) buckets, stands k slides later, and its new buckets are empty |
| GapRefinement.FastRefinesSlow | crates/flowsketch-runtime/src/lib.rs:512-611 | the gap fast-forward leaves the same ring as one-slide-at-a-time, emits a prefix of its windows, the same ones once empty windows are dropped, and exactly the preflight count of them, never more than there are buckets |
| GapRefinement.LongSlide | crates/flowsketch-runtime/src/lib.rs:569-611 | once a gap is at least as long as the window, every further slide closes only empty windows and the ring holds no event |
| GapRefinement.TrailingRingShape | crates/flowsketch-runtime/src/lib.rs:512-526 | the rebuilt trailing ring is contiguous, ends at the target, is empty, and is cut short only by time zero |
| GapRefinement.AdvanceComposes | crates/flowsketch-runtime/src/lib.rs:569-611 | advancing in two steps or in one leaves the same ring and the same non-empty windows |
| WindowMeaning.FlushMeaning | crates/flowsketch-runtime/src/lib.rs:660-677 | a flushed window starts at max(first bucket ever opened, end - buckets * slide) and holds exactly the events handled before it closed whose bucket lies inside it |
| WindowMeaning.SlideTimesKeepsFaithful | crates/flowsketch-runtime/src/lib.rs:569-611 | any number of slides keeps the ring faithful to the event log and emits exactly the next windows by end |
| WindowMeaning.BucketIsOpen | crates/flowsketch-runtime/src/lib.rs:613-658 | an aligned time has an open bucket exactly when it lies between the ring's oldest and newest bucket |
| WindowMeaning.PlaceKeepsFaithful | crates/flowsketch-runtime/src/lib.rs:613-658 | counting an event into its bucket, or as late, keeps every bucket equal to the log's events for it |
| WindowRuns.AdvanceMeaning | crates/flowsketch-runtime/src/lib.rs:569-611 | an advance closes, empty windows aside, exactly the windows whose ends lie between the old and the new newest bucket, each with exactly its events |
| WindowRuns.StepHolds | crates/flowsketch-runtime/src/lib.rs:528-687 | every call, refused ones included, keeps the account of a run: window meanings, completeness, late count, ring shape, pending bound |
| WindowRuns.EveryRunHolds | crates/flowsketch-runtime/src/lib.rs:501-687 | over every sequence of process, advance, drain and finish calls: every emitted window ends on a bucket boundary and means what it should, the windows that time has closed are, empty ones aside, exactly those up to the newest bucket in order, the ring is contiguous and bounded, the pending list never exceeds its capacity, and the late counter counts exactly the expired arrivals |
| WindowRuns.HandleIsProcess | crates/flowsketch-runtime/src/lib.rs:613-658 | the run semantics handles an event exactly as the query does |
| WindowRuns.HandleLogs | crates/flowsketch-runtime/src/lib.rs:613-658 | an event that matches and fits is logged with its bucket and the newest one; any other changes nothing |
| WindowRuns.LogMatches | crates/flowsketch-runtime/src/lib.rs:613-658 | over every run the log has matching events only, each with the bucket of its time |
| RunningQueries.RunningQuery.RebuildTrailingRing | crates/flowsketch-runtime/src/lib.rs:512-526 | the loop leaves exactly the full trailing ring of empty buckets |
| RunningQueries.RunningQuery.FlushWindow | crates/flowsketch-runtime/src/lib.rs:660-677 | pushes one window with everything the open buckets hold, or refuses and changes nothing |
| RunningQueries.RunningQuery.SlideOnce | crates/flowsketch-runtime/src/lib.rs:601-609 | one slide of the ring, or nothing when there is no room |
| RunningQueries.RunningQuery.AdvanceToBucket | crates/flowsketch-runtime/src/lib.rs:569-611 | advances exactly as the specification when the preflight passes, and otherwise changes nothing |
| RunningQueries.RunningQuery.Process | crates/flowsketch-runtime/src/lib.rs:613-658 | one event: the specified new state, or a refusal that changes nothing; an event that does not match is taken and changes nothing |
| RunningQueries.RunningQuery.Finish | crates/flowsketch-runtime/src/lib.rs:679-687 | flushes the trailing window once, or refuses and changes nothing; it refuses exactly when a window is open and the pending list full |
| RunningQueries.RunningQuery.CurrentWindow | crates/flowsketch-runtime/src/lib.rs:919-941 | the open window's bounds and content, with no change |
| Engines.QueryEngine.EnsureCanProcess | crates/flowsketch-runtime/src/lib.rs:557-566 | true exactly when every query has room for what the event would close |
| Engines.QueryEngine.Process | crates/flowsketch-runtime/src/lib.rs:843-855 | an event changes every query as specified, or is refused with no query and no counter changed |
| Engines.QueryEngine.AdvanceTo | crates/flowsketch-runtime/src/lib.rs:857-868 | a shared watermark advances every query, or none |
| Engines.QueryEngine.Finish | crates/flowsketch-runtime/src/lib.rs:870-882 | closes every trailing window, or none |
| Engines.QueryEngine.TakeWindowStates | crates/flowsketch-runtime/src/lib.rs:896-905 | drains every query's completed windows in order and nothing else |
| Engines.QueryEngine.CurrentWindowStates | crates/flowsketch-runtime/src/lib.rs:919-941 | every query's open window |
| Engines.PreflightIsExact | crates/flowsketch-runtime/src/lib.rs:528-566 | the preflight counts exactly the windows an advance pushes, so passing it is the same as staying within capacity |
| Engines.ProcessIsExact | crates/flowsketch-runtime/src/lib.rs:557-566 | an event is refused exactly when the windows its time closes would exceed the capacity, and never when it does not match |
| Engines.FinishIsExact | crates/flowsketch-runtime/src/lib.rs:679-687 | a finish is refused exactly when the one window it pushes would exceed the capacity |
| Engines.DrainedAcceptsAnything | crates/flowsketch-planner/src/lib.rs:92-94 | with the planned capacity, one per bucket, a drained query accepts any next event, watermark or finish |
| Reports.MergeWindows | crates/flowsketch-agent/src/direct_runtime.rs:622-640 | merging windows by bounds keeps one state per bounds with exactly the events of all windows that have them |
| Reports.MergeByBounds | crates/flowsketch-runtime/src/lib.rs:1285-1306 | the same for one drain of all shards |
| Reports.EventsAtUpTo | crates/flowsketch-runtime/src/lib.rs:569-687 | what a log reports under any bounds: the covered events on the window grid, nothing off it |
| ShardedEngine.Dispatch | crates/flowsketch-runtime/src/lib.rs:1211-1229 | each shard's list is its own events in arrival order |
| ShardedEngine.TimeRange | crates/flowsketch-runtime/src/lib.rs:1246-1257 | the earliest and latest timestamps of the batch |
| ShardedEngine.FeedEngine | crates/flowsketch-runtime/src/lib.rs:1258-1277 | one shard makes its calls in order, seed, own events, watermark, and stops exactly at the first one that some query refuses, having done all before it |
| ShardedEngine.ShardedQueryEngine.ProcessBatch | crates/flowsketch-runtime/src/lib.rs:1246-1278 | succeeds exactly when no query of any shard refuses a call of its share; then every query has done its share, and otherwise each shard its calls up to the first refused one, or none |
| ShardCalls.ShareIsFeedShard | crates/flowsketch-runtime/src/lib.rs:1258-1277 | a shard's calls, made one after the other, do exactly its share of the batch |
| ShardCalls.ShortBatchAccepted | crates/flowsketch-runtime/src/lib.rs:528-566 | a drained query accepts every batch that goes at most its capacity in slides past its newest bucket |
| ShardAgreement.FeedBatchSynced | crates/flowsketch-runtime/src/lib.rs:1246-1278 | after each batch all shards stand on one bucket, and single engine and shards together report exactly their own logs |
| ShardTheorem.BatchAgreement | crates/flowsketch-runtime/src/lib.rs:1246-1317 | within one batch the shards report at least what one engine does, and the same exactly when every event is in step |
| ShardTheorem.ShardingAgrees | crates/flowsketch-runtime/src/lib.rs:1207-1317 | over whole streams, sharding changes no report, at any drain or at the end, if and only if both sides opened on the same bucket (or windows tumble) and every event was in step, a condition computed from bucket starts and the dispatch alone |
| ShardCorollaries.OrderedStreamsAgree | crates/flowsketch-runtime/src/lib.rs:1207-1317 | for an unfiltered query and nondecreasing timestamps, any batching and any assignment to shards reports exactly what one engine does |
| ShardAcceptance.FeedIsCalls | crates/flowsketch-runtime/src/lib.rs:1246-1278 | the stream semantics of the sharding theorem is what accepted calls do: drain, then the whole batch on one engine and its share on every shard |
| ShardAcceptance.ShortBatchesAccepted | crates/flowsketch-runtime/src/lib.rs:1246-1278 | both engines take in every unfiltered stream of batches that each go at most capacity slides ahead |
| ShardCorollaries.DisorderShows | crates/flowsketch-runtime/src/lib.rs:1246-1278 | with disorder inside a batch the two can differ: a concrete stream, every call of which is accepted at the planned capacity |
| FilteredStreams.FilteredAgrees | crates/flowsketch-runtime/src/lib.rs:1246-1317 | for any filter and a stream in order, all drains and the end report the same on both sides if and only if both opened on one bucket (or windows tumble) and at every drain the newest event lies in the bucket of the newest matching one |
| FilteredStreams.FilterShows | crates/flowsketch-runtime/src/lib.rs:613-616 | with a filter the two can differ on the simplest stream in order: two accepted events |
| DistinctWindows.ShardingKeepsStorage | crates/flowsketch-runtime/src/lib.rs:1285-1317 | where sharding changes no report it changes no byte of a distinct-count window either |
| DistinctWindows.MergeSketches | crates/flowsketch-runtime/src/lib.rs:1285-1306 | merging the sketches of all shards' windows under the same bounds leaves exactly the storage of their joint events |
| LaneEngine.ProcessOk | crates/flowsketch-agent/src/direct_runtime.rs:505-516 | one handled event keeps ring, pending windows and log of a lane's query in agreement |
| LaneEngine.SameRing | crates/flowsketch-agent/src/direct_runtime.rs:341-398 | two rings that opened together and stand together have the same buckets |
| LaneInvariants.HandleKeepsEngine | crates/flowsketch-agent/src/direct_runtime.rs:505-538 | a lane's engine keeps its account of itself through every event, refused ones included |
| LaneInvariants.ReportIsRight | crates/flowsketch-agent/src/direct_runtime.rs:588-620 | a report that is not refused holds exactly the lane's windows since its last one and the open window at the watermark, its rings stand where the watermark puts them, and the lane is left drained |
| LaneReports.BuildReport | crates/flowsketch-agent/src/direct_runtime.rs:588-620 | advance, finish, drain and read the open windows of a real engine, with the result, the windows and the failure points of the protocol's report |
| LaneReports.PublishReports | crates/flowsketch-agent/src/direct_runtime.rs:341-403 | finds unaligned open windows exactly when two lanes disagree, and otherwise merges every query's completed windows, and its open ones, of all lanes by bounds |
| LaneBarrier.AckInv | crates/flowsketch-agent/src/direct_runtime.rs:547-585 | acknowledging a pause keeps the invariant of the whole system |
| LaneBarrier.ReplyInv | crates/flowsketch-agent/src/direct_runtime.rs:547-620 | answering a checkpoint keeps the invariant |
| LaneBarrier.WorkInv | crates/flowsketch-agent/src/direct_runtime.rs:456-585 | every worker step keeps the invariant |
| LaneBarrier.PublishInv | crates/flowsketch-agent/src/direct_runtime.rs:318-327 | once all reports are in, publishing succeeds and keeps the invariant |
| LaneBarrier.NextInv | crates/flowsketch-agent/src/direct_runtime.rs:255-640 | every enabled step of workers, coordinator and senders keeps the invariant |
| LaneBarrier.ErrorsUnreachable | crates/flowsketch-agent/src/direct_runtime.rs:262-325 | over every interleaving the duplicate-or-missing-lane and unaligned-window errors never occur, nor two pauses, nor a checkpoint before its pause |
| LaneBarrier.NothingBetweenAckAndCheckpoint | crates/flowsketch-agent/src/direct_runtime.rs:559-576 | between its acknowledgement and its report a lane handles no event |
| LaneBarrier.RingsAgree | crates/flowsketch-agent/src/direct_runtime.rs:588-620 | any two reports of one checkpoint come from identical rings of buckets |
| LaneBarrier.NothingPublishedTwice | crates/flowsketch-agent/src/direct_runtime.rs:341-398 | two published windows of one query that end together are in the same publication with the same bounds |
| LaneBarrier.PublishedIsExact | crates/flowsketch-agent/src/direct_runtime.rs:341-403 | under any bounds a publication's completed windows, and its open ones, hold exactly what all lanes' logs put there, nothing missing and nothing twice, and these logs are a prefix of what each lane has logged since |
| LaneBarrier.FinalCheckpointCountsAll | crates/flowsketch-agent/src/direct_runtime.rs:257-271 | the final checkpoint completes only after every event sent to every lane was handled, and its publication counts every matching one |
| LaneWatermark.WatermarkIsExact | crates/flowsketch-agent/src/direct_runtime.rs:284-296 | once the watermark is taken every lane has acknowledged, and it is the newest time among the events they had handled by then, absent only without any |
| LaneWatermark.PublishedUpTo | crates/flowsketch-agent/src/direct_runtime.rs:284-327 | every publication goes up to the newest time its lanes acknowledged, and has of each lane logged exactly the matching events acknowledged |
| LaneRefusals.EventRefusedExactly | crates/flowsketch-agent/src/direct_runtime.rs:505-538 | an event fails a lane exactly when it matches a query and the windows it closes would exceed that query's capacity |
| LaneRefusals.ReportRefusedExactly | crates/flowsketch-agent/src/direct_runtime.rs:588-604 | a lane refuses a checkpoint exactly when a query's pending windows would exceed its capacity, never without a watermark before the end |
| LaneRefusals.RefusesOnlyFull | crates/flowsketch-agent/src/direct_runtime.rs:505-604 | in every run a lane refuses an event or a checkpoint only over capacity |
| LaneProgress.LooksAfterBatch | crates/flowsketch-agent/src/direct_runtime.rs:505-545 | a lane handles at most a batch of events before it looks at its commands again |
| LaneProgress.NeverStuck | crates/flowsketch-agent/src/direct_runtime.rs:255-328 | while a checkpoint is open a step of a worker or the coordinator is possible, or of a sender that has yet to stop for a final one, or a worker is gone, and some such step brings the checkpoint closer to its end |
| LaneProgress.CanComplete | crates/flowsketch-agent/src/direct_runtime.rs:255-328 | from every state of every interleaving with an open checkpoint the parties it waits for can end it, and it is completed unless a worker is gone or an engine refused |
| SpaceSavingSpec.MinKeyUnique | crates/flowsketch-algos/src/space_saving.rs:178-188 | the eviction order has one minimum, so eviction does not depend on layout |
| SpaceSavingSpec.EvictionMeans | crates/flowsketch-algos/src/space_saving.rs:178-187 | the evicted key has the least count, among these the least digest, and among these is the least key |
| KeyOrder.LessMeans | crates/flowsketch-algos/src/space_saving.rs:178-187 | keys are ordered by the first byte that differs, a proper prefix first |
| SpaceSavingSpec.AddIsSound | crates/flowsketch-algos/src/space_saving.rs:278-297 | one weighted update keeps counts bracketing the truth, errors and missed keys small, and adds exactly its weight to the sum of counts |
| SpaceSavingSpec.TrimSize | crates/flowsketch-algos/src/space_saving.rs:483-485 | the trim keeps exactly min(size, capacity) keys |
| SpaceSavingSpec.TrimMeans | crates/flowsketch-algos/src/space_saving.rs:478-496 | the trim keeps keys unchanged, each with a larger count than every dropped one or the same and the smaller key |
| SpaceSavingSpec.MergeIsSound | crates/flowsketch-algos/src/space_saving.rs:444-496 | merging two sound summaries gives a sound summary of both streams |
| SpaceSavingSpec.TreeIsSound | crates/flowsketch-algos/src/space_saving.rs:278-496 | over any tree of updates and merges: count - error <= truth <= count, capacity * error <= N, untracked keys at most the minimum count, and counts summing to at most N, exactly N without merges |
| SpaceSavingSpec.HeavyKeysAreTracked | crates/flowsketch-algos/src/space_saving.rs:278-496 | any key with truth * capacity > N is tracked |
| SpaceSavingArena.RootIsMinKey | crates/flowsketch-algos/src/space_saving.rs:271-276 | the heap's root is the unique minimum of the map |
| SpaceSavingArena.SiftedUp | crates/flowsketch-algos/src/space_saving.rs:201-210 | a swap towards the root moves the one place where the heap may be out of order to the parent |
| SpaceSavingArena.SiftedDown | crates/flowsketch-algos/src/space_saving.rs:212-230 | a swap towards the leaves moves that place to the child |
| SpaceSavings.SpaceSaving.FindSlotWithDigest | crates/flowsketch-algos/src/space_saving.rs:114-123 | finds a slot exactly when the key is stored, under any collisions |
| SpaceSavings.SpaceSaving.AddToIndex | crates/flowsketch-algos/src/space_saving.rs:129-146 | the digest index covers the new slot |
| SpaceSavings.SpaceSaving.RemoveFromIndex | crates/flowsketch-algos/src/space_saving.rs:148-176 | the digest index covers every slot but the removed one |
| SpaceSavings.SpaceSaving.SiftUp | crates/flowsketch-algos/src/space_saving.rs:201-210 | restores the heap order and the inverse indices, and changes no slot's key or entry |
| SpaceSavings.SpaceSaving.SiftDown | crates/flowsketch-algos/src/space_saving.rs:212-230 | the same from the other end |
| SpaceSavings.SpaceSaving.InsertEntry | crates/flowsketch-algos/src/space_saving.rs:237-250 | the map gains exactly this key and the arena stays valid |
| SpaceSavings.SpaceSaving.ReplaceMin | crates/flowsketch-algos/src/space_saving.rs:252-269 | the map loses exactly its minimum key and gains the new one |
| SpaceSavings.SpaceSaving.Add | crates/flowsketch-algos/src/space_saving.rs:278-297 | the arena does exactly what the map specification does |
| SpaceSavings.SpaceSaving.AddKeyBuf | crates/flowsketch-algos/src/space_saving.rs:304-332 | the scratch-buffer form leaves the same map as a plain add, and an empty scratch buffer |
| SpaceSavings.SpaceSaving.MergeFrom | crates/flowsketch-algos/src/space_saving.rs:444-496 | the arena merge is exactly the map merge, and is refused for other capacities or hashes |
| RankedCandidates.SortSorts | crates/flowsketch-algos/src/space_saving.rs:483-485 | sorting by larger count, then smaller key keeps the candidates |
| RankedCandidates.PrefixIsTrim | crates/flowsketch-algos/src/space_saving.rs:483-485 | the first `capacity` entries of the sorted list are exactly the trim on maps |
| SpaceSavingSnapshots.ListingUnique | crates/flowsketch-algos/src/space_saving.rs:360-362 | a map has one listing in key order |
| SpaceSavingSnapshots.ToSnapshot | crates/flowsketch-algos/src/space_saving.rs:354-381 | the bytes are the encoding of the configuration, the totals and that listing |
| SpaceSavingSnapshots.SameMapSameBytes | crates/flowsketch-algos/src/space_saving.rs:354-381 | summaries with equal configuration, totals and maps serialize to the same bytes, whatever their arenas look like |
| SpaceSavingSnapshots.FromSnapshot | crates/flowsketch-algos/src/space_saving.rs:383-432 | restores exactly what the bytes parse to, with the first error otherwise |
| SpaceSavingSnapshots.RestoreUndoesSave | crates/flowsketch-algos/src/space_saving.rs:354-432 | parsing the encoding of any summary whose fields fit gives it back |
| SpaceSavingSnapshots.PayloadLayout | crates/flowsketch-algos/src/space_saving.rs:354-384 | the place of every field in the payload |
| SpaceSavingSnapshots.RestoredIsSound | crates/flowsketch-algos/src/space_saving.rs:386-432 | whatever is restored has a capacity, no more keys than it holds, none twice, and no error above its count |
| MisraGriesSpec.Deterministic | crates/flowsketch-algos/src/misra_gries.rs:62-113 | update and trim have one result whatever order the counters are visited in |
| MisraGriesSpec.OnePassTrims | crates/flowsketch-algos/src/misra_gries.rs:98-113 | one pass of the trim brings the size to at most k and takes at least (k + 1) * dec of mass |
| MisraGriesSpec.StaysPositive | crates/flowsketch-algos/src/misra_gries.rs:62-113 | no counter is kept at zero |
| MisraGriesSpec.AddIsSound | crates/flowsketch-algos/src/misra_gries.rs:62-88 | one update keeps every undercount within its share of the lost weight |
| MisraGriesSpec.MergeIsSound | crates/flowsketch-algos/src/misra_gries.rs:197-207 | adding two summaries and trimming keeps the summed bound |
| MisraGriesSpec.SummaryExists | crates/flowsketch-algos/src/misra_gries.rs:62-207 | every tree of updates and merges leaves exactly one summary |
| MisraGriesSpec.TreeIsSound | crates/flowsketch-algos/src/misra_gries.rs:62-207 | over any tree count <= truth and (k + 1) * (truth - count) is at most the weight no counter holds any more |
| MisraGriesSpec.HeavyKeysArePresent | crates/flowsketch-algos/src/misra_gries.rs:1-9 | count <= truth, (k + 1) * (truth - count) <= N, and every key with truth * (k + 1) > N is present |
| MisraGriesSketch.NthSmallest | crates/flowsketch-algos/src/misra_gries.rs:104-106 | the count at an index of the sorted counts |
| MisraGriesSketch.MisraGries.Add | crates/flowsketch-algos/src/misra_gries.rs:62-88 | the object does exactly the specified update and never exceeds k counters |
| MisraGriesSketch.MisraGries.TrimToCapacity | crates/flowsketch-algos/src/misra_gries.rs:98-113 | the loop ends in the specified trim, after one pass |
| MisraGriesSketch.MisraGries.MergeFrom | crates/flowsketch-algos/src/misra_gries.rs:197-207 | the object does exactly the specified merge, or refuses and changes nothing |
| CountMinSpec.SlotIsTheHit | crates/flowsketch-algos/src/count_min.rs:108-115 | every row has exactly one cell of a key, inside the table |
| CountMinSpec.PlainCellIsExact | crates/flowsketch-algos/src/count_min.rs:212-234 | over any tree of updates and merges a plain cell is exactly the weight of the keys hashed to it |
| CountMinSpec.PlainRowIsWhole | crates/flowsketch-algos/src/count_min.rs:212-234 | every row of a plain table sums to N |
| CountMinSpec.SameStreamSameTable | crates/flowsketch-algos/src/count_min.rs:225-234 | two trees that saw the same weight of every key leave the same plain table |
| CountMinSpec.Sandwich | crates/flowsketch-algos/src/count_min.rs:108-234 | truth <= conservative estimate <= plain estimate <= N for every key, every row hash and every tree |
| CountMinSpec.ConservativeRaises | crates/flowsketch-algos/src/count_min.rs:197-212 | a conservative update lowers no cell, raises none past the new estimate, leaves other cells alone, and makes the key's estimate exactly the old one plus the weight |
| CountMinSpec.ConservativeIsLeast | crates/flowsketch-algos/src/count_min.rs:197-212 | no table that does not fall and estimates the key at no less has a smaller cell |
| CountMinSketch.CountMin.EstimateU64 | crates/flowsketch-algos/src/count_min.rs:108-116 | the loop returns the least of the key's cells |
| CountMinSketch.CountMin.Update | crates/flowsketch-algos/src/count_min.rs:193-219 | the table becomes the plain or the conservative update of the old one |
| CountMinSketch.CountMin.MergeFrom | crates/flowsketch-algos/src/count_min.rs:225-234 | cell by cell addition, or a refusal that changes nothing |
| HllSpec.RhoMeaning | crates/flowsketch-algos/src/hll.rs:307-315 | the shifted, capped leading-zero count is the position of the first one after the index, 64 - p + 1 exactly when only zeros follow |
| HllSpec.IndexMeaning | crates/flowsketch-algos/src/hll.rs:307-309 | the register is the hash's top p bits |
| HllSpec.SparseLimitMeans | crates/flowsketch-algos/src/hll.rs:303-305 | the sparse limit is a quarter of the registers' bytes in hashes, at least one |
| HllSpec.CanonicalUnique | crates/flowsketch-algos/src/hll.rs:78-134 | the stored form depends only on the set of distinct hashes and is dense exactly when the set outgrows the sparse limit |
| HllSpec.RegistersBounded | crates/flowsketch-algos/src/hll.rs:307-315 | no register exceeds 64 - p + 1 |
| HllSpec.UnionRegisters | crates/flowsketch-algos/src/hll.rs:373-382 | the pointwise maximum of two register arrays is the registers of the union |
| HyperLogLogs.HyperLogLog.InsertHash | crates/flowsketch-algos/src/hll.rs:78-113 | every branch leaves the canonical storage of the old set and the new hash |
| HyperLogLogs.HyperLogLog.EnsureDense | crates/flowsketch-algos/src/hll.rs:115-134 | replaying the sparse hashes gives the registers of their set |
| HyperLogLogs.HyperLogLog.MergeFrom | crates/flowsketch-algos/src/hll.rs:362-387 | every pairing of storage forms leaves the canonical storage of the union |
| HyperLogLogs.SameHashesSameStorage | crates/flowsketch-algos/src/hll.rs:78-134 | two sketches that saw the same distinct hashes through any inserts and merges hold the same storage |
| HllMapSpec.EvictsLeastExactly | crates/flowsketch-algos/src/hll_map.rs:161-188 | with no hypothesis on the estimator, the least key is evicted if and only if its stale cached value does not put it behind the level of another key |
| HllMapSpec.LeastMeans | crates/flowsketch-algos/src/hll_map.rs:26-46 | the least key has the smallest estimate, and among these is the smallest |
| HllMapSpec.CurrentCachesEvictLeast | crates/flowsketch-algos/src/hll_map.rs:161-188 | while no cached value lies above the current estimate the evicted key is the one with the least (current cardinality, key) |
| HllMapSpec.OnlyDenseCachesMislead | crates/flowsketch-algos/src/hll_map.rs:161-176 | a cached value lies above the estimate only for a dirty key whose sketch is past the sparse limit |
| HllMapSpec.MonotoneEvictsLeast | crates/flowsketch-algos/src/hll_map.rs:161-188 | with an estimate that never decreases the evicted key is the one with the least (current cardinality, key) |
| HllMapSpec.MonotoneExactly | crates/flowsketch-algos/src/hll.rs:156-181 | the estimate never decreases if and only if the dense one does not and never falls below the sparse limit |
| HllMapSpec.InsertedUnique | crates/flowsketch-algos/src/hll_map.rs:115-188 | recording an item has one result, down to which slots the search for the victim refreshed |
| HllMapRuns.HoldsSince | crates/flowsketch-algos/src/hll_map.rs:115-140 | a tracked key holds exactly the hashes recorded under it since it was last taken in |
| HllMapRuns.HoldsAll | crates/flowsketch-algos/src/hll_map.rs:115-140 | while all keys fit, every key holds all its hashes |
| HllMapRuns.EvictsLeastExactlyWhenMonotone | crates/flowsketch-algos/src/hll_map.rs:115-188 | the least key is evicted in every run of inserts if and only if the estimate never decreases |
| HllMapRuns.DropGoesWrong | crates/flowsketch-algos/src/hll_map.rs:115-188 | any decrease of the estimate, sparse or dense, leads by plain inserts to a full map that evicts the larger key |
| Ertl.OneOccupied | crates/flowsketch-algos/src/hll.rs:156-181 | with one of 64 registers occupied the improved raw estimate is below two, after any number of rounds from six on |
| Ertl.ErtlEvictsWrongKey | crates/flowsketch-algos/src/hll_map.rs:161-163 | the comment's assumption fails for the code's own estimate at precision 6: three hashes in one register are estimated as fewer than two of them, and a run of inserts evicts the wrong key |
| HllMapSpec.DropsLeastUnique | crates/flowsketch-algos/src/hll_map.rs:345-349 | the trim after a merge has one result |
| HllMaps.HllMap.EvictSmallest | crates/flowsketch-algos/src/hll_map.rs:164-188 | pop and refresh ends, within one round per dirty slot, in dropping the victim, with one heap candidate per key throughout |
| HllMaps.HllMap.Insert | crates/flowsketch-algos/src/hll_map.rs:115-140 | records the item, evicting first when the map is full of other keys; the key bound and the heap invariant hold |
| HllMaps.HllMap.RebuildEvictionHeap | crates/flowsketch-algos/src/hll_map.rs:190-201 | every slot clean, one candidate per key |
| HllMaps.HllMap.MergeFrom | crates/flowsketch-algos/src/hll_map.rs:331-353 | the union of both maps, cut to the bound by dropping exactly the least keys |
| KllSpec.PromotedRank | crates/flowsketch-algos/src/kll.rs:109-115 | twice the promoted rank misses the buffer's rank by at most one, whatever the parity bit |
| KllSpec.PromotedAt | crates/flowsketch-algos/src/kll.rs:109-113 | the promoted items are every second one of the sorted buffer from the parity bit on |
| KllBudget.CompactionIs | crates/flowsketch-algos/src/kll.rs:104-116 | a compaction takes the next generator state, empties its level and appends what that state's low bit promotes to the one above |
| KllSpec.CompactionError | crates/flowsketch-algos/src/kll.rs:99-118 | one compaction at a level moves any weighted rank by at most 2^level |
| KllSpec.CapacitiesFit | crates/flowsketch-algos/src/kll.rs:76-85 | capacities with floored 2/3 decay and floor 8 sum to at most 3k + 8 * levels |
| KllSpec.CapacityIs | crates/flowsketch-algos/src/kll.rs:76-85 | the top level holds k, each below two thirds of it rounded down, none less than eight |
| KllSpec.SpaceBound | crates/flowsketch-algos/src/kll.rs:99-118 | after a whole compression at most 3k + 8 * levels items are stored, even when it added several levels |
| KllBudget.PassAscends | crates/flowsketch-algos/src/kll.rs:99-118 | one pass compacts a level at most once, lower ones first, starting with the lowest that is over its capacity |
| KllBudget.PassIdle | crates/flowsketch-algos/src/kll.rs:99-118 | a pass compacts nothing, and changes nothing, exactly when every level fits |
| KllBudget.PassSettles | crates/flowsketch-algos/src/kll.rs:76-118 | after a pass that added no level every level fits |
| KllBudget.PassUnique | crates/flowsketch-algos/src/kll.rs:99-118 | levels and parity generator decide which levels a pass compacts and what it leaves |
| KllBudget.WeightCompacted | crates/flowsketch-algos/src/kll.rs:104-116 | a compaction takes a whole level away and adds at most 2^level of weight above it |
| KllBudget.CompactAccounted | crates/flowsketch-algos/src/kll.rs:99-118 | every compaction is paid by the items it takes, at least the capacity of its level and one |
| KllBudget.OverlayAccounted | crates/flowsketch-algos/src/kll.rs:259-274 | the accounts of two sketches add up when their levels are joined |
| KllBudget.CostFits | crates/flowsketch-algos/src/kll.rs:99-118 | the cost of all compactions, the sum of 2^level, is at most n times the product of (c + 2) / (c + 1), less one, over the capacities c below the top level |
| KllBudget.CostTenths | crates/flowsketch-algos/src/kll.rs:76-118 | n plus the cost is at most n * (10/9)^(levels - 1), whatever k is |
| KllBudget.HeightFits | crates/flowsketch-algos/src/kll.rs:103-106 | in a sketch of h >= 2 levels (k + 1) * 2^(h - 2) is at most n plus the cost, so levels are logarithmic |
| KllBudget.ExactWhileSmall | crates/flowsketch-algos/src/kll.rs:92-118 | up to k items nothing is compacted and every rank is exact |
| KllSpec.OverlayIsSound | crates/flowsketch-algos/src/kll.rs:259-268 | levels joined with another sketch's keep ranks within the summed budgets |
| KllSpec.ScanReaches | crates/flowsketch-algos/src/kll.rs:126-141 | the first value of the sorted scan to reach the target is the smallest whose weighted rank does |
| KllSpec.TargetFits | crates/flowsketch-algos/src/kll.rs:132-133 | the target rank lies between one and the total weight |
| KllSpec.TargetAnswers | crates/flowsketch-algos/src/kll.rs:125-141 | whatever reaches the target rank answers the fraction q of the weight kept |
| KllSpec.StreamQuantile | crates/flowsketch-algos/src/kll.rs:120-142 | a quantile of what is kept is one of the stream, within twice the budget |
| KllSpec.ReachedRankIsNear | crates/flowsketch-algos/src/kll.rs:120-142 | a value of the target's weighted rank has a true rank within the budget, from both sides |
| KllSpec.TotalIsNear | crates/flowsketch-algos/src/kll.rs:132-133 | the weight kept is within the budget of the number of items inserted |
| KllSketches.KllSketch.LevelCapacity | crates/flowsketch-algos/src/kll.rs:76-85 | the loop computes the decayed, floored capacity |
| KllSketches.KllSketch.Insert | crates/flowsketch-algos/src/kll.rs:92-97 | pushes the value and does exactly one pass; the compactions are the old ones and those of the pass, none exactly when every level fits; ranks stay within their cost and space within 3k + 8 * levels |
| KllSketches.KllSketch.Compress | crates/flowsketch-algos/src/kll.rs:99-118 | terminates and does exactly the specified pass from any state, records the levels it compacted, keeps ranks within the cost of all compactions, and bounds the space |
| KllSketches.KllSketch.MergeFrom | crates/flowsketch-algos/src/kll.rs:259-274 | joined levels and one pass; the compactions are those of both sides and of the pass, ranks of the joined stream stay within their cost, space bounded |
| KllSketches.KllSketch.Quantile | crates/flowsketch-algos/src/kll.rs:120-142 | an inserted value v whose weighted rank reaches the fraction q of the weight kept while smaller values miss it, with q outside the unit interval answered as its nearer end; the same of the stream within twice the sum of 2^level over all compactions done, a cost bounded by the stream's length and zero up to k items; nothing only when empty |
| KllSketches.KllSketch.RankOf | crates/flowsketch-algos/src/kll.rs:144-161 | the weighted rank over the kept weight |
| GatewaySpec.SelectedUnique | crates/flowsketch-gateway/src/state.rs:287-304 | freshest end, most votes, smaller start: at most one window is selected |
| GatewaySpec.SelectedMeans | crates/flowsketch-gateway/src/state.rs:287-304 | the selected window has the freshest end and, among starts with that end, one that more nodes have or as many and smaller |
| GatewaySpec.NodesChange | crates/flowsketch-gateway/src/state.rs:361-371 | nodes that come, go or change leave every other shard's cached merge right |
| GatewaySpec.MergedCount | crates/flowsketch-gateway/src/state.rs:412-416 | shard counts add up to the nodes on the target, so they equal the known nodes exactly when every live node is on it |
| GatewaySpec.FinalHoldsAll | crates/flowsketch-gateway/src/state.rs:416-430 | a cached final state holds every live node's window exactly once |
| GatewaySpec.StoreBytes | crates/flowsketch-gateway/src/state.rs:190-227 | storing a window changes the sum of stored bytes by the new minus the replaced size |
| GatewaySpec.PushStaysAdmitted | crates/flowsketch-gateway/src/state.rs:109-246 | a push drops or moves back no window of an unexpired node and stays within the node and byte limits |
| GatewaySpec.StoredExactly | crates/flowsketch-gateway/src/state.rs:168-233 | a window is stored exactly when the node has no newer one and the total fits with the old bytes given back; it is accepted exactly when stored or only too old; nothing else changes |
| GatewaySpec.FreshestStored | crates/flowsketch-gateway/src/state.rs:164-233 | with room, a push is accepted whole and the node's windows end no earlier than the pushed ones, each a pushed one or the old one |
| GatewaySpec.AppliedExactly | crates/flowsketch-gateway/src/state.rs:141-163 | a push is refused whole exactly when its node is new and the gateway full; the rest applies to what has not expired |
| GatewaySpec.PendingChange | crates/flowsketch-gateway/src/state.rs:345-376 | a change to some nodes leaves only their shards to rebuild |
| Gateways.SelectedWindow | crates/flowsketch-gateway/src/state.rs:287-304 | returns the selected window, or nothing exactly when there are no nodes |
| Gateways.Gateway.MergeCacheShard | crates/flowsketch-gateway/src/state.rs:306-335 | the merge of exactly the shard's nodes on the target, in name order, with their number |
| Gateways.Gateway.RefreshQueryCache | crates/flowsketch-gateway/src/state.rs:337-376 | makes the query's cache coherent again by rebuilding the changed shards alone, keeping what is cached of the others, or all sixteen exactly when the selected window moved |
| Gateways.Gateway.RefreshChangedCaches | crates/flowsketch-gateway/src/state.rs:378-386 | every changed query's cache is coherent again, and the count returned is the sum of what each had to rebuild |
| Gateways.Gateway.EvictStale | crates/flowsketch-gateway/src/state.rs:251-273 | removes exactly the expired nodes and empty queries and gives their bytes back |
| Gateways.Gateway.ApplyBatch | crates/flowsketch-gateway/src/state.rs:114-246 | the stored windows and counts are exactly the specified ones, and caches, limits and byte accounting hold again |
| Gateways.Gateway.StorePush | crates/flowsketch-gateway/src/state.rs:164-233 | keeps a newer window, refuses what the budget cannot hold, and otherwise replaces exactly one window; stored and accepted exactly when these conditions say |
| Gateways.Gateway.UniqueNodeCount | crates/flowsketch-gateway/src/state.rs:275-281 | the number of distinct node names |
| Gateways.Gateway.Merged | crates/flowsketch-gateway/src/state.rs:393-449 | one report per planned query with nodes; its numbers and its estimates agree with a recomputation from the nodes, estimates appear exactly when every live node is on the selected window, and a read with nothing expired rebuilds no shard |
| Bytes.LeOfFromLe | crates/flowsketch-core/src/snapshot.rs:148-162 | reading little-endian bytes and writing the number gives the bytes back |
| Bytes.LeAt | crates/flowsketch-core/src/snapshot.rs:148-162 | the least significant byte comes first |
| Bytes.Reader.LpBytes | crates/flowsketch-core/src/snapshot.rs:209-212 | reads the length-prefixed bytes at the position, or fails at the end |
| SnapshotCodec.WriteSnapshot | crates/flowsketch-core/src/snapshot.rs:55-74 | the layout, field by field, and the checksum of everything before it |
| SnapshotCodec.ReadSnapshot | crates/flowsketch-core/src/snapshot.rs:77-131 | the result, and the first error, of reading the fields in order |
| SnapshotCodec.Layout | crates/flowsketch-core/src/snapshot.rs:55-74 | the place of every field of an encoding |
| SnapshotCodec.ErrorsAre | crates/flowsketch-core/src/snapshot.rs:77-131 | which error is reported: the first that applies, in this order |
| SnapshotCodec.ReadUndoesWrite | crates/flowsketch-core/src/snapshot.rs:55-131 | reading undoes writing for every header of the current version whose lengths fit 32 bits |
| SnapshotCodec.EncodingIsInjective | crates/flowsketch-core/src/snapshot.rs:55-131 | two snapshots of the current version that fit and share an encoding are equal |
| SnapshotCodec.ReadsExactly | crates/flowsketch-core/src/snapshot.rs:76-131 | exactly the encodings of a current-version snapshot that fits are read as it, with any bytes between payload and checksum |
| SnapshotCodec.RewritesExactly | crates/flowsketch-core/src/snapshot.rs:55-131 | writing what was read gives the same bytes if and only if the input is 51 bytes longer than its two length fields say |
| SnapshotCodec.OneByteLost | crates/flowsketch-core/src/snapshot.rs:76-131 | a concrete input whose extra byte is read over and not written again |
| BatchCodec.Encode | crates/flowsketch-gateway/src/batch.rs:56-70 | the envelope, entry by entry, and its checksum |
| BatchCodec.Decode | crates/flowsketch-gateway/src/batch.rs:72-113 | the result, and the first error, of reading the envelope in order |
| BatchCodec.Layout | crates/flowsketch-gateway/src/batch.rs:56-70 | the place of every field of an encoding |
| BatchCodec.ErrorsAre | crates/flowsketch-gateway/src/batch.rs:72-87 | too short, checksum, magic and version errors, in this order |
| BatchCodec.EntryErrorsAre | crates/flowsketch-gateway/src/batch.rs:88-113 | too many entries, the first entry that cannot be read, and trailing bytes, in this order |
| BatchCodec.NameErrorsAre | crates/flowsketch-gateway/src/batch.rs:115-136 | which names are refused, and why |
| BatchCodec.EncodeUndoesDecode | crates/flowsketch-gateway/src/batch.rs:72-136 | every successful decode is of a well-formed batch that encodes to the same bytes |
| BatchCodec.RoundTripExactly | crates/flowsketch-gateway/src/batch.rs:56-136 | decoding an encoded batch gives it back if and only if the batch is well-formed |

## Left out

- Floating point: cardinality and quantile arithmetic is over real numbers, the dense estimate is an arbitrary function of the registers except in `Ertl`, where the loop that runs to a floating-point fixed point has a number of rounds, the square roots of the saturation correction are a parameter, and rounding is absent, and epsilon, delta, entropy and confidence bounds are not modelled.
- Probabilistic error claims (Count-Min failure probability, KLL 2.3/k, HyperLogLog standard error): only what the code decides is stated.
- Hash functions: `hash64`, row hashes and `splitmix64` are arbitrary functions, collisions included.
- u64 overflow: counters, weights and times are unbounded naturals; only encoded fields have widths.
- HashMap and BTreeMap iteration: hash maps are visited in any order, ordered maps in name order; standard sorts are insertion sorts on values and the standard binary heap is a multiset with a least element.
- `reset`, rejection of hostile snapshots beyond the modelled parsers, vector capacities and memory accounting; a gateway state's size is an arbitrary number.
- Parameter digests: `params_hash` comparisons are comparisons of the parameters themselves.
- UTF-8 and trimming: which byte strings are valid and which are blank are parameters of the batch codec.
- Threads: rayon shards are independent sequential runs, channels are FIFO queues whose bound only delays senders, timeouts are steps a worker may take at any time, and panics and CPU pinning are absent.
- Wall clocks: the gateway's stale nodes are an arbitrary set chosen at each call, and the initial watermark is a parameter.
- ShardedEngine.ShardedQueryEngine.ProcessBatch: after a refusal it does not say which of the other shards ran, since the parallel loop does not either.
- LaneReports.BuildReport: the memory and late-event totals of a report are absent.
- LaneReports.PublishReports: so are their sums in what is published.
- Lanes after an error: a coordinator whose checkpoint failed takes no further checkpoint; the code would let the caller ask for one.
- LaneBarrier.PublishedIsExact: states which events a published window holds, not the order in which lanes' sketches were merged.
- Gateways.Gateway.ApplyBatch: starts from validated states; parsing components against a plan is not part of this model.
- HllMaps.HllMap.EvictSmallest: the branch that skips a candidate whose key is gone is proved unreachable and not written.
- Filtered queries under sharding: the exact condition is for streams in order; out of order, events lost on one side and equal ones gained can cancel, and only unfiltered queries have one.
- HTTP, exposition formats, YAML, CLI, packet parsing, AF_PACKET and eBPF, benchmarks, Count Sketch, the exact counter and the planner's sizing formulas would add only plumbing or easy members.
