# Verification of the GLM serving overlay

Dafny models of the algorithms this repository adds to a serving stack, with proofs of what they are for:
the pooled sparse-attention index, the compact recurrent-state replay, the schedulers, the quantisation search,
the layout and address arithmetic, and the mergeable top-k. `dafny verify dfyconfig.toml` checks everything.

| module | what it models |
|---|---|
| `KpoolRing`, `KpoolRuns`, `KpoolBatch`, `KpoolServing`, `PoolSlots` | the index cache built from a ring of one pool per request, under speculative verification with rollback, batched prefill, whole runs of many requests on shared buffers, and sharding over ranks |
| `Hadamard` | the butterfly rotation of queries and keys |
| `KdaReplay`, `KdaProtocol`, `DeltaRule` | committed recurrent state replayed after sampling, against one stored snapshot per draft token; the concrete gated delta rule and its tiling |
| `Tickets` | the concurrent claim, retire and reset protocol of expert groups |
| `ListScheduling` | greedy and round-robin expert assignment |
| `DecodeFirst` | the adaptive token bucket that admits prefill packets into decoding batches |
| `Rounding`, `GroupSearch` | nearest E2M1 and E4M3 rounding, four-over-six, and the search over group scales |
| `TopK`, `VocabTopK` | the priority reservoir, its shard merge, and the vocabulary-parallel top-k |
| `AdaptiveK` | the draft-length policy tied to captured graphs |
| `WeightAddresses`, `DecodeScatter`, `ShardRewrite`, `DrafterLayout` | packed-weight addresses, decode scatter indices, the safetensors rewrite, the KV tensor layout |
| `Arith`, `Vectors`, `Wrappers` | shared arithmetic facts, inner products and the option type |

Kernels and objects that change buffers in place are classes and methods over arrays, each proved equal to a
specification function on values; the theorems over whole runs are about those functions. Arithmetic is over
integers and reals. E2M1 is section 5.3.3 of the OCP Microscaling Formats (MX) Specification v1.0, E4M3 that of the
OCP 8-bit Floating Point Specification.

Where the code and what is said about it part ways, the code was followed:

- The ring does not keep rollback safe unconditionally. The exact condition is `KpoolRuns.Safe`: the new position
  opens a pool, or the verified window stayed inside the pool of the new position.
- The comment that floor division gives a strict aggregate upper bound (docker/glm_decode_first_scheduler.py:277)
  fails with more prefills than packet tokens, and with a per-request budget.
- The smoothing factor of the draft-length average is taken unchecked from the environment and the override file; the
  average keeps its range exactly when the factor lies in [0, 1] (`AdaptiveK.BlendBoundsIff`). With a factor of 2 it is
  -7 after one rejected draft. With a usable boot set the lengths chosen stay captured whatever the average is.
- A boot set with an entry below 1 and without 1 can choose draft length 1, which has no captured graph.
- A standalone drafter whose own page happens to equal the MLA page is taken for an exact fit by every consumer, and
  the layout is rejected when it has more layers than there are MLA tensors.
- A shard that already holds a tensor under a restored weight's scale name loses an entry: whichever of the two comes
  later in the shard's order is kept, and the other, the official scale or the shard's own tensor, is gone
  (`ShardRewrite.CollisionLoses`; nothing is lost exactly when the names are fresh).
- A per-stratum limit of zero keeps every row, because a slice from minus zero is the whole array.
- A reload that meets an unreadable value keeps the values it had already taken.

## Model

| member | source | states |
|---|---|---|
| KpoolRing.IndexCache.GatherWindow | overlay-dflash2/sm121_mxfp4_indexer.py:380-398 | the completed window, gathered by ring address with the current token taken from registers, is the ring in order and then that token |
| KpoolRing.IndexCache.UpdateToken | overlay-dflash2/sm121_mxfp4_indexer.py:345-452 | one lane, padding lanes included: the pool is completed from the old ring before the token overwrites its own slot |
| KpoolRing.StepIs | overlay-dflash2/sm121_mxfp4_indexer.py:345-452 | the same entry by entry: a live token takes its own ring slot and nothing else, and a record is written only at the end of a pool, from the older entries as they were and the token itself |
| KpoolRing.IndexCache.DecodeUpdate | overlay-dflash2/sm121_mxfp4_indexer.py:340-452 | the lanes of a launch take effect in position order, as the step function applied one lane after another |
| KpoolRing.IndexCache.PrefillInsert | docker/sparse_attn_indexer_kpool_sm121.py:64-120 | every row with a slot and a whole window before it writes that window's pool; batches shorter than a pool write nothing |
| KpoolRuns.PrefillIsFeed | docker/sparse_attn_indexer_kpool_sm121.py:403-444 | a pool-aligned prefill chunk, inserted by windows and then seeding the tail ring, leaves exactly the ring and the records that decoding its tokens one by one leaves |
| KpoolRuns.ApplyIsFeed | overlay-dflash2/sm121_mxfp4_indexer.py:346-452 | prefill chunks and verification steps alike are their tokens fed in position order, rejected suffix included |
| KpoolRuns.UnspoiledTracked | overlay-dflash2/sm121_mxfp4_indexer.py:346-452 | over every run of chunks, drafts of any width and accepted counts, a pool that no rollback spoiled is the pooling of its committed tokens once it is committed |
| KpoolRuns.CommittedPoolsRight | overlay-dflash2/sm121_mxfp4_indexer.py:346-452 | when each rollback lands on a pool boundary or its window stayed in the pool of the new position, every stored pool in the committed prefix is right |
| KpoolRuns.NoRollbackIsSafe | docker/sparse_attn_indexer_kpool_sm121.py:76-78 | prefill chunks and steps that reject nothing always meet the guard |
| KpoolRuns.ChunkIndependence | docker/sparse_attn_indexer_kpool_sm121.py:76-78 | two safe runs of one request on buffers of its own that commit the same tokens, however chunked, drafted and accepted, store the same records |
| KpoolRuns.PoolRightIffUnspoiled | overlay-dflash2/sm121_mxfp4_indexer.py:437-452 | the guard is exact: with tokens told apart and pooling that loses nothing, a stored committed pool is right if and only if no step rolled back into it after its window ran past it |
| KpoolRuns.SafeIffNothingSpoilt | overlay-dflash2/sm121_mxfp4_indexer.py:437-452 | the guard on one step is met exactly when it rolls back into no pool that its window ran past |
| KpoolRuns.UnsafeRunIsWrong | overlay-dflash2/sm121_mxfp4_indexer.py:483-484 | a concrete run against the unconditional rollback claim: pool size 2, a window of 3 of which 1 is accepted, then one more token, and the record is wrong |
| KpoolBatch.RequestsAreIsolated | overlay-dflash2/sm121_mxfp4_indexer.py:317-341 | under every interleaving of all lanes of a launch, a request that sees some ring and records in the shared buffers sees afterwards what it would have made of them alone |
| KpoolBatch.BatchedInsert | docker/sparse_attn_indexer_kpool_sm121.py:84-120 | a concatenated batch with a request appended on a pool boundary inserts as the batch and then the request |
| KpoolBatch.BatchIsPerRequest | docker/sparse_attn_indexer_kpool_sm121.py:84-120 | for any number of concatenated requests that start on pool boundaries, no window crosses a request |
| KpoolBatch.RankLayoutOk | overlay-dflash2/sm121_mxfp4_indexer.py:896-914 | with an injective block table every rank has its own record for each pool it owns |
| KpoolBatch.MapperAgrees | overlay-dflash2/sm121_mxfp4_indexer.py:896-914 | the slot mapper gives a pool-completing token the record slot that the run-level layout of that rank assigns to its pool |
| KpoolBatch.ShardedPoolsRight | overlay-dflash2/sm121_mxfp4_indexer.py:929-935 | over every safe run, on every rank, the pools that the rank owns are right |
| KpoolServing.SharedRun | docker/sparse_attn_indexer_kpool_sm121.py:378-444 | over every run of launches on the shared buffers, prefill batches of several concatenated requests and decode launches over the lanes of all of them in any order, every request sees exactly what its own events would have made alone |
| KpoolServing.SharedPoolsRight | docker/sparse_attn_indexer_kpool_sm121.py:406-444 | so every pool that a request has committed on safe steps is right in the shared cache, whatever the other requests do and however they roll back |
| KpoolServing.SharedRightIffUnspoiled | overlay-dflash2/sm121_mxfp4_indexer.py:437-452 | and on the shared buffers too a stored committed pool is right if and only if no step of its own request spoiled it |
| KpoolServing.SharedChunkIndependence | docker/sparse_attn_indexer_kpool_sm121.py:76-78 | a request that commits the same tokens on safe steps gets the same pools on two servers with different buffers, neighbours, chunks, drafts and places |
| KpoolServing.OthersAreForeign | docker/sparse_attn_indexer_kpool_sm121.py:384-398 | whatever of a launch belongs to another request or is padding touches neither the tail block nor a record of this one |
| KpoolServing.BatchServes | docker/sparse_attn_indexer_kpool_sm121.py:411-444 | one flat insertion and one seeding for each request do for every request of a prefill batch what its own chunk does alone, and nothing for the others |
| KpoolServing.OnRankOk | overlay-dflash2/sm121_mxfp4_indexer.py:896-914 | requests whose block tables share no physical block, as the mapping kernel places them on a rank, meet the conditions of such a run |
| KpoolServing.ShardedServing | overlay-dflash2/sm121_mxfp4_indexer.py:929-935 | over every such run, on every rank, a committed pool of a request that rolls back safely is right on the rank that owns it and has no place elsewhere |
| KpoolServing.SmallServing | docker/sparse_attn_indexer_kpool_sm121.py:406-444 | a concrete run that meets every condition: two requests prefilled in one batch, then a verification beside a padding lane |
| PoolSlots.MapSlots | overlay-dflash2/sm121_mxfp4_indexer.py:887-914 | the whole mapping kernel over a buffer filled with the padding id: every token of every request gets its slot, tile by tile, and nothing else is written; the slot is stated by dealing pools to the ranks in turn |
| PoolSlots.CellOfPool | overlay-dflash2/sm121_mxfp4_indexer.py:897-905 | owner, block and offset of a pool lie in range and give the pool back: pools are dealt to the ranks in turn and fill each rank's blocks in order |
| PoolSlots.PoolOfCell | overlay-dflash2/sm121_mxfp4_indexer.py:897-905 | every cell of the sharded cache is the cell of exactly one pool |
| PoolSlots.ExactlyOneWriter | overlay-dflash2/sm121_mxfp4_indexer.py:911-913 | a completed pool has a slot on exactly one rank; a token inside a pool has none on any rank |
| PoolSlots.SlotsNeverCollide | overlay-dflash2/sm121_mxfp4_indexer.py:905-914 | on one rank, with no physical block shared, slots coincide only for the same pool of the same request |
| PoolSlots.OneRankIsPaging | overlay-dflash2/sm121_mxfp4_indexer.py:896-905 | with one rank the slot is block table entry times block size plus offset, by pool |
| Hadamard.StagesAreWalsh | overlay-dflash2/sm121_mxfp4_indexer.py:88-107 | for every number of stages, the reshape-and-butterfly stages compute the recursive Walsh transform |
| Hadamard.StagesInvolution | overlay-dflash2/sm121_mxfp4_indexer.py:88-107 | applied twice, k stages multiply by 2^k |
| Hadamard.StagesKeepScores | overlay-dflash2/sm121_mxfp4_indexer.py:88-107 | k stages with any factor scale every inner product by the factor squared times 2^k |
| Hadamard.RotationKeepsScores | overlay-dflash2/sm121_mxfp4_indexer.py:99-107 | rotating query and key leaves their score unchanged up to the rounding of the literal 0.08838834764831845, under three parts in 10^16 |
| Hadamard.StagesAreSylvester | overlay-dflash2/sm121_mxfp4_indexer.py:88-107 | each output is the inner product with a row of the Sylvester matrix, built independently |
| KdaReplay.CompactLayer.Stage | overlay-dflash2/patch_vllm_compact_kda_replay.py:631-664 | staging fills the fixed-size buffers: live prefixes are the inputs, padding sequences are empty with slot 0 and mask false, older token rows stay |
| KdaReplay.CompactLayer.Commit | overlay-dflash2/patch_vllm_compact_kda_replay.py:1005-1011 | the post-sampling hook keeps the counts of masked requests in order and replays them |
| KdaReplay.CompactLayer.Replay | overlay-dflash2/patch_vllm_compact_kda_replay.py:684-732 | more counts than sequences is an error that changes nothing; otherwise counts are zero-padded and the state table becomes the fold of every accepted prefix |
| KdaReplay.CompactLayer.Program | overlay-dflash2/compact_kda_replay.py:77-147 | one sequence: the accepted count capped by its length, nothing for a null slot, else the fold of the accepted tokens |
| KdaReplay.ReplayOneIs | overlay-dflash2/compact_kda_replay.py:77-147 | and that is stated by the states passed through: as many tokens as were accepted, at most all of them, one transition after another, and no other slot changes |
| KdaProtocol.ReplayAt | overlay-dflash2/compact_kda_replay.py:81-147 | with live slots apart, a slot ends at the fold of its own sequence's accepted prefix whatever the other sequences do |
| KdaProtocol.ReplayUntouched | overlay-dflash2/compact_kda_replay.py:92-94 | state slots of no sequence are unchanged |
| KdaProtocol.StaleRowsIgnored | overlay-dflash2/patch_vllm_compact_kda_replay.py:648-656 | token rows left by earlier, longer steps do not affect the result |
| KdaProtocol.PaddingIsIdle | overlay-dflash2/patch_vllm_compact_kda_replay.py:655-657 | padding sequences change nothing |
| KdaProtocol.SelectRoutes | overlay-dflash2/patch_vllm_compact_kda_replay.py:1006-1009 | compaction by the mask routes each request's count to its own staged sequence |
| KdaProtocol.CommitPerRequest | overlay-dflash2/patch_vllm_compact_kda_replay.py:1005-1011 | mask, compaction, padding and replay together: a masked request's slot ends at the fold of its sampled prefix |
| KdaProtocol.VerifyResumes | overlay-dflash2/patch_vllm_compact_kda_replay.py:151-183 | the snapshot protocol resumes a verified request at column accepted-1, which is the fold of the accepted prefix, and every other request where it was |
| KdaProtocol.StepRefines | overlay-dflash2/patch_vllm_compact_kda_replay.py:158-200 | verification with commit, and migration to fresh slots, keep the two protocols' resumed states equal |
| KdaProtocol.CompactRefinesSnapshots | overlay-dflash2/patch_vllm_compact_kda_replay.py:158-201 | over every run of operations each request's one committed state is the snapshot the original recurrence would have resumed from |
| KdaProtocol.HoldsAcceptedFold | overlay-dflash2/patch_vllm_compact_kda_replay.py:158-201 | and over every run of operations that are possible when they come, what both protocols hold for a request is the fold of all the tokens it ever accepted, whatever was drafted, rejected and migrated in between |
| KdaProtocol.LaunchIsCommits | overlay-dflash2/compact_kda_replay.py:81-147 | a batched launch is the compact commits of its requests one after another |
| KdaProtocol.StagedCommit | overlay-dflash2/patch_vllm_compact_kda_replay.py:631-732 | staging and the post-sampling commit together, with stale rows in the buffers and padding up to the fixed number of sequences: the state table ends exactly as the compact commits of the launch's requests leave it |
| DeltaRule.EntryAfterToken | overlay-dflash2/compact_kda_replay.py:115-147 | what one accepted token leaves in each entry: the entry times its own column's decay, moved along the key scaled by its sum of squares by the weighted difference between the value and what the decayed row holds along that key |
| DeltaRule.OnlyDecays | overlay-dflash2/compact_kda_replay.py:135-147 | a token whose beta weight or key is zero only multiplies every entry by its decay |
| DeltaRule.FadesOverRun | overlay-dflash2/compact_kda_replay.py:108-147 | and any number of such tokens multiply it by all their decays |
| DeltaRule.OrthogonalUntouched | overlay-dflash2/compact_kda_replay.py:136-147 | along every direction orthogonal to the key the decayed row stays as it is, whatever the value and the weight |
| DeltaRule.TokenReadsBack | overlay-dflash2/compact_kda_replay.py:136-147 | along the key itself what the row holds moves towards the value by the weight times the key's squared length; with a unit key and weight one it then holds the value |
| DeltaRule.RowsEvolveAlone | overlay-dflash2/compact_kda_replay.py:115-147 | folding a whole state is folding every row of every head on its own |
| DeltaRule.PadStep | overlay-dflash2/compact_kda_replay.py:102-147 | lanes masked past the row stay zero and never change the row, whatever their decay |
| DeltaRule.TilesFit | overlay-dflash2/compact_kda_replay.py:203-204 | a head has as many programs as its rows need, none of them idle |
| DeltaRule.TilesPartition | overlay-dflash2/compact_kda_replay.py:77-80 | for every tile height each row of each head belongs to exactly one program of the grid |
| DeltaRule.Program | overlay-dflash2/compact_kda_replay.py:100-149 | one program folds exactly the rows of its tile and leaves all others |
| DeltaRule.Launch | overlay-dflash2/compact_kda_replay.py:77-149 | for every tile height and lane count the slot ends at the untiled fold of the delta rule: V-tiling is harmless |
| Tickets.StepKeeps | probes/exl3_ticket_source.py:19-53 | every shared-memory step of every group keeps the invariant: tickets apart, each issued expert run once or held by a group that has yet to reach it |
| Tickets.RetiresLast | probes/exl3_ticket_source.py:41-52 | the last group retires only after every expert has run |
| Tickets.NeverTwice | probes/exl3_ticket_source.py:26-38 | in every interleaving of any number of launches no expert is run twice and no two groups hold the same ticket |
| Tickets.EveryExpertOnce | probes/exl3_ticket_source.py:26-53 | when all groups have finished every active expert was run by exactly one group and both counters are zero again |
| Tickets.ResetsAfterAll | probes/exl3_ticket_source.py:40-52 | a counter is lowered only when every group has retired |
| Tickets.FairScheduleFinishes | probes/exl3_ticket_source.py:36-39 | each of a group's own turns brings it closer to its end and no other group's turn sets it back |
| Tickets.LaunchCompletes | probes/exl3_ticket_source.py:19-53 | a launch of n experts over any idle or finished workspace, in which each group gets 5n+4 turns, ends with every expert run once and the counters restored |
| Tickets.EveryLaunchCompletes | probes/exl3_ticket_source.py:19-53 | and so does the next launch after any number of earlier ones, in any interleaving |
| ListScheduling.ScheduleModel | probes/analyze_exl3_ticket_screen.py:9-23 | the loops over costs compute the loads of round robin and of the earliest-free-group heap; each makespan is the greatest load, attained, the bound is the larger of the largest cost and the even share, and a round-robin load is the tiles of the active experts in its turn; without groups it is an error |
| ListScheduling.CostsAreTiles | probes/analyze_exl3_ticket_screen.py:12-12 | the costs are, in order, the 16-row tiles of the experts with rows, and nothing for the others |
| ListScheduling.GreedyStep | probes/analyze_exl3_ticket_screen.py:18-19 | each cost goes to the group that is free earliest, the lowest of those that tie, and no other load changes |
| ListScheduling.LoadIsShare | probes/analyze_exl3_ticket_screen.py:13-17 | a round-robin load is the cost of the items at its group's positions |
| ListScheduling.Conserved | probes/analyze_exl3_ticket_screen.py:13-18 | every assignment, greedy and round robin included, spends exactly the total cost |
| ListScheduling.NoAssignmentBeatsBound | probes/analyze_exl3_ticket_screen.py:23-23 | the optimistic lower bound is at most the makespan of every assignment |
| ListScheduling.Graham | probes/analyze_exl3_ticket_screen.py:16-19 | for every group after every item, groups times its load is at most the cost so far plus (groups-1) times the largest |
| ListScheduling.GreedyMakespan | probes/analyze_exl3_ticket_screen.py:16-22 | Graham's bound for the greedy makespan |
| ListScheduling.GreedyVersusAny | probes/analyze_exl3_ticket_screen.py:16-22 | greedy is within 2-1/groups of every assignment |
| ListScheduling.GreedyUnderTwiceBound | probes/analyze_exl3_ticket_screen.py:20-23 | the greedy makespan is under twice the bound if and only if some expert is active |
| DecodeFirst.ValidateProfile | docker/glm_decode_first_scheduler.py:31-105 | accepts exactly the raw profiles that meet the stated conditions on interval, packet and tiers, and returns what they say, with the three default tiers where none are given |
| DecodeFirst.AdaptiveScheduler.CurrentProfile | docker/glm_decode_first_scheduler.py:108-150 | the profile used and remembered: a recent or unchanged one is kept without reading, a usable one is taken, a bad one is ignored once there is a profile and is an error before; each stated on the raw contents of the file |
| DecodeFirst.TierIsNarrowest | docker/glm_decode_first_scheduler.py:153-157 | the tier chosen is the narrowest that covers the decoders, or the widest when none does |
| DecodeFirst.PacketGrows | docker/glm_decode_first_scheduler.py:160-165 | a lone prefill gets the base packet and more prefills never shrink it |
| DecodeFirst.IncrementBounds | docker/glm_decode_first_scheduler.py:23-28 | the increment is the packet over the interval, rounded up |
| DecodeFirst.CreditInRange | docker/glm_decode_first_scheduler.py:249-267 | credit stays between zero and the current packet after any steps |
| DecodeFirst.VolumeBound | docker/glm_decode_first_scheduler.py:249-267 | over every window of a mixed phase, with tiers changing at will, tokens scheduled plus credit left are at most the first packet, one increment a step, and what the parent overran |
| DecodeFirst.AggregateBoundIff | docker/glm_decode_first_scheduler.py:277-280 | the comment's strict aggregate bound holds if and only if there is one prefill, or the budget is global and there are no more prefills than packet tokens |
| DecodeFirst.LimitIsGreatest | docker/glm_decode_first_scheduler.py:276-280 | the lower side: with a global budget and no more prefills than packet tokens the limit is the greatest that keeps all of them in the packet, so fewer tokens than there are prefills go unused; with more it is one, and without a global budget the packet |
| DecodeFirst.AggregateBoundFails | docker/glm_decode_first_scheduler.py:277-280 | seven prefills under a six-token packet get seven tokens |
| DecodeFirst.ParentStaysInPacket | docker/glm_decode_first_scheduler.py:270-280 | a parent that respects throttle and threshold then never overruns the packet |
| DecodeFirst.ScheduledVolume | docker/glm_decode_first_scheduler.py:230-316 | over every mixed run of the scheduler, profile, decoders, prefills and throttle changing at every step, with a parent that keeps to the throttle and limit it is passed and settings under which the aggregate bound holds: the prefill tokens scheduled are at most the first packet and one increment for each later step |
| DecodeFirst.TokensAdd | docker/glm_decode_first_scheduler.py:302-306 | the tokens charged are the sum over the scheduled items of those whose request is a prefill |
| DecodeFirst.BoundedWait | docker/glm_decode_first_scheduler.py:263-268 | without outside throttle, tiers and prefill counts changing at every step, a packet waits at most (largest packet - 1) / smallest increment steps |
| DecodeFirst.ProfileWait | docker/glm_decode_first_scheduler.py:263-268 | under one profile the wait is at most (greatest packet of its tiers - 1) / least increment of its tiers, whatever tiers and prefill counts the steps select |
| DecodeFirst.FixedTierWait | docker/glm_decode_first_scheduler.py:263-268 | with a fixed tier one of any interval consecutive steps admits |
| DecodeFirst.WaitIsExact | docker/glm_decode_first_scheduler.py:263-268 | with a fixed tier the wait is exactly as long as the missing credit takes to earn |
| DecodeFirst.AdaptiveScheduler.Schedule | docker/glm_decode_first_scheduler.py:230-316 | one step from any look: the profile is the one that look calls for, settings are restored in every case, an exception leaves the bucket alone, and otherwise the parent gets the throttle, the limit, as LimitIsGreatest states it, and the flag, and leaves the bucket as the rule says, each stated on the tier, packet and credit without the functions that compute them |
| DecodeFirst.StepAsks | docker/glm_decode_first_scheduler.py:249-316 | what a step asks of the parent and leaves in the bucket, from the narrowest covering tier, the packet grown by the prefills, the credit and the share |
| DecodeFirst.QueuesCounted | docker/glm_decode_first_scheduler.py:168-181 | decoders and prefills of a step are the numbers of running requests past and inside their prompts and of waiting ones |
| Rounding.E4m3PositiveTable | kv_calibration/numerics.py:23-33 | the table without its decoding: the codes below 16 are the multiples of 2^-9, above them eight codes up is twice the value, and it rises strictly from 0 to 448 |
| Rounding.NextCode | kv_calibration/numerics.py:23-33 | each E4M3 code is one step above the one before, across the subnormal boundary and every power of two |
| Rounding.TableRises | kv_calibration/numerics.py:23-36 | the E4M3 table is strictly increasing from zero |
| Rounding.NearestIsNearest | kv_calibration/numerics.py:39-51 | on every real input, inside the range or not, no table entry is closer |
| Rounding.TiesAreEven | kv_calibration/numerics.py:46-50 | when another entry is just as close the even code was taken |
| Rounding.LadderIsNearest | probes/optimize_nvfp4_rounding.py:148-154 | the threshold ladder reaches the least error on every input |
| Rounding.LadderMatchesNearestEven | probes/optimize_nvfp4_rounding.py:148-154 | so both roundings have the same error everywhere |
| Rounding.CodesDifferExactly | probes/optimize_nvfp4_rounding.py:151-152 | they take different codes at exactly 0.75, 1.75 and 3.5 |
| Rounding.QuantizeGroups | kv_calibration/numerics.py:81-132 | every group of sixteen is written at the latent scale times the E4M3 value nearest to its attained greatest magnitude over 6 or over 4 times the latent scale, with nearest codes, and with no more error than the other of the two, six on a tie; a wrong shape or scale is an error |
| Rounding.FourOverSixIsWritten | kv_calibration/numerics.py:105-126 | and that is stated without the functions that compute it: the two scales, the codes and the least error of both |
| Rounding.AmaxAttained | kv_calibration/numerics.py:106-106 | the greatest magnitude bounds the group and is the magnitude of one of its values |
| Rounding.GroupIsOptimal | kv_calibration/numerics.py:105-116 | at any scale, zero included, the rounded codes have the least squared error of all signed code assignments |
| Rounding.FourOverSixIsBest | kv_calibration/numerics.py:118-126 | what is written beats every signed code assignment under either divisor's scale, and is strictly better than the amax/6 rule exactly when four was chosen |
| GroupSearch.UnpackPack | probes/optimize_nvfp4_rounding.py:129-161 | unpacking packed codes gives them back; the even position is the low nibble |
| GroupSearch.PackUnpack | probes/optimize_nvfp4_rounding.py:129-161 | packing unpacked bytes gives them back |
| GroupSearch.DecodedValues | probes/optimize_nvfp4_rounding.py:129-161 | the eight magnitudes and their negatives that the sixteen codes stand for |
| GroupSearch.EncodedIsOptimal | probes/optimize_nvfp4_rounding.py:230-234 | sign and ladder code of a weight have the least squared error of all sixteen codes at that scale |
| GroupSearch.BestCode | probes/optimize_nvfp4_rounding.py:183-226 | the code found lies in the clamped window and no code of the window has less weighted error |
| GroupSearch.BestIsOptimal | probes/optimize_nvfp4_rounding.py:202-234 | it is the joint optimum over the window's scale codes and all signed code assignments |
| GroupSearch.NeverWorseThanBaseline | probes/optimize_nvfp4_rounding.py:205-211 | so it is never worse than the amax/6 code with any codes, for every finite code, code 0 of a group that rounds to nothing included |
| GroupSearch.OptimizeGroups | probes/optimize_nvfp4_rounding.py:165-237 | every group of every row of the packed output, read back through unpacking: its scale code lies in the window centred on the cast of the attained greatest magnitude over six times the divisor, it has the least weighted error of all codes of the window with all sixteen-code assignments, and is never worse than that cast with any codes; for every row chunk; wrong shapes are errors |
| GroupSearch.OptimalIsAnswer | probes/optimize_nvfp4_rounding.py:202-234 | the joint optimum is that answer, stated without the functions that compute base code, window, error and codes |
| TopK.Merge | kv_calibration/runtime.py:160-165 | the k largest of two parts are the k largest of what the parts kept, when each kept at least k, ties allowed |
| TopK.LargestUnique | kv_calibration/runtime.py:139-139 | with distinct priorities there is only one answer |
| TopK.PriorityReservoir.Add | kv_calibration/runtime.py:150-167 | however a stream is cut into calls, the retained rows are the capacity largest of everything added: none left out drew a higher priority than one kept |
| TopK.LoadStratum | kv_calibration/fit.py:71-77 | concatenated shards are cut to the limit largest; a limit of zero keeps every row, in some order |
| TopK.ShardsMerge | kv_calibration/fit.py:70-78 | with the limit within every shard's capacity the merged rows are the largest of everything any shard saw |
| TopK.SampledOnce | kv_calibration/runtime.py:226-233 | strided sampling takes no group twice |
| TopK.StrideIsWidest | kv_calibration/runtime.py:226-228 | the stride is the widest with which that many groups fit the call |
| TopK.ClampNeverActs | kv_calibration/runtime.py:226-233 | every index, the last and that of a single sample included, is below the total before the clamp |
| VocabTopK.GetTopKTokens | overlay-dflash2/patch_registry_and_select.py:320-366 | the ids returned are those of k columns of the shards, padding masked, in descending order, no column left out above any of them; each value is its logit scaled, and capped through tanh under a soft cap; a scale that is not positive is an error |
| VocabTopK.ColumnsAre | overlay-dflash2/patch_registry_and_select.py:346-359 | the gathered columns are each rank's masked logits under their vocabulary ids, and nothing else |
| VocabTopK.ColumnCount | overlay-dflash2/patch_registry_and_select.py:346-359 | and there are as many of them as logits: no column is lost or counted twice |
| VocabTopK.PadsNeverTaken | overlay-dflash2/patch_registry_and_select.py:346-349 | masked padding is returned if and only if the vocabulary has fewer than k entries |
| VocabTopK.ReturnsGlobalTopK | overlay-dflash2/patch_registry_and_select.py:351-359 | otherwise the answer is the top-k of the whole vocabulary, by logit and by finished value |
| VocabTopK.FinishIsMonotone | overlay-dflash2/patch_registry_and_select.py:361-365 | scale and soft cap keep the order, so applying them to the selection only is enough |
| AdaptiveK.BlendBoundsIff | overlay-exl3-fp8/patch_adaptive_k.py:125-134 | over all steps with drafts up to a positive longest length, the average stays between zero and that length if and only if the smoothing factor, which the source never checks, lies in [0, 1] |
| AdaptiveK.FirstRejectionEscapes | overlay-exl3-fp8/patch_adaptive_k.py:130-131 | a single first step already tells: after a wholly rejected first draft the average is in range exactly for a factor in [0, 1] |
| AdaptiveK.FactorTwoEscapes | overlay-exl3-fp8/patch_adaptive_k.py:61-61 | a factor of 2 takes a request with longest draft 7 to an average of -7 |
| AdaptiveK.CapturedIff | overlay-exl3-fp8/patch_adaptive_k.py:144-147 | every choice has its captured graph if and only if the boot set is positive, or holds 1, or the full length is 1 |
| AdaptiveK.CapturedAre | overlay-exl3-fp8/patch_adaptive_k.py:296-308 | a query length has a captured graph exactly when it had one, or is the full length, or is one more than a boot entry and no longer than the full length |
| AdaptiveK.ZeroEntryFails | overlay-exl3-fp8/patch_adaptive_k.py:303-304 | a boot set with 0 and 7 chooses length 1, which has no graph |
| AdaptiveK.BatchCaptured | overlay-exl3-fp8/patch_adaptive_k.py:182-193 | with a usable boot set the length of every batch lies between 1 and the full length and has its captured graph |
| AdaptiveK.AgreedIsLength | overlay-exl3-fp8/patch_adaptive_k.py:136-193 | the length of every batch without the functions that compute it: the full length when a counted request is structured, unseen or has too few steps, and otherwise the least, over counted requests, of the largest entry within the target, or the least entry, held between 1 and the full length |
| AdaptiveK.BlendMoves | overlay-exl3-fp8/patch_adaptive_k.py:122-134 | one observation moves the average by the factor towards what was accepted, capped or saturated as the draft length says |
| AdaptiveK.TakenTakes | overlay-exl3-fp8/patch_adaptive_k.py:99-118 | what a reload takes from the file, field by field, complete or broken off |
| AdaptiveK.BatchIsLeast | overlay-exl3-fp8/patch_adaptive_k.py:182-191 | a batch is pinned exactly when some counted request has no choice and otherwise takes the least |
| AdaptiveK.GapShrinks | overlay-exl3-fp8/patch_adaptive_k.py:125-134 | each fully accepted step shrinks the gap to the longest length by 1-alpha |
| AdaptiveK.Recovers | overlay-exl3-fp8/patch_adaptive_k.py:125-147 | after (kMax-1)/alpha fully accepted steps the target is back at the longest length, for every positive margin |
| AdaptiveK.RecoveredChoice | overlay-exl3-fp8/patch_adaptive_k.py:144-147 | and the choice is then the largest entry of the current set that the full length allows |
| AdaptiveK.TakenKeepsSublist | overlay-exl3-fp8/patch_adaptive_k.py:99-118 | a reload, also one that breaks off half way, leaves a non-empty subset of the boot set |
| AdaptiveK.Policy.Reload | overlay-exl3-fp8/patch_adaptive_k.py:87-120 | everything a look at the override file changes, also when it breaks off: configuration, averages, histogram and remembered file time; averages stay in range |
| AdaptiveK.Policy.Observe | overlay-exl3-fp8/patch_adaptive_k.py:122-134 | one observation; averages stay in range for every factor in [0, 1] |
| AdaptiveK.Policy.Count | overlay-exl3-fp8/patch_adaptive_k.py:195-203 | a step adds one to its own length in the histogram, and every so many steps only the averages of live requests are kept |
| AdaptiveK.Policy.BatchK | overlay-exl3-fp8/patch_adaptive_k.py:172-193 | the batch length as AgreedIsLength states it, under the configuration that a due reload leaves, with its captured graph, and the averages and histogram afterwards; averages stay in range |
| AdaptiveK.Policy.Apply | overlay-exl3-fp8/patch_adaptive_k.py:149-170 | drafts are trimmed to the least choice of the batch, or not at all when some request has none, under the configuration that a due reload leaves; the histogram counts that length, the longest draft of a pinned batch, or nothing when the policy is off; averages stay in range |
| WeightAddresses.CopyOfAddress | probes/analyze_exl3_weight_reuse.py:67-71 | decoding an address gives back tile and copy: no two copies share one |
| WeightAddresses.AddressOfCopy | probes/analyze_exl3_weight_reuse.py:67-73 | every address below K*N/32 is the address of a copy |
| WeightAddresses.AddressIs | probes/analyze_exl3_weight_reuse.py:67-71 | the address of each copy by the K tile, its half, the N tile and the position |
| WeightAddresses.SlicesEven | probes/analyze_exl3_weight_reuse.py:64-65 | every block's slice has the quotient of tiles and blocks, or one tile more |
| WeightAddresses.SlicesJoin | probes/analyze_exl3_weight_reuse.py:64-65 | the blocks' slices of tiles join without gap or overlap |
| WeightAddresses.EnumerateWeightCopies | probes/analyze_exl3_weight_reuse.py:51-79 | for every aligned shape and number of blocks each address is counted once, the gap check never fires and no byte is duplicate |
| DecodeScatter.IndicesAt | docker/sparse_attn_indexer_kpool_sm121.py:136-152 | a request's token has the request and its place in it as indices |
| DecodeScatter.IndicesInvert | docker/sparse_attn_indexer_kpool_sm121.py:136-152 | and every index pair names a valid cell that gives back the flat position |
| DecodeScatter.IdsAre | docker/sparse_attn_indexer_kpool_sm121.py:136-152 | the ids name every request as often as it has tokens, in order, and a token's other index counts the earlier tokens of its request |
| DecodeScatter.Scatter | docker/sparse_attn_indexer_kpool_sm121.py:155-179 | valid cells hold their own token and all others the padding |
| DecodeScatter.ScatterUnpack | docker/sparse_attn_indexer_kpool_sm121.py:171-179 | scatter and then dropping padding gives the flat order back |
| DecodeScatter.DecodeTopkSeqLens | docker/sparse_attn_indexer_kpool_sm121.py:182-216 | each row is its own token's position plus one, padding rows are zero |
| DecodeScatter.UniformAgrees | docker/sparse_attn_indexer_kpool_sm121.py:203-216 | on a uniform batch the padded rows are the flat ones |
| ShardRewrite.HeaderReadsBack | probes/repair_redhat_fp8_passthrough.py:103-113 | the encoded header reads back as itself whatever follows, and the data start on an eight-byte boundary |
| ShardRewrite.ReadHeaderIs | probes/repair_redhat_fp8_passthrough.py:103-113 | a header is read exactly from the files that hold its length in eight little-endian bytes and then its text |
| ShardRewrite.EncodedBytes | probes/repair_redhat_fp8_passthrough.py:205-208 | the encoded header on disk: its length, the dumped text, and fewer than eight blanks up to an eight-byte boundary |
| ShardRewrite.CopyRange | probes/repair_redhat_fp8_passthrough.py:186-202 | with any positive buffer the range is copied exactly; it fails exactly when the range passes the end of the file |
| ShardRewrite.BodyAt | probes/repair_redhat_fp8_passthrough.py:330-342 | the data of each tensor are the bytes of its source |
| ShardRewrite.PlanOk | probes/repair_redhat_fp8_passthrough.py:290-309 | the dictionary of sources keeps its keys apart whatever the names are |
| ShardRewrite.PlanIsWanted | probes/repair_redhat_fp8_passthrough.py:290-309 | with fresh scale names each tensor is kept, or replaced by the official weight followed by its scale: none lost, none twice |
| ShardRewrite.NothingLostIffFresh | probes/repair_redhat_fp8_passthrough.py:290-309 | for every header the plan has one entry for each tensor and one for each restored scale if and only if no tensor has the name of a restored scale |
| ShardRewrite.CollisionLoses | probes/repair_redhat_fp8_passthrough.py:290-309 | which side a collision loses, for every header: under the shared name the plan holds what comes later in the shard, so a tensor after the restored weight displaces the official scale and one before it is displaced |
| ShardRewrite.CollidingScaleIsLost | probes/repair_redhat_fp8_passthrough.py:305-309 | the restored weight first and the colliding tensor second: the whole plan is the official weight and the tensor of the shard, without the official scale |
| ShardRewrite.CollidingTensorIsLost | probes/repair_redhat_fp8_passthrough.py:305-309 | the other order: the whole plan is the official scale and the official weight, without the tensor of the shard |
| ShardRewrite.ReadsBack | probes/repair_redhat_fp8_passthrough.py:311-342 | read through its new header every tensor gives exactly its source's bytes; offsets tile the data from the aligned start to the end of the file |
| ShardRewrite.EveryTensorReads | probes/repair_redhat_fp8_passthrough.py:267-345 | end to end with fresh scale names: read by name, every kept tensor is the same in the new shard as in the old one, dtype and shape included, every restored one is that of the official file, and its scale is the official scale |
| ShardRewrite.NothingElse | probes/repair_redhat_fp8_passthrough.py:290-324 | a name that reads from the new shard is a tensor's name or the scale name of a restored one |
| ShardRewrite.BuildShard | probes/repair_redhat_fp8_passthrough.py:267-345 | the rewrite writes that shard, or reports an unreadable header, a tensor that cannot be restored or a short read exactly when there is one |
| ShardRewrite.RestorableIs | probes/repair_redhat_fp8_passthrough.py:281-304 | a tensor can be restored exactly when it is a BF16 weight whose official tensor is E4M3 of its shape, with an official F32 scale, each the tensor of that name in the file the index gives |
| DrafterLayout.StandaloneRejected | overlay-dflash2/patch_glm5_drafter_group.py:312-316 | a geometry that the builder accepts as standalone and detection rejects |
| DrafterLayout.GroupMamba | overlay-dflash2/patch_glm5_drafter_group.py:161-163 | mamba layers are dealt to the groups in turn |
| DrafterLayout.EmitTensors | overlay-dflash2/patch_glm5_drafter_group.py:401-480 | block count and tensors, sizes and owners stated from the geometry alone; nothing is emitted exactly when a drafter with more layers than there are MLA tensors has a page of its own equal to the MLA page |
| DrafterLayout.BuilderTakesFit | overlay-dflash2/patch_glm5_drafter_group.py:183-215 | the drafter gets the block that exactly fills an MLA page, is a multiple of 64 and divides or is a multiple of the MLA block, when there is one and each layer has an MLA tensor, and its own block otherwise |
| DrafterLayout.BytesAgree | overlay-dflash2/patch_glm5_drafter_group.py:360-372 | emitted bytes are the block count times the pool bytes per block, within available memory, and demand is charged at that cost |
| DrafterLayout.EachLayerOwnsOne | overlay-dflash2/patch_glm5_drafter_group.py:438-450 | every layer owns exactly one tensor if and only if the mamba layers fit the groups times the MLA layers |
| DrafterLayout.KernelBlockInPage | overlay-dflash2/patch_glm5_drafter_group.py:197-201 | under exact fit, kernel block j of manager block b lies inside page b, j kernel pages from its start |
| DrafterLayout.KernelSizesDivide | overlay-dflash2/patch_glm5_drafter_group.py:187-190 | the kernels' block sizes divide an exact-fit block |
| DrafterLayout.KernelBlocksDisjoint | overlay-dflash2/patch_glm5_drafter_group.py:197-201 | different kernel blocks never overlap |

## Left out

- KpoolRuns.PoolRightIffUnspoiled: the "only if" direction needs tokens that differ and a pooling that loses nothing; with equal tokens an overwritten slot can hold the right value by chance.
- KpoolRuns.PrefillIsFeed: the seeding of the tail ring is stated as its contract (slot j gets the last chunk token at a position congruent to j), since that kernel is not part of the repository.
- KpoolServing.SharedRun: a mixed step is its prefill batch and then its decode launch; a request is followed from its admission on, over buffers that may hold anything, so a tail block that changes hands begins a new run.
- Tickets.StepKeeps: steps are sequentially consistent; acquire and release orderings, the barrier inside a group and the experts' own work are not modelled.
- KdaProtocol.StepRefines: migration copies the resumed state to the new slots, as the align-mode copy promises; its kernels are not shown.
- DeltaRule.EntryAfterToken: exponential, logarithm, sigmoid and the inverse square root are function parameters, so nothing is said about their values or about floating-point rounding.
- DecodeFirst.ScheduledVolume: the stock scheduler is a function parameter with the stated contract (a throttled call schedules no prefill; else at most the counted prefills, each within the limit).
- DecodeFirst.ValidateProfile: values of the wrong JSON type are one unreadable file, not separate errors; the profile name and logging are not modelled.
- GroupSearch.OptimizeGroups: weights are non-negative second moments, or one; the hardware cast of amax/6 to E4M3 is a function parameter, and the clipped-value count and histogram of code shifts are not modelled.
- Rounding.QuantizeGroups: values are reals, so NaN, infinities and the sign of zero are not modelled, nor the reciprocal approximation of the GPU writer.
- TopK.PriorityReservoir.Add: the random priorities are an argument; array shape errors are not modelled.
- VocabTopK.GetTopKTokens: logits are finite reals apart from masked padding; the head projection and the collective are not modelled.
- AdaptiveK.Policy.BatchK: an empty boot set, on which the source raises, is excluded; the printed histogram is not modelled.
- ShardRewrite.BuildShard: JSON text is a codec parameter whose parser ignores trailing blanks; headers in which a tensor ends before it begins are excluded; locating shards over several roots is the index lookup, and temporary-file handling is not modelled.
- DrafterLayout.BytesAgree: block demand of the other groups and the window bound of the drafter's are arguments, and the drafter's page is its block times its bytes per token.
- ListScheduling.ScheduleModel: the binary heap is its specification, the least pair of time and group.
- DecodeScatter.DecodeTopkSeqLens: the narrowing to 32-bit integers is not modelled.
- Softmax pooling, scale rounding and four-bit packing of one pool are the single function `pool` of the index modules; the logits kernels that read the cache are not modelled.
- The plain cadence scheduler, per-expert byte accounting, calibration fitting and its held-out gates: they would only add easy members.
- Patch plumbing, image builds, benchmarks, metrics and capture driving.
