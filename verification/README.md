# NeMo RL: a verified model of its hard core

This project models, in Dafny, the parts of NeMo RL where a mistake would be silent: the
asynchronous GRPO protocol, the scheduler that shards and packs batches, the index algebra of
tensor and context parallelism, the arithmetic of advantages and losses, and the config
minimiser. It proves properties of the model; nothing of the original program takes part.
`dafny verify dfyconfig.toml` checks all of it.

## What is modelled

**Asynchronous GRPO** (`ReplayBuffer.dfy`, `Collector.dfy`, `AsyncProtocol.dfy`,
`AsyncSafety.dfy`, `AsyncTheorems.dfy`, `AsyncRaces.dfy`). The buffer and the collector are
classes with the original's fields, proved against functions on values. The whole system is a
transition system whose steps are the atomic accesses of the original's threads: the
collection thread reads its version, reads the last generated target, reserves under the lock,
re-reads its version and starts workers; a worker pushes, releases, finishes or fails; the
trainer samples and bumps its version; the new version is delivered to the collector later.
The read of the last generated target and the check under the lock are separate steps, as in
the code.

- `Config.Valid` asks for a positive buffer size (what the buffer's constructor demands) and a
  start version that is not negative. A dataloader batch has exactly `n` prompts. Buffers are
  not cleared.
- Safety holds on *clean* runs: runs in which no worker gives up a reservation while that
  exposes its target to being reserved again. This covers failures and releases at any other
  moment. `RepeatIffExposed` shows that the condition is exact: after any step in any phase
  the collector's next attempt repeats a reservation if and only if the step is not clean.
  `RaceCrashesTrainer` gives a run with a single unclean step that ends with the trainer's
  ValueError.
- The pause for a refit is over-approximated: the collection thread may re-read its version at
  any time while it starts workers.
- `docs/guides/async-grpo.md` (line 113) says that trajectories that are too old are
  discarded. The code raises ValueError; the model follows the code.

**Sharding and microbatches** (`Lists.dfy`, `Sorting.dfy`, `Rows.dfy`, `Sharding.dfy`,
`Microbatches.dfy`, `DynamicBatching.dfy`, `Packing.dfy`, `ModifiedFirstFit.dfy`,
`PackedShards.dfy`, `PackedBatches.dfy`, `BatchedData.dfy`, `DynamicIteration.dfy`,
`PackedIteration.dfy`). A batch is a sequence of rows, since
every column is selected with the same indices; a row has its token ids and its real length.
Python's stable sort is a function proved to be one. The packers are modelled too, with the
adjustment of the bin count, so that the packed results do not rest on an assumed contract.

- The round trip through `reorder_data` holds for sequence packing with any number of chunks.
  For dynamic batching it holds exactly when there is one chunk or one shard
  (`RoundTripIff`).
- The greedy microbatch schedule is optimal not only among contiguous splits but among all ways
  to group the positions of a chunk, because the sort makes the padded lengths ascend.
- Sharding with packing fails exactly when some padded length exceeds the capacity or the
  modified packer meets a zero; the packers' error for too few sequences cannot occur there
  (`ShardWithPacking`).
- The modified packer leaves no two bins that would fit into one, so it shares the bound of
  first-fit: fewer than twice the bins of any packing (`CrowdedWithinTwice`).
- `DynamicIteration.IterateChunk` and `PackedIteration.IterateChunk` follow a chunk from the
  sharding through `get_batch` to the microbatches a worker is handed.

**Tensor and context parallelism** (`ContextParallel.dfy`, `Reals.dfy`, `VocabParallel.dfy`,
`DistributedLogprobs.dfy`, `LogprobGradient.dfy`, `PackedLogprobs.dfy`, `TopK.dfy`). A rank is
an index of a sequence and a collective is a function of what all ranks hold. Numbers are exact
reals; exp and log are parameters, and the few lemmas that use a law of them say so (`ExpLog`,
`NaturalExp`). `torch.topk` is a relation, because it does not say which of several equal
entries it takes.

- What `backward` returns is the slope of the log-probability: the log-probability is concave
  in the logits, and it lies below the plane with that slope everywhere (`GradientIsSlope`,
  which uses exp(x) >= 1 + x). Being smooth, it has no other slope with that property.

**Advantages, sampling, losses, warmup** (`Advantage.dfy`, `DynamicSampling.dfy`,
`PackedLoss.dfy`, `PrefixWarmup.dfy`). Exact arithmetic. The std stands by its square.

- `dynamic_sampling` compares the number of generation batches with `<=`, so the error comes
  with batch `dynamic_sampling_max_gen_batches` + 1 (`Epoch`).
- With leave-one-out the code's divisor leaves an invalid sample out although its reward was
  never counted; `BaselineIsMeanIff` says exactly when the baseline is still a mean.
- In the prefix warmup the cosine is a parameter of which only its fall from 1 to -1 on
  [0, pi] is used (`CosineFalls`).
- The padded loss exceeds the packed one by exactly the masked tokens past the sequences'
  ends (`PaddedIsPackedPlusTails`), hence they agree when the mask is zero there.

**Config minimisation** (`ConfigMinimize.dfy`). Config values are typed trees, and a function
gives what each name in `defaults` expands to.

- Merging the pruned child does what merging the child does if the child is `Safe`: where both
  configs have mappings, no empty list overrides another value and no empty mapping overrides
  something that is not a mapping. That includes the TypeError of `OmegaConf.merge` where a
  mapping meets a list. For a child that merges at all the condition is exact, and two small
  configs show that pruning loses something otherwise.
- With `--base` the child's own `defaults` are dropped, so its old meaning is kept only when
  they load to that base (`MinimizeAgainstRebases`).

## Model

| member | source | states |
|---|---|---|
| ReplayBuffers.ReplayBuffer.PushWithWaitSignal | nemo_rl/algorithms/async_utils.py:55-82 | A push is refused exactly when the buffer is full and then changes nothing; otherwise the group goes last in all three lists and the last generated target is the maximum so far. |
| ReplayBuffers.ReplayBuffer.Create | nemo_rl/algorithms/async_utils.py:43-53 | Creation fails exactly for a size that is not positive; a new buffer is empty with last target -1. |
| ReplayBuffers.ReplayBuffer.Sample | nemo_rl/algorithms/async_utils.py:102-223 | The reply (wait, stale error, average of no versions, batch) and the three lists afterwards are the specified functions of the buffer before. |
| ReplayBuffers.ReplayBuffer.Remove | nemo_rl/algorithms/async_utils.py:211-215 | Popping the chosen positions from the highest down removes exactly those positions from all three lists. |
| ReplayBuffers.SampleIsFifo | nemo_rl/algorithms/async_utils.py:169-190 | A batch is the oldest n groups intended for this step; the other intended groups keep their order and every other group stays. |
| ReplayBuffers.IntendedExactly | nemo_rl/algorithms/async_utils.py:166-177 | The intended groups are, in push order, exactly those generated within the age window and aimed at the step. |
| ReplayBuffers.BatchIsOldestIntended | nemo_rl/algorithms/async_utils.py:190-209 | A batch has n trajectories, the i-th that of the i-th oldest group intended for the step, and the reported age times n is the sum of their ages. |
| ReplayBuffers.ReplyMeans | nemo_rl/algorithms/async_utils.py:133-187 | When each reply is given: the stale error exactly when a group is too old, with their number; a batch exactly when none is and n > 0 groups are intended. |
| ReplayBuffers.SampleConserves | nemo_rl/algorithms/async_utils.py:189-215 | The buffer splits into what is selected and what remains; without a batch nothing is removed. |
| ReplayBuffers.AverageAgeWithinWindow | nemo_rl/algorithms/async_utils.py:197-200 | The reported average age of any batch lies in [0, max_age_steps]. |
| Collectors.NextTargetIsLeast | nemo_rl/algorithms/async_utils.py:323-342 | The target reserved is the least of the window that is neither generated nor marked, and none is reserved exactly when there is no such target. |
| Collectors.AsyncTrajectoryCollector.constructor | nemo_rl/algorithms/async_utils.py:283-292 | The semaphore starts with prompts times age permits, or one when that is zero. |
| Collectors.AsyncTrajectoryCollector.ReserveNextTarget | nemo_rl/algorithms/async_utils.py:327-342 | The loop under the lock returns the first target needing generation and marks exactly that one. |
| Collectors.AsyncTrajectoryCollector.ShouldPauseForGenerationLimits | nemo_rl/algorithms/async_utils.py:355-375 | Collection pauses exactly when no target from the lowest to version + age needs generation. |
| Collectors.AsyncTrajectoryCollector.FinishWorker | nemo_rl/algorithms/async_utils.py:711-726 | The finally clause unmarks the worker's target and returns its permit. |
| AsyncSafety.ReservationIsFresh | nemo_rl/algorithms/async_utils.py:332-340 | In every invariant state the next reservation is above all earlier ones and passes over no target that could still be aimed at. |
| AsyncSafety.SampleTakesExactlyTheStep | nemo_rl/algorithms/async_utils.py:169-215 | In every invariant state a batch is all groups ever pushed for the trainer's version, and the buffer keeps those of later targets. |
| AsyncSafety.StepKeepsInv | nemo_rl/algorithms/async_utils.py:451-496 | Every clean step of any thread keeps the invariant linking reservations, workers, buffer, collector and trainer. |
| AsyncSafety.ReachableInv | nemo_rl/algorithms/grpo.py:2095-2137 | The invariant holds in every state of every clean run. |
| AsyncTheorems.NoStaleTrajectory | nemo_rl/algorithms/async_utils.py:133-165 | No buffered or unpushed group is older than the window or aimed below the trainer's version; sampling never raises, its age filter removes nothing, a batch has n groups of this step and an age within the window. |
| AsyncTheorems.NoTargetReservedTwice | nemo_rl/algorithms/async_utils.py:323-342 | Reservations strictly increase over any clean run, and at most n groups per target are ever pushed. |
| AsyncTheorems.OutstandingBound | nemo_rl/algorithms/grpo.py:1942-1949 | Buffered groups and groups still being generated number at most n * (age + 1). |
| AsyncTheorems.BufferNeverFull | nemo_rl/algorithms/grpo.py:1945-1949 | The buffer stays within n * (age + 1) <= n * age * 2, so no push reports full, and workers stay within the permits. |
| AsyncTheorems.EveryGroupTrainedOnce | nemo_rl/algorithms/grpo.py:2099-2139 | Step v trains on exactly the n groups pushed for v in push order; every pushed group has been trained on once or is buffered. |
| AsyncTheorems.StepTrainsOnItsPushes | nemo_rl/algorithms/grpo.py:2099-2139 | In every state of a clean run a batch given to the trainer is the trajectories pushed for its version, one each, in push order. |
| AsyncTheorems.WithTargetExactly | nemo_rl/algorithms/async_utils.py:173-177 | The groups pushed for a version are exactly those aimed at it, in push order. |
| AsyncRaces.RepeatIffExposed | nemo_rl/algorithms/async_utils.py:327-338 | From any safe state, after any step of any thread in any phase, the collector's next attempt repeats a reservation if and only if the step gave up an exposed target. |
| AsyncRaces.SpawnIsNeutral | nemo_rl/algorithms/async_utils.py:451-496 | Starting a worker makes no difference to what the next attempt reserves. |
| AsyncRaces.RaceCrashesTrainer | nemo_rl/algorithms/async_utils.py:328-332 | A concrete run with one release between the unlocked read and the check, clean otherwise, ends in the sampler's error. |
| AsyncRaces.SkippedTargetStallsForever | nemo_rl/algorithms/async_utils.py:179-187 | Once the collector's window has passed an unreserved target, no continuation, clean or not, ever lets the trainer past that version. |
| AsyncRaces.StallIsReachable | nemo_rl/algorithms/async_utils.py:312-321 | Such a state is reached by a clean run. |
| AsyncRaces.TimelyRunsSkipNothing | nemo_rl/algorithms/async_utils.py:344-353 | If the version after next is reserved before each delivery, no target is ever passed over. |
| AsyncRaces.DeliverySkipsIff | nemo_rl/algorithms/async_utils.py:312-353 | Between reservations, telling the collector of the next version passes a target over if and only if that version has not been reserved. |
| Sorting.SortedRangeIsStableSort | nemo_rl/distributed/batched_data_dict.py:402-405 | The index sort is a permutation, ascending by key with ties by index. |
| Sorting.SortInvertsPermutation | nemo_rl/distributed/batched_data_dict.py:252-254 | Sorting a permutation by its values yields its inverse. |
| Sharding.ComputeOrder | nemo_rl/distributed/batched_data_dict.py:395-413 | The loop over chunks builds the specified order: sort each chunk, deal it out in strides, concatenate. |
| Sharding.BuildShards | nemo_rl/distributed/batched_data_dict.py:541-586 | The nested loops give shard i its block of every chunk in chunk order; blocks are cut at the end of the data. |
| Sharding.OrderIsPermutation | nemo_rl/distributed/batched_data_dict.py:395-413 | The indices returned by dynamic batching are a permutation of the batch. |
| Sharding.ReorderUndoesSelect | nemo_rl/distributed/batched_data_dict.py:237-265 | Reordering by any permutation undoes selection by it. |
| Sharding.OneChunkConcatenates | nemo_rl/distributed/batched_data_dict.py:538-586 | Without chunking the shards laid end to end are the batch, also when the last ones are smaller. |
| Sharding.UnevenCovers | nemo_rl/distributed/batched_data_dict.py:383-388 | The shard size rounded up always covers the batch. |
| DynamicBatching.OneChunkRoundTrip | nemo_rl/distributed/batched_data_dict.py:237-265 | With one chunk, concatenating the shards and reordering gives back the batch. |
| DynamicBatching.RoundTripIff | nemo_rl/distributed/batched_data_dict.py:393-586 | For distinct rows the round trip restores the batch if and only if there is one chunk or one shard. |
| DynamicBatching.DealtIndices | nemo_rl/distributed/batched_data_dict.py:406-411 | Shard i gets of a chunk exactly the sorted indices i, i + shards, i + 2 * shards, ... |
| DynamicBatching.ShardsAreBalanced | nemo_rl/distributed/batched_data_dict.py:402-413 | Two shards' total lengths in a chunk differ by at most the chunk's longest less its shortest row. |
| DynamicBatching.PositionsAscend | nemo_rl/distributed/batched_data_dict.py:606-630 | The padded per-position maxima over the shards never decrease within a chunk. |
| DynamicBatching.ShardDynamically | nemo_rl/distributed/batched_data_dict.py:357-662 | Bad sizes and over-long rows are reported exactly when they occur; otherwise shards, order and one greedy plan per chunk are as specified. |
| DynamicBatching.PlanChunks | nemo_rl/distributed/batched_data_dict.py:593-662 | The chunk loop plans every chunk or stops at the first with a row longer than a microbatch. |
| DynamicBatching.PlansAreOptimal | nemo_rl/distributed/batched_data_dict.py:597-658 | A chunk's microbatches tile its positions, their lengths never decrease, and no grouping of the positions, contiguous or not, uses fewer. |
| DynamicBatching.TruncationKeepsRows | nemo_rl/distributed/batched_data_dict.py:753-776 | A planned length fits the tensor and is at least the length, clipped to the tensor, of every row at its positions on any shard. |
| DynamicBatching.PlannedLength | nemo_rl/distributed/batched_data_dict.py:606-630 | The length planned for a microbatch is the least multiple of the rounding not below its longest row on any shard, which some row attains, or the tensor width if that is less. |
| DynamicIteration.IterateChunk | nemo_rl/distributed/batched_data_dict.py:667-776 | A worker that takes global batch c of its shard and iterates always succeeds, stays within the token cap, and gets every row dealt to the shard from that chunk once, in order, with all its real tokens. |
| Microbatches.PlanChunk | nemo_rl/distributed/batched_data_dict.py:597-658 | The loop yields a greedy schedule with each microbatch's padded length, or the error exactly when a row is longer than the cap. |
| Microbatches.PositionMeans | nemo_rl/distributed/batched_data_dict.py:601-630 | The length of a position is the least multiple of the rounding not below its longest row over the shards, or the tensor width if that is less. |
| Microbatches.GreedyStaysAhead | nemo_rl/distributed/batched_data_dict.py:630-658 | After any number of microbatches the greedy schedule is at least as far as any other. |
| Microbatches.GreedyIsOptimal | nemo_rl/distributed/batched_data_dict.py:630-658 | No contiguous schedule within the cap has fewer microbatches. |
| Microbatches.GreedyBeatsEveryGrouping | nemo_rl/distributed/batched_data_dict.py:597-658 | On ascending lengths no grouping at all has fewer. |
| Packing.FirstFit | nemo_rl/data/packing/algorithms.py:378-416 | Over any order: an error exactly for an over-long sequence, otherwise a packing of all of them, each put into the first bin with room at its turn. |
| Packing.FirstFitPacks | nemo_rl/data/packing/algorithms.py:378-416 | First-fit packs every sequence once, no bin empty or over capacity, and no sequence fits into a bin before its own. |
| Packing.FirstFitWithinTwice | nemo_rl/data/packing/algorithms.py:353-416 | First-fit uses fewer than twice the bins of any other packing. |
| Packing.CrowdedWithinTwice | nemo_rl/data/packing/algorithms.py:353-627 | Bins of which any two exceed the capacity together, as first-fit and the modified packer make them, are fewer than twice those of any other packing. |
| Packing.Concatenative | nemo_rl/data/packing/algorithms.py:310-350 | A packing whose bins laid end to end are the sequences in order, where a bin is closed only if it has as many as allowed or the next one does not fit, and none has more than allowed. |
| Packing.AdjustBinCount | nemo_rl/data/packing/algorithms.py:90-166 | Fails exactly when there are fewer sequences than bins needed; otherwise a packing with exactly the target count in which every old bin keeps a front part, new bins have one sequence, and a bin gives only after all fuller ones are down to one; the loop's own error is unreachable. |
| Packing.TargetWithin | nemo_rl/data/packing/algorithms.py:107-126 | When the sequences are a positive multiple of the shards the target count never exceeds their number, so the error for too few sequences cannot occur. |
| ModifiedFirstFit.ModifiedFirstFitDecreasing | nemo_rl/data/packing/algorithms.py:529-627 | Errors exactly for sizes that are not positive or too long; otherwise the five phases lose no sequence, keep every bin within capacity, and any two bins exceed it together. |
| ModifiedFirstFit.AddPair | nemo_rl/data/packing/algorithms.py:568-590 | A bin with a medium item or no room for the two smallest small ones is passed over; otherwise it gets the smallest and the largest that fits with it, and the pair is never dropped. |
| ModifiedFirstFit.AddMedium | nemo_rl/data/packing/algorithms.py:559-566 | Every bin gets the largest medium item left that fits, or none exactly when none fits. |
| ModifiedFirstFit.FillBin | nemo_rl/data/packing/algorithms.py:595-611 | A bin is filled with the largest item left that fits, each time, until none of the items left fits. |
| ModifiedFirstFit.SortedBySizeIsSorted | nemo_rl/data/packing/algorithms.py:554-557 | The classes and leftovers are sorted by size, ascending or descending. |
| PackedShards.DealBins | nemo_rl/distributed/batched_data_dict.py:473-514 | Each shard's part of a chunk is every shards-th bin with offsets end to end and padded token counts. |
| PackedShards.LengthIsSumOfMultiples | nemo_rl/distributed/batched_data_dict.py:444-514 | Every reported microbatch length is the sum, over the rows of its bin, of the least multiples of the padding not below their lengths. |
| PackedShards.ShardPacked | nemo_rl/distributed/batched_data_dict.py:464-533 | Every shard holds the rows of its bins chunk by chunk, with its intervals, token counts and element counts; the order is the shards' indices concatenated. |
| PackedShards.BatchIsItsBins | nemo_rl/distributed/batched_data_dict.py:677-690 | get_batch followed by the packable iterator yields exactly the chunk's bins s, s + shards, ... in order. |
| PackedBatches.PackChunk | nemo_rl/distributed/batched_data_dict.py:415-462 | The two input errors occur exactly when a length is too long or, for the modified packer, not positive; otherwise the bins are those of the chosen algorithm, adjusted to a positive multiple of the shards, which always succeeds when the sequences are one. |
| PackedBatches.DescendingOrder | nemo_rl/data/packing/algorithms.py:438-444 | First-fit-decreasing takes longer sequences first, equal ones by descending index. |
| PackedBatches.OrderIsPermutation | nemo_rl/distributed/batched_data_dict.py:473-521 | The returned indices are a permutation for any number of chunks. |
| PackedBatches.PackedRoundTrip | nemo_rl/distributed/batched_data_dict.py:516-533 | Concatenated shards reordered by the returned indices are the batch, for any number of chunks. |
| PackedBatches.ShardsInStep | nemo_rl/distributed/batched_data_dict.py:503-514 | All shards have the same positive number of microbatches in a chunk, none over capacity. |
| PackedBatches.ShardWithPacking | nemo_rl/distributed/batched_data_dict.py:357-533 | End to end: bad sizes exactly, packing fails if and only if a padded length exceeds the capacity or the modified packer meets a zero, with the error of the first such chunk; otherwise shards as specified that reorder to the batch. |
| PackedBatches.TooLongMeans | nemo_rl/distributed/batched_data_dict.py:444-445 | What fails to pack is exactly a row whose least multiple of the padding exceeds the capacity. |
| PackedIteration.IterateChunk | nemo_rl/distributed/batched_data_dict.py:667-796 | A worker that takes global batch b of shard s and iterates always succeeds and gets, in order, exactly the rows of the chunk's bins s, s + shards, ... |
| BatchedData.BatchedDataDict.ReorderData | nemo_rl/distributed/batched_data_dict.py:237-265 | Reorders in place; selecting the new rows by a permutation of indices gives the old rows. |
| BatchedData.BatchedDataDict.GetBatch | nemo_rl/distributed/batched_data_dict.py:667-699 | The rows, microbatch lists and element count of one global batch, from the running element counts or the batch size; the exact error cases. |
| BatchedData.BatchedDataDict.SliceRows | nemo_rl/distributed/batched_data_dict.py:701-722 | Fails exactly when the end lies past the tensors; otherwise a new batch with those rows and no microbatch lists. |
| BatchedData.BatchedDataDict.TruncateTensors | nemo_rl/distributed/batched_data_dict.py:747-751 | Narrows every row's tokens in place, or fails and changes nothing when they are shorter. |
| BatchedData.BatchedDataDict.DynamicMicrobatches | nemo_rl/distributed/batched_data_dict.py:753-776 | Microbatch j is its interval of rows, cut to its own length, as far as both lists go; the exact failure condition, missing lists included. |
| BatchedData.BatchedDataDict.PackableMicrobatches | nemo_rl/distributed/batched_data_dict.py:782-796 | Microbatch j is its interval of rows unchanged, as far as both lists go; the exact failure condition, missing lists included. |
| BatchedData.TilesCoverRows | nemo_rl/distributed/batched_data_dict.py:770-776 | Microbatches that tile a batch hand out every row once and in order. |
| BatchedData.ReorderThenSelect | nemo_rl/distributed/batched_data_dict.py:252-265 | Selecting with a permutation undoes reordering by it. |
| ContextParallel.TokensOnThisRank | nemo_rl/distributed/model_utils.py:669-703 | The loop picks the rank's block and its mirror. |
| ContextParallel.TokensAt | nemo_rl/distributed/model_utils.py:687-703 | For any length, entry by entry: which position of the sequence each entry of a rank is; what is left over past 2 * cp equal blocks no rank holds. |
| ContextParallel.AllGather | nemo_rl/distributed/model_utils.py:714-744 | Halving, numbering and sorting the ranks' tensors is the specified gather. |
| ContextParallel.ZigzagIsPermutation | nemo_rl/distributed/model_utils.py:730-733 | Each of the 2 * cp chunk numbers is delivered once. |
| ContextParallel.ShardUndoesGather | nemo_rl/distributed/model_utils.py:687-744 | Sharding what was gathered gives every rank its part back. |
| ContextParallel.GatherUndoesShard | nemo_rl/distributed/model_utils.py:687-744 | Gathering what was sharded gives the sequence back, for every cp and every length divisible by 2 * cp. |
| ContextParallel.GatherBackward | nemo_rl/distributed/model_utils.py:746-775 | Each entry of a rank's gradient is the sum over all ranks of the incoming gradients at the sequence position the rank holds there. |
| ContextParallel.ReducedEntry | nemo_rl/distributed/model_utils.py:749 | Every entry of the reduced gradient is the sum of that entry over the ranks. |
| ContextParallel.GatherBackwardIsAdjoint | nemo_rl/distributed/model_utils.py:714-775 | The inner products of the gathered tensor with all ranks' gradients add up to the inner products of the ranks' tensors with the gradients they get back. |
| VocabParallel.RankLogSoftmaxIsSlice | nemo_rl/distributed/model_utils.py:22-56 | Each rank's log-softmax is its slice of the full one. |
| Reals.AmaxIsMax | nemo_rl/distributed/model_utils.py:38 | The maximum a rank takes is one of its logits, and none is larger. |
| VocabParallel.GlobalMaxIsMax | nemo_rl/distributed/model_utils.py:38-43 | The reduced maximum of the ranks' maxima is the maximum of the undivided logits. |
| VocabParallel.MaskedGathersSum | nemo_rl/distributed/model_utils.py:76-92 | Masked gathers summed over ranks whose intervals partition the vocabulary give the full log-softmax at the target, and 0 outside it. |
| VocabParallel.StableFormIsLogSoftmax | nemo_rl/distributed/model_utils.py:37-56 | Subtracting the maximum changes nothing: the result is z - log(sum(exp(z))). |
| VocabParallel.ProbabilitiesSumToOne | nemo_rl/distributed/model_utils.py:83-84 | The softmax over the whole vocabulary sums to one. |
| DistributedLogprobs.RankForward | nemo_rl/distributed/model_utils.py:76-87 | One rank's masked, gathered and zeroed log-probabilities. |
| DistributedLogprobs.Forward | nemo_rl/distributed/model_utils.py:66-98 | After the all_reduce every position holds the unsharded log-probability of its target. |
| DistributedLogprobs.ChunkedForward | nemo_rl/distributed/model_utils.py:155-207 | Any chunk size gives the same values; only an empty sequence fails. |
| DistributedLogprobs.OneHotGradient | nemo_rl/distributed/model_utils.py:131-137 | The in-place one-hot branch computes (chosen - softmax) * grad. |
| DistributedLogprobs.ScatterGradient | nemo_rl/distributed/model_utils.py:108-130 | The flat in-place scatter_add equals the one-hot gradient of every position laid end to end. |
| DistributedLogprobs.ChunkedGradient | nemo_rl/distributed/model_utils.py:209-252 | Recomputing the softmax chunk by chunk gives the same gradient. |
| DistributedLogprobs.GradientSumsToZero | nemo_rl/distributed/model_utils.py:101-137 | Over all ranks the gradient entries of a position sum to zero for a target in the vocabulary. |
| LogprobGradient.RankGradsAreFullGrad | nemo_rl/distributed/model_utils.py:101-137 | The ranks' gradients laid end to end are the gradient over the undivided vocabulary. |
| LogprobGradient.GradientIsSlope | nemo_rl/distributed/model_utils.py:66-137 | For any two vectors of logits the log-probability lies below the plane through its value at one of them with the gradient as slope, for either sign of the incoming gradient. |
| LogprobGradient.ShardedGradientIsSlope | nemo_rl/distributed/model_utils.py:66-137 | The same for what the ranks reduce forwards and return backwards, for every split of the vocabulary. |
| PackedLogprobs.RollTargets | nemo_rl/distributed/model_utils.py:589-603 | The slice assignments build exactly this rank's part of every sequence's shifted targets. |
| PackedLogprobs.RankHoldsItsPart | nemo_rl/distributed/model_utils.py:605-630 | A rank's log-probabilities are its part of the unsharded ones of every sequence. |
| PackedLogprobs.GatherSequences | nemo_rl/distributed/model_utils.py:642-650 | The per-sequence gathers written into one tensor are the unsharded log-probabilities. |
| PackedLogprobs.PackedSequenceLogprobs | nemo_rl/distributed/model_utils.py:544-666 | For every cp and with or without chunking, row i is the unsharded log-probabilities of sequence i without the last position, cut or zero-padded. |
| PackedLogprobs.UnpackedMeaning | nemo_rl/distributed/model_utils.py:652-666 | Entry j of row i is the log-probability at packed position start + j of the token after it, for all but the last position, and 0 elsewhere. |
| PackedLogprobs.RowLogprobs | nemo_rl/distributed/model_utils.py:469-541 | For unpacked rows entry j is the log-probability of token j + 1, whatever the padding, cp and chunk size; only chunking an empty row fails. |
| TopK.MergedTopK | nemo_rl/distributed/model_utils.py:859-883 | A top-k of the ranks' own top-min(k, V_local) entries is a top-k of the whole vocabulary, however ties are broken. |
| TopK.EnoughCandidates | nemo_rl/distributed/model_utils.py:850-878 | There are always at least min(k, V_total) candidates to choose from. |
| TopK.TopKOverVocabulary | nemo_rl/distributed/model_utils.py:828-896 | Every position gets min(k, V_total) distinct global indices, their values descending, nothing larger left out; only an empty sequence fails. |
| Advantage.BaselineAndStdPerPrompt | nemo_rl/algorithms/utils.py:79-156 | Filling baseline and squared std prompt by prompt in place gives every sample the values of its own group. |
| Advantage.SampleGetsMeanAndVariance | nemo_rl/algorithms/utils.py:121-154 | For a valid sample of a group with more than one the baseline is the mean of the rewards used, and the squared std times their number less one is the sum of the squared distances from it, or 0 for a single one. |
| Advantage.BaselineIsMeanIff | nemo_rl/algorithms/utils.py:121-140 | The baseline is the mean of the rewards used if and only if the sample is valid, no sample is left out, or those rewards add up to zero. |
| Advantage.UsedExactly | nemo_rl/algorithms/utils.py:105-134 | The rewards used are those of the group's valid samples, without the sample itself under leave-one-out, once each. |
| Advantage.LoneSampleKeepsReward | nemo_rl/algorithms/utils.py:117-120 | With at most one valid sample in the group the baseline is the reward itself and the std zero. |
| Advantage.AdvantagesSumToZero | nemo_rl/algorithms/utils.py:110-140 | The advantages of the valid samples of a prompt sum to zero, with and without leave-one-out, for every mask. |
| Advantage.SpreadIsSampleVariance | nemo_rl/algorithms/utils.py:146-152 | The value under the square root is the unbiased sample variance of the rewards used. |
| Advantage.VarianceZeroIffEqual | nemo_rl/algorithms/utils.py:141-154 | For a valid sample it is never negative and is zero exactly when all rewards its baseline uses are equal. |
| DynamicSampling.FilterBatch | nemo_rl/algorithms/grpo.py:746-820 | Completion, continuation or error as the kept rows demand; the cache becomes the old one with the non-zero-std rows appended and, in its total_reward column, all rewards of a batch that keeps any. |
| DynamicSampling.Epoch | nemo_rl/algorithms/grpo.py:1066-1267 | Each step trains on the first required rows of a minimal run of batches, the cache restarting after it; the exact conditions of both errors. |
| DynamicSampling.StepIsDetermined | nemo_rl/algorithms/grpo.py:1149-1267 | Where a step ends and what it trains on is determined by the data. |
| DynamicSampling.KeptExactly | nemo_rl/algorithms/grpo.py:749-757 | The kept rows are, in order, exactly the rows of the batch with a non-zero std. |
| DynamicSampling.StepRows | nemo_rl/algorithms/grpo.py:750-814 | A step trains on the first required rows of its batches with a non-zero std, in order; a row is left out exactly when its std is zero or the step was full before it. |
| PackedLoss.WrappedLoss | nemo_rl/algorithms/loss_functions.py:891-963 | The accumulated loss times the normaliser is the negated total, over all sequences and positions with a next token of their own, of that token's log-probability at the position times its mask; the token and sample counts are the totals of the masks. |
| PackedLoss.PaddedLossMeans | nemo_rl/algorithms/loss_functions.py:498-556 | The loss of the padded batch times the normaliser is the negated total of the masked log-probabilities of the next tokens, over all rows and positions that have one. |
| PackedLoss.MaskCountMeans | nemo_rl/algorithms/loss_functions.py:500-556 | The reported number of unmasked tokens is the total of the masks of the next tokens. |
| PackedLoss.PaddedIsPackedPlusTails | nemo_rl/algorithms/loss_functions.py:891-963 | In general the padded loss is the packed loss and the masked tokens past the sequences' ends. |
| PackedLoss.PackedIsPadded | nemo_rl/algorithms/loss_functions.py:480-556 | Packed and padded losses agree when the mask is zero past each length, also for empty sequences. |
| PackedLoss.SameTokenCount | nemo_rl/algorithms/loss_functions.py:941-961 | With such a mask the accumulated number of unmasked tokens is that of the padded batch. |
| PrefixWarmup.RatioOfMode | nemo_rl/algorithms/distillation.py:152-166 | Off is 1; fixed is its ratio brought into [0, 1]; stepwise is that of the first entry reaching the share of steps done, or the last; an empty schedule and an unknown mode fail. |
| PrefixWarmup.CoversOnce | nemo_rl/algorithms/distillation.py:161-166 | One entry only covers a step. |
| PrefixWarmup.CosineEndpoints | nemo_rl/algorithms/distillation.py:167-183 | The cosine mode starts at its start ratio and is at full length once its share of the training is over, or from the start without a share. |
| PrefixWarmup.CosineBetween | nemo_rl/algorithms/distillation.py:175-183 | In between it is the start plus the rest times half of one minus the cosine of the angle that goes with the share done. |
| PrefixWarmup.RatioGrows | nemo_rl/algorithms/distillation.py:134-184 | The ratio stays in [0, 1] and never falls over training, in the cosine mode and for a schedule of ascending ratios too. |
| PrefixWarmup.KeepsFirstTokens | nemo_rl/algorithms/distillation.py:205-220 | A row keeps exactly ceil(n * num / 10^6) of its n response tokens, num / 10^6 being nearest to the ratio with ties to even, and they are the first. |
| PrefixWarmup.LargerRatioKeepsMore | nemo_rl/algorithms/distillation.py:187-220 | A larger ratio keeps every token a smaller one keeps, half-even rounding included. |
| PrefixWarmup.KeepsAtLeastOne | nemo_rl/algorithms/distillation.py:205-220 | Some token is kept exactly when the ratio rounds to at least a millionth. |
| PrefixWarmup.MaskGrowsOverTraining | nemo_rl/algorithms/distillation.py:134-220 | Over training the kept tokens of every row of a batch are only ever added to, and the reported count of kept tokens never falls. |
| ConfigMinimize.MergeReads | tools/config_cli.py:120-123 | The merged config has a value at a path exactly when the child has it, or the base has it and the child says nothing there. |
| ConfigMinimize.MergeFailsIff | tools/config_cli.py:120-123 | A merge fails exactly when at some path a mapping meets a list. |
| ConfigMinimize.ExpandReads | tools/config_cli.py:84-125 | A loaded config has a value at a path exactly when its own file sets it, or the file says nothing there and the last parent that says anything sets it. |
| ConfigMinimize.MinimisationKeepsMeaning | tools/config_cli.py:210-246 | Merging the pruned child onto the expanded base gives what merging the child gives, the TypeError included, if the child is safe, and for a child that merges only if it is; also when the base has parents. |
| ConfigMinimize.PrunedMerges | tools/config_cli.py:210-246 | Pruning never makes a merge fail. |
| ConfigMinimize.SafeMerges | tools/config_cli.py:210-246 | Pruning a safe child never makes a failing merge succeed. |
| ConfigMinimize.EmptyListIsLost | tools/config_cli.py:226-232 | A child that empties a list loses that when minimised. |
| ConfigMinimize.EmptyMappingIsLost | tools/config_cli.py:226-232 | A child that replaces a scalar by an empty mapping loses that when minimised. |
| ConfigMinimize.PruneIdempotent | tools/config_cli.py:210-246 | Pruning again changes nothing. |
| ConfigMinimize.PrunedIsMinimal | tools/config_cli.py:210-246 | No entry of the result can be left out at any depth without changing the merge. |
| ConfigMinimize.MinimizesIffOneName | tools/config_cli.py:299-323 | Without an explicit base the command works exactly when `defaults` is a single name; it keeps that name and writes no key the child does not have. |
| ConfigMinimize.MinimizeInferredKeepsMeaning | tools/config_cli.py:326-365 | The minimised file expands to what the original expands to, or fails like it, if the child is safe against its expanded base, and for a child that loads only if it is. |
| ConfigMinimize.MinimizeAgainstRebases | tools/config_cli.py:326-371 | With an explicit base the result expands to the child's own entries on top of that base if the child is safe, and where those merge only if it is. |

## Left out

- Ray actors, remote calls, real threads, sleeps, backoff and logging: a run is any interleaving of atomic steps.
- Liveness of the asynchronous loop beyond `SkippedTargetStallsForever` and `TimelyRunsSkipNothing`; fairness of the scheduler is not modelled.
- The trainer's check of the sampled batch's size against prompts times generations (nemo_rl/algorithms/grpo.py:2164): a group stands for all generations of its prompt.
- Multimodal `PackedTensor` columns and columns that are plain lists: they are selected with the same indices as the tensors.
- `allow_uneven_shards` together with dynamic batching or packing, whose behaviour the original does not define; negative sizes.
- `repeat_interleave`, `from_batches` padding, fixed-size microbatches: easy members.
- `gather_logits_at_global_indices`, `ChunkedDistributedGatherLogprob` and the distributed entropy: the same masked gathers, zigzag and chunk loops as the modelled functions.
- Floating-point rounding, dtypes and devices; nan from a negative value under the square root; laws of exp and log beyond `ExpLog` and `NaturalExp`, and of the cosine beyond `CosineFalls`.
- BaselineAndStdPerPrompt: gives the squared std and stands for nan_to_num only where 0 * inf arises, because the square root and infinities are outside exact arithmetic.
- WrappedLoss: takes the log-probability of a token as a function and one context-parallel rank; several ranks are the subject of `PackedLogprobs`. Min and max metrics of other losses are not accumulated.
- Policy-gradient, preference and distillation losses, KL estimators.
- YAML, OmegaConf interpolation, missing values and typed nodes, path resolution, and Python's `True == 1`; of the errors of `OmegaConf.merge` only that of a mapping against a list.
- Policies, rollouts, vLLM, checkpoints, tokenisers, command-line plumbing.
