# Verified models of the KV cache, the prefix cache and the GPTQ quantizer

A Dafny 4.11 project that models three parts of an LLM inference engine written in Rust and proves what they
are for. `dafny verify dfyconfig.toml` checks everything.

**The paged KV cache** (`crates/rllm-cache`, and slot addressing in `crates/rllm-kernels/src/cache_ops.rs`).
`FreeBlockQueue` threads a doubly linked free list through an array of blocks; `BlockPool` adds reference
counts, a hash index and an active counter; `KVCacheManager` adds one block table, computed-token count and
hash list per request. Each class is proved to refine a mathematical value (`PoolModel.Pool`,
`ManagerModel.Manager`) through an abstraction function `Abs()`, and the theorems are about those values:
one invariant `ManagerInvariant.Inv` is kept by every call, so it holds after any run, and from it follow
conservation of references, exact all-or-nothing allocation, sharing stability, write isolation and, with the
contents of the physical slots added to the state, soundness of prefix hits and exactly when they are complete.

**The CPU offload store** (`crates/rllm-cache/src/offload.rs`) is a slot allocator over a flat byte buffer, proved
to refine a bounded map.

**The GPTQ quantizer** (`crates/rllm-model/src/gptq.rs`) with its decoder (`dequantize_gptq_impl` in
`crates/rllm-model/src/layers.rs`): Hessian accumulation, damping, Cholesky factorisation, inversion by
substitution, error-compensated column quantization under a permutation, nibble packing. Over the reals it is
proved that a well-formed request never fails, that the decoder recovers exactly what the quantizer committed, that
the compensated row is at every step the unique minimiser of the objective, and what the final objective is.

| file | content |
|---|---|
| `Wrappers`, `Sequences`, `Grids`, `CacheTypes` | result types, duplicate-free sequences, row-major tables, identifiers |
| `FreeBlockQueue`, `BlockPool`, `KVCacheManager` | the mutable classes |
| `PoolModel`, `PoolProperties` | the pool as a value, and what each operation promises |
| `ManagerModel`, `ManagerInvariant`, `ManagerTheorems`, `ManagerContracts`, `ManagerRuns` | the manager as a value, its invariant, exact statements about single calls, what each call does told by states alone, runs |
| `HashEncoding`, `Prefix` | hash input bytes, chained hashes, prefix search |
| `Slots`, `WriteIsolation`, `Ownership`, `SharingStability`, `ContentSoundness`, `ContentCompleteness` | theorems over whole runs |
| `CacheExamples` | concrete runs that show what is not promised |
| `BoundedMap`, `OffloadStore` | the offload store and its specification |
| `RealSums`, `Matrices`, `Cholesky`, `SpdInverse`, `Compensation` | linear algebra over functions of indices, and the two factorisation routines |
| `GptqHessian`, `GptqOrder`, `GptqQuantizer`, `GptqPacking`, `GptqFactor`, `GptqRow`, `GptqLayerRow`, `GptqDecoder`, `Gptq`, `GptqLoss` | the quantizer and the decoder, bottom up |

## Model

| member | source | states |
|---|---|---|
| `FreeQueue.FreeBlockQueue.constructor` | crates/rllm-cache/src/block_pool.rs:38-40 | a new queue is the empty list |
| `FreeQueue.FreeBlockQueue.PushFront` | crates/rllm-cache/src/block_pool.rs:53-65 | the links spell the old list with idx in front; nothing but links changes |
| `FreeQueue.FreeBlockQueue.PushBack` | crates/rllm-cache/src/block_pool.rs:68-80 | the links spell the old list with idx behind; nothing but links changes |
| `FreeQueue.FreeBlockQueue.Remove` | crates/rllm-cache/src/block_pool.rs:103-121 | the links spell the old list without idx, wherever it was; head, tail and length follow |
| `FreeQueue.FreeBlockQueue.LinkTest` | crates/rllm-cache/src/block_pool.rs:310-345 | "has a link or is the head" holds exactly of the blocks on the list |
| `BlockPools.BlockPool.constructor` | crates/rllm-cache/src/block_pool.rs:144-176 | a new pool is valid, of at least one block: all but the null block are free, in ascending order, without references or labels |
| `BlockPools.BlockPool.PopUncached` | crates/rllm-cache/src/block_pool.rs:211-223 | the walk from the head terminates and unlinks the first block without a hash, or nothing |
| `BlockPools.BlockPool.EvictLru` | crates/rllm-cache/src/block_pool.rs:226-241 | the walk from the tail terminates, unlinks the last block with a hash and drops its label and index entry |
| `BlockPools.BlockPool.Allocate` | crates/rllm-cache/src/block_pool.rs:198-208 | stays valid; fails iff nothing is free; the victim of the eviction policy gains its only reference and loses label and index entry, nothing else moves |
| `BlockPools.BlockPool.Free` | crates/rllm-cache/src/block_pool.rs:247-261 | stays valid; null and free blocks are ignored; one reference fewer, and the last returns a block, still labelled and indexed, to the head |
| `BlockPools.BlockPool.Incref` | crates/rllm-cache/src/block_pool.rs:264-270 | stays valid; one more reference on an active block, nothing on others |
| `BlockPools.BlockPool.IsShared` | crates/rllm-cache/src/block_pool.rs:276-283 | true exactly for an existing block other than the null block with more than one reference |
| `BlockPools.BlockPool.CopyOnWrite` | crates/rllm-cache/src/block_pool.rs:292-302 | stays valid; an unshared block comes back as it is; a shared one is swapped for a victim and loses one reference, or, with nothing free, nothing changes |
| `BlockPools.BlockPool.Touch` | crates/rllm-cache/src/block_pool.rs:307-320 | stays valid; a free labelled block moves to the head, others stay |
| `BlockPools.BlockPool.GetCachedBlock` | crates/rllm-cache/src/block_pool.rs:325-348 | stays valid; the first block filed under the hash gains a reference and, if it was free, leaves the list; no label or index entry changes |
| `BlockPools.BlockPool.CacheBlock` | crates/rllm-cache/src/block_pool.rs:353-361 | an active block gets the label and is filed last under the hash, a free one is ignored; the index still agrees with the labels exactly when an active block is not re-labelled |
| `BlockPools.BlockPool.ResetPrefixCache` | crates/rllm-cache/src/block_pool.rs:367-385 | stays valid; refuses, unchanged, iff a labelled block is in use; else clears every label and the index and leaves counts and free list |
| `BlockPools.BlockPool.Usage` | crates/rllm-cache/src/block_pool.rs:388-395 | the counter reported is the number of blocks with references, and active + free is the total |
| `PoolModel.ActiveCount` | crates/rllm-cache/src/block_pool.rs:124-141 | the active counter counts the referenced blocks; active + free + the null block is all blocks |
| `PoolProperties.EvictionPolicy` | crates/rllm-cache/src/block_pool.rs:198-241 | allocation fails iff nothing is free; it takes the uncached free block nearest the head, else the tail, and only the victim's index membership goes |
| `PoolProperties.CacheBlockAgreesExactly` | crates/rllm-cache/src/block_pool.rs:353-361 | labels and index agree after labelling iff the block was free, unlabelled, or labelled the same |
| `PoolProperties.CopyOnWriteExclusive` | crates/rllm-cache/src/block_pool.rs:286-302 | a shared block is swapped for a free one that nobody else references; fails iff shared and the pool is full, and then changes nothing |
| `PoolProperties.ResetExact` | crates/rllm-cache/src/block_pool.rs:367-385 | the reset succeeds iff no labelled block is in use |
| `PoolProperties.FreeAllCorrect` | crates/rllm-cache/src/manager.rs:169-177 | giving back held references undoes taking them and keeps every label |
| `PoolProperties.AllocateAllExact` | crates/rllm-cache/src/manager.rs:132-166 | bulk allocation succeeds iff enough blocks are free; on failure counts, counter and the set of free blocks are as before and every free block has lost its label |
| `HashEncoding.EncodeInjective` | crates/rllm-cache/src/prefix.rs:89-145 | for equal token counts, equal hash input bytes iff equal parent, tokens, salt (absent or present) and extra keys |
| `HashEncoding.EncodeReadsBack` | crates/rllm-cache/src/prefix.rs:89-145 | the bytes read back as the parent, big-endian in 8 bytes, the tokens, little-endian in 4 each, then salt, if any, and extra keys with values, each after its length in the byte order of the algorithm |
| `HashEncoding.EncodeAmbiguousAcrossTokenCounts` | crates/rllm-cache/src/prefix.rs:89-115 | with different token counts two inputs share their bytes |
| `Prefix.HashInputBytes` | crates/rllm-cache/src/prefix.rs:89-145 | feeding the digest piece by piece produces the specified encoding |
| `Prefix.ComputeBlockHashes` | crates/rllm-cache/src/prefix.rs:43-71 | one hash per full block: the digest of the encoded block after the hash before it, or after 0 for the first, with the salt and no extra keys |
| `Prefix.FindPrefixHit` | crates/rllm-cache/src/prefix.rs:151-161 | the number of leading hashes that are cached |
| `Prefix.ChainIdentifiesPrefix` | crates/rllm-cache/src/prefix.rs:43-71 | without collisions, hash i of one prompt is hash j of another iff i = j, the salts are equal and the first i + 1 blocks agree |
| `KVCacheManagers.KVCacheManager.constructor` | crates/rllm-cache/src/manager.rs:56-73 | a new manager is valid and tracks nothing |
| `KVCacheManagers.KVCacheManager.GetComputedBlocks` | crates/rllm-cache/src/manager.rs:80-121 | reports ids and ids * block size tokens; the ids are the heads of the entries of the leading cached hashes, each gaining a reference; switched off by configuration, caller or empty prompt it returns nothing and changes nothing; keeps the invariant unless it overwrites a block |
| `KVCacheManagers.KVCacheManager.AllocateSlots` | crates/rllm-cache/src/manager.rs:132-166 | keeps the invariant; grants iff the free blocks can hold the tokens beyond those computed, and then appends the fewest that do; a refusal changes no table, count or hash |
| `KVCacheManagers.KVCacheManager.Free` | crates/rllm-cache/src/manager.rs:169-177 | keeps the invariant; the request is forgotten, a reference of each entry of its table is returned, and no label is lost |
| `KVCacheManagers.KVCacheManager.CacheBlocks` | crates/rllm-cache/src/manager.rs:184-210 | keeps the invariant; exactly the blocks that are full now and were not at the last count, as far as table and hashes reach, carry their expected hash, and the count is recorded |
| `KVCacheManagers.KVCacheManager.ForkBlocks` | crates/rllm-cache/src/manager.rs:220-242 | succeeds iff the parent is tracked; the child gets its table, count and hashes and each entry gains a reference; keeps the invariant unless a tracked parent is forked onto a tracked child |
| `KVCacheManagers.KVCacheManager.ResetPrefixCache` | crates/rllm-cache/src/manager.rs:262-270 | succeeds iff no request is tracked, and then clears every label and the index; counts, free list and tables stay |
| `KVCacheManagers.KVCacheManager.Usage` | crates/rllm-cache/src/manager.rs:250-259 | the active blocks reported are those that occur in some table; the total is every block but the null block, the hashes those of the index |
| `ManagerContracts.LookupExact` | crates/rllm-cache/src/manager.rs:80-121 | told by states alone: hits are the heads of the leading cached hashes and stop at the first that is not cached; table, count and hashes are recorded, references gained, labels and index kept |
| `ManagerContracts.AllocateCounts` | crates/rllm-cache/src/manager.rs:132-166 | told by states alone: a grant iff the new tokens fit into the free blocks; as many blocks as hold them, and not with one fewer, go behind the table |
| `ManagerContracts.FreeExact` | crates/rllm-cache/src/manager.rs:169-177 | told by states alone: each entry of the table accounts for one reference returned |
| `ManagerContracts.CacheExact` | crates/rllm-cache/src/manager.rs:184-210 | told by states alone: every newly full block is labelled, and no label changes otherwise |
| `ManagerContracts.ForkExact` | crates/rllm-cache/src/manager.rs:220-242 | told by states alone: the copied entries and the references they gain |
| `ManagerInvariant.LookupRefinesSearch` | crates/rllm-cache/src/manager.rs:92-120 | the hit loop, which moves and re-activates blocks, finds the longest cached run of leading hashes of the index it started from and leaves that index as it was |
| `ManagerInvariant.CacheRangeCorrect` | crates/rllm-cache/src/manager.rs:184-210 | every label that caching writes is the first of its block or the same again |
| `ManagerInvariant.UnsharedHasOneHolder` | crates/rllm-cache/src/block_pool.rs:273-283 | a block reported unshared occurs once in all tables |
| `ManagerInvariant.ResetExact` | crates/rllm-cache/src/manager.rs:262-270 | the reset succeeds iff no table is tracked, and then the index is empty |
| `ManagerTheorems.AllocateExact` | crates/rllm-cache/src/manager.rs:123-166 | succeeds iff ceil(new tokens / block size) blocks are free; the blocks granted were in no table; a refusal keeps tables, counts and the index entries of active blocks, and loses those of free ones |
| `ManagerTheorems.CeilDivExact` | crates/rllm-cache/src/manager.rs:138-143 | that many blocks are enough and one fewer is not |
| `ManagerTheorems.RefusalUnchangedExactly` | crates/rllm-cache/src/manager.rs:129-157 | the documented "no state is modified" holds of a refusal iff at most one block is free and it is not cached |
| `ManagerTheorems.RefusalReverses` | crates/rllm-cache/src/manager.rs:146-157 | a refusal leaves the free list in the reverse of the order in which its blocks were taken |
| `ManagerTheorems.RefusalKeepsLabelsExactly` | crates/rllm-cache/src/manager.rs:146-157 | a refusal keeps the labels iff no free block was cached |
| `CacheExamples.RefusalForgetsExample` | crates/rllm-cache/src/manager.rs:129-157 | after a run that caches and frees a prompt as long as the pool, a refused request forgets every cached block |
| `CacheExamples.RefusalReversesExample` | crates/rllm-cache/src/manager.rs:129-157 | with nothing cached, a refused request on a new pool turns its free list [1, 2] into [2, 1] |
| `CacheExamples.NotPrefixClosed` | crates/rllm-cache/src/manager.rs:169-177 | after such a run the next block granted takes the hash of the first block of the prompt and leaves those of all later ones |
| `ManagerTheorems.LookupConservesExactly` | crates/rllm-cache/src/manager.rs:118 | the insert keeps reference counts right iff the lookup was skipped or the overwritten table was empty |
| `ManagerTheorems.ForkConservesExactly` | crates/rllm-cache/src/manager.rs:231 | the insert keeps reference counts right iff the child held no block |
| `ManagerTheorems.LookupLeakExample` | crates/rllm-cache/src/manager.rs:118 | a concrete lookup that leaks a reference |
| `ManagerTheorems.CacheKeepsLabels` | crates/rllm-cache/src/manager.rs:184-210 | caching never changes a label that is there |
| `ManagerRuns.StepInv` | crates/rllm-cache/src/manager.rs:80-270 | every call keeps the invariant: counts are occurrences, a labelled block at index i of a table carries that request's i-th hash |
| `ManagerRuns.ReachableConserves` | crates/rllm-cache/src/manager.rs:80-270 | after any run: counts are table occurrences, active + free + 1 is the size, an id is in the index under h iff its label is h, no free block is in a table |
| `Slots.ComputeSlots` | crates/rllm-kernels/src/cache_ops.rs:723-730 | slot i is block * block size + offset of pair i |
| `Slots.SlotInjective` | crates/rllm-kernels/src/cache_ops.rs:723-730 | with offsets inside the block, equal slots iff equal block and offset |
| `WriteIsolation.ReachableWritesDisjoint` | crates/rllm-cache/src/manager.rs:80-242 | after any run whose forks share only computed blocks and whose computed counts do not shrink, a position at or beyond its request's computed count shares its slot with no other position of any request |
| `WriteIsolation.ForkIsolationExact` | crates/rllm-cache/src/manager.rs:220-242 | a fork keeps such positions alone in their slots iff every block of the parent's table is already computed |
| `WriteIsolation.UnsharedWritesDisjoint` | crates/rllm-cache/src/block_pool.rs:273-302 | with any forks, writing only where `is_shared` says no keeps writers apart |
| `WriteIsolation.ReachableSharedAreCached` | crates/rllm-cache/src/manager.rs:80-210 | after any run without forks, a block with more than one reference is cached |
| `Ownership.ReachableOwnersDisjoint` | crates/rllm-cache/src/manager.rs:80-242 | after any run whose forks copy only hits, whatever was cached or counted before it was written, two positions past their requests' hits never share a slot |
| `Ownership.ForkSingleExactly` | crates/rllm-cache/src/manager.rs:220-242 | a fork leaves each block at most one owner iff its parent holds nothing but hits |
| `SharingStability.StepKeepsHead` | crates/rllm-cache/src/block_pool.rs:325-361 | no call displaces an active block from the head of its index entry |
| `SharingStability.SharedPrefixStaysPut` | crates/rllm-cache/src/manager.rs:92-120 | while a request holds its prefix hit, any later lookup sharing those full blocks returns the same ids, whatever ran in between |
| `ContentSoundness.NextInv` | crates/rllm-cache/src/manager.rs:80-242 | every call, and every write of what was computed from the request's own table, in any order, keeps each written cell of a labelled block, and of a block a request's prompt fills, equal to the entry due there; nothing is asked of a block when it is cached |
| `ContentSoundness.ComputedExactly` | crates/rllm-cache/src/manager.rs:76-121 | continuing the entry read one position before yields the entry of the request's own prompt, shared hits below or not; it can be computed iff that position was written, so a hit never written stops its readers |
| `ContentSoundness.PrefixHitsAreSound` | crates/rllm-cache/src/manager.rs:76-121 | after any run, each cell of the block at index i of a lookup is unwritten since the block was granted or holds exactly the entry of block i of that prompt; ids are distinct, and as many as the leading cached hashes |
| `ContentCompleteness.NextLedger` | crates/rllm-cache/src/manager.rs:80-242 | over every call and write, the cells of cached blocks that are neither written nor owed are exactly the abandoned ones: an unsettled free adds cells, a write or a lost label takes them away |
| `ContentCompleteness.FreeCellExactly` | crates/rllm-cache/src/manager.rs:169-177 | a free makes a cell unaccounted for iff the request leaves it unwritten in a cached block that nobody else owns |
| `ContentCompleteness.FreeAccountedExactly` | crates/rllm-cache/src/manager.rs:169-177 | where every cell of a cached block is written or owed, a free keeps it so iff it is settled: what the request leaves unwritten in cached blocks has another owner |
| `ContentCompleteness.SingleOwnerSettledExactly` | crates/rllm-cache/src/manager.rs:169-177 | with one owner a block, a free is settled iff the request has written every cell of the cached blocks it owns |
| `ContentCompleteness.SettledExactly` | crates/rllm-cache/src/manager.rs:80-242 | a run keeps every cell accounted for all along iff each of its frees is settled |
| `ContentCompleteness.PrefixHitsAreComplete` | crates/rllm-cache/src/manager.rs:76-121 | after any run, a cell of a hit holds its entry or is owed by an owner of the block iff the run has not abandoned it; when nothing is owed, it holds its entry iff so |
| `ContentCompleteness.SettledHitsHold` | crates/rllm-cache/src/manager.rs:76-121 | after a run with settled frees, when nothing is owed, every hit holds exactly its block of the prompt |
| `CacheExamples.UnsettledFreeExample` | crates/rllm-cache/src/manager.rs:169-210 | a request freed after caching and before writing leaves hits whose cells were never written and are owed by nobody |
| `OffloadStore.CpuKvOffloadStore.constructor` | crates/rllm-cache/src/offload.rs:16-25 | a new store is the empty bounded map |
| `OffloadStore.CpuKvOffloadStore.Put` | crates/rllm-cache/src/offload.rs:27-56 | errs, unchanged and with the complaint of the size first, iff the size is wrong or the key is new and every slot taken; else exactly that key has the new bytes, in its old slot if it had one |
| `OffloadStore.CpuKvOffloadStore.Get` | crates/rllm-cache/src/offload.rs:58-65 | the bytes stored for the key, none iff it has no slot |
| `OffloadStore.CpuKvOffloadStore.Remove` | crates/rllm-cache/src/offload.rs:67-75 | the key is gone, other keys keep their bytes, and the slot is free again |
| `OffloadStore.CpuKvOffloadStore.GetUsage` | crates/rllm-cache/src/offload.rs:77-83 | used is the number of keys, and used + free is the capacity |
| `OffloadStore.PartitionCovers` | crates/rllm-cache/src/offload.rs:16-75 | every slot is on the free stack or holds a key's block |
| `BoundedMap.ReadsBackLastPut` | crates/rllm-cache/src/offload.rs:27-65 | an accepted block reads back unchanged after any operations on other keys |
| `BoundedMap.OverwriteReadsBack` | crates/rllm-cache/src/offload.rs:27-65 | a put of the right size under a present key is accepted however full the store is, adds no key, and reads back after any operations on other keys |
| `BoundedMap.OtherKeysUntouched` | crates/rllm-cache/src/offload.rs:27-75 | operations on other keys, however many, leave a key's bytes alone |
| `BoundedMap.HistoryBounded` | crates/rllm-cache/src/offload.rs:16-75 | on any history never more than capacity blocks, all of the block size |
| `BoundedMap.RemoveMakesRoom` | crates/rllm-cache/src/offload.rs:67-75 | after a removal a new key of the right size is accepted |
| `GptqHessian.GptqCalibration.constructor` | crates/rllm-model/src/gptq.rs:43-45 | a new calibration has observed nothing |
| `GptqHessian.GptqCalibration.ObserveSample` | crates/rllm-model/src/gptq.rs:63-80 | keeps the buffer equal to the sum of the outer products of the samples; a sample of the wrong width changes nothing |
| `GptqHessian.GptqCalibration.Observe` | crates/rllm-model/src/gptq.rs:55-60 | stops at the first sample of the wrong width; the ones before it stay observed |
| `GptqHessian.GptqCalibration.ComputeMeanDiag` | crates/rllm-model/src/gptq.rs:86-92 | the mean of the diagonal of that sum |
| `GptqHessian.GptqCalibration.DampedPermutedHessian` | crates/rllm-model/src/gptq.rs:265-287 | for some amount d that is the configured damping, entry (i, j) is the sum over the samples of the products of their columns order[i] and order[j], plus d on the diagonal |
| `GptqHessian.DampExactly` | crates/rllm-model/src/gptq.rs:279-284 | the damping d is at least 1e-8, n * d is at least the percentage of the samples' squared entries in all, and one of the two is an equality |
| `GptqHessian.DampUnique` | crates/rllm-model/src/gptq.rs:279-284 | no other amount meets that |
| `GptqHessian.GramEntry` | crates/rllm-model/src/gptq.rs:63-80 | entry (i, j) of the buffer is the sum over the samples of the products of their columns i and j |
| `GptqHessian.DampedQuad` | crates/rllm-model/src/gptq.rs:63-80 | v^T H v is the squared output of v over the samples plus damp times the squared length of v |
| `GptqHessian.DampedPosDef` | crates/rllm-model/src/gptq.rs:265-287 | for any samples and any permutation the damped matrix is symmetric and positive definite |
| `Cholesky.Factorize` | crates/rllm-model/src/gptq.rs:390-409 | succeeds iff the matrix (its lower triangle, mirrored) is positive definite, and then returns lower triangular L, positive diagonal, L L^T = A |
| `SpdInverse.ForwardSolve` | crates/rllm-model/src/gptq.rs:367-375 | solves L y = e_col |
| `SpdInverse.BackwardSolve` | crates/rllm-model/src/gptq.rs:376-383 | solves L^T x = y |
| `SpdInverse.InvertSpd` | crates/rllm-model/src/gptq.rs:363-388 | succeeds iff the matrix is positive definite, and then returns X with A X = I |
| `SpdInverse.InverseFactorable` | crates/rllm-model/src/gptq.rs:144-145 | that inverse is symmetric and positive definite, so it can be factored in turn |
| `GptqFactor.CompensationFactor` | crates/rllm-model/src/gptq.rs:143-151 | on a symmetric positive definite H neither factorisation fails, and the transposed factor satisfies U^T U = H^-1 |
| `GptqOrder.ColumnOrderCorrect` | crates/rllm-model/src/gptq.rs:253-263 | the order is a permutation; with act_order the columns come by descending diagonal, ties by index |
| `GptqOrder.MakeGroupIndex` | crates/rllm-model/src/gptq.rs:289-295 | column order[p] belongs to group p / group_size |
| `GptqOrder.NumGroups` | crates/rllm-model/src/gptq.rs:153 | one more than the largest group, 0 without columns |
| `GptqQuantizer.QuantParams` | crates/rllm-model/src/gptq.rs:297-313 | one pass; an empty group errs, and of any other the scale and zero fit its exact minimum and maximum |
| `GptqQuantizer.ParamsExactly` | crates/rllm-model/src/gptq.rs:297-313 | a range narrower than 1e-12 has scale 1 and zero 8; any other a fifteenth of its width, at least 1e-8, and the integer of 1..16 nearest to -min / scale, the larger of two |
| `GptqQuantizer.ParamsUnique` | crates/rllm-model/src/gptq.rs:297-313 | no other scale and zero fit the range |
| `GptqQuantizer.RoundExactly` | crates/rllm-model/src/gptq.rs:311-318 | rounding is to the nearest integer, and of two to the one farther from 0 |
| `GptqQuantizer.CodeExactly` | crates/rllm-model/src/gptq.rs:315-319 | the code is rounded steps plus zero, cut to 0..15, except that a sum past 2^31 - 1 wraps to 0 |
| `GptqQuantizer.DegenerateWithinExactly` | crates/rllm-model/src/gptq.rs:307-319 | in a group narrower than 1e-12, every value comes back within 1/2 iff -8.5 <= min and max <= 7.5 |
| `GptqQuantizer.ErrorWithinExactly` | crates/rllm-model/src/gptq.rs:297-319 | for any group and any number of steps from 1/2 to 10^9: every value comes back within so many scales iff min/scale >= -zero - steps and max/scale <= 15 - zero + steps |
| `GptqQuantizer.ErrorWithinScale` | crates/rllm-model/src/gptq.rs:297-319 | for a non-degenerate group spanning zero, every value of its range comes back within one scale |
| `GptqQuantizer.ErrorWithinHalfScaleExactly` | crates/rllm-model/src/gptq.rs:297-319 | every value comes back within half a scale iff -min/scale >= 1/2 or max/scale <= 14.5 |
| `GptqQuantizer.FarGroupExample` | crates/rllm-model/src/gptq.rs:297-319 | the top of the group [10, 11] comes back 151 scales off |
| `GptqQuantizer.NearGroupExample` | crates/rllm-model/src/gptq.rs:297-319 | the group [-16, -1], which does not span zero either, comes back within half a scale |
| `GptqPacking.PackWord` | crates/rllm-model/src/gptq.rs:326-331 | eight codes ORed into a word come back, each from its nibble, through the decoder's arithmetic |
| `GptqPacking.NibbleOfWord` | crates/rllm-model/src/layers.rs:222-245 | sign fix, division, floor and mod 16 recover every code of a packed signed word |
| `GptqPacking.NibbleIsBits` | crates/rllm-model/src/layers.rs:222-245 | for any signed word, the float arithmetic of the decoder reads the four bits from position 4k of its two's complement |
| `GptqPacking.PackQweight` | crates/rllm-model/src/gptq.rs:321-336 | bits 4 (i mod 8) on of word (i / 8, c) are the code of input i and output c, and unpacking gives it back |
| `GptqPacking.PackQzeros` | crates/rllm-model/src/gptq.rs:338-361 | errs iff the outputs are no multiple of 8; for any bytes, a word gives back its eight zero points iff all of them lie in 1..16 |
| `GptqRow.RunCommitted` | crates/rllm-model/src/gptq.rs:171-189 | each committed weight is the dequantized code under the parameters of its group |
| `GptqRow.CommitmentsLast` | crates/rllm-model/src/gptq.rs:171-197 | later columns change no earlier code, group or weight |
| `GptqRow.GroupFits` | crates/rllm-model/src/gptq.rs:171-183 | group g has the scale and zero that fit the working values which its columns, g * size up to (g + 1) * size or the end, have when the first of them is reached |
| `GptqRow.CommittedOnTurn` | crates/rllm-model/src/gptq.rs:184-189 | the code of a column is that of its working value when its turn comes, under the parameters of its group |
| `GptqRow.RoundedExactly` | crates/rllm-model/src/gptq.rs:184-189 | it is within so many steps of that value iff the value is that close to the reach of the codes |
| `GptqRow.FirstColumnWithinScale` | crates/rllm-model/src/gptq.rs:171-189 | the first column of a group that spans zero is committed within one scale |
| `GptqRow.DeviationExactly` | crates/rllm-model/src/gptq.rs:184-196 | weights minus working row = U^T times the coefficients, iff no pivot below 1e-12 was skipped with an error left |
| `GptqRow.PivotsExactly` | crates/rllm-model/src/gptq.rs:190-192 | every row of weights is compensated without loss iff no pivot of U is below 1e-12 |
| `GptqRow.RunLoss` | crates/rllm-model/src/gptq.rs:184-196 | with such pivots, the quadratic loss after any number of columns is the sum of the squared coefficients |
| `GptqRow.RunOptimal` | crates/rllm-model/src/gptq.rs:184-196 | with such pivots and the committed columns fixed, any other choice of the rest has a strictly larger loss |
| `Compensation.PivotBound` | crates/rllm-model/src/gptq.rs:144-151 | a pivot squared times the diagonal entry of H is at least 1 |
| `GptqRow.BoundedDiagonalPivots` | crates/rllm-model/src/gptq.rs:190-192 | a diagonal of at most 1e24 leaves no pivot below 1e-12 |
| `GptqLayerRow.CommitColumn` | crates/rllm-model/src/gptq.rs:184-196 | rounds a column in place, commits it and hands its error on |
| `GptqLayerRow.QuantizeRow` | crates/rllm-model/src/gptq.rs:160-197 | the in-place loop over a row stores exactly the run of that row, and touches no other output's tables |
| `Gptq.RequestError` | crates/rllm-model/src/gptq.rs:129-141 | no error iff bits, group size, damping, dimensions, weight count, calibration width and sample count are all acceptable; an error reported is true of the request, and the first that is in the order of the checks |
| `GptqDecoder.Dequantize` | crates/rllm-model/src/layers.rs:205-285 | errs iff bits is not 4 or the buffers do not have the declared shapes; building, stacking and reshaping the planes of nibbles yields, for every output and column, (code - (stored zero + 1)) * scale, read straight from the bits of the packed words |
| `GptqDecoder.DecodedReads` | crates/rllm-model/src/layers.rs:205-285 | which word, nibble and scale a weight is read from |
| `Gptq.ComputeColumnOrder` | crates/rllm-model/src/gptq.rs:253-263 | the order for the accumulated Hessian |
| `Gptq.DecodesCommitted` | crates/rllm-model/src/layers.rs:205-285 | decoding column order[p] gives the weight committed at turn p |
| `Gptq.QuantizeGptq` | crates/rllm-model/src/gptq.rs:122-210 | fails exactly on a malformed request, with the first complaint; otherwise the layer decodes, for every output and column, to the run under an order and a factor U with U^T U = H^-1, and each scale and unpacked zero fits the working values of its group; there are as many groups as the largest index needs |
| `GptqLoss.EveryWeightDecodes` | crates/rllm-model/src/gptq.rs:122-210 | every original column has a turn, and the decoded weight there is the one committed then |
| `GptqLoss.FirstColumnWithinLayerScale` | crates/rllm-model/src/gptq.rs:171-189 | the first column taken of a group that spans zero comes back within the scale that the layer stores for it |
| `GptqLoss.BoundedPivots` | crates/rllm-model/src/gptq.rs:265-287 | a damped Hessian diagonal of at most 1e24, known before any weight is seen, rules out skipped pivots |
| `GptqLoss.LayerLoss` | crates/rllm-model/src/gptq.rs:160-197 | under that bound, squared output error over the samples plus damping times squared weight error of the decoded layer = sum of the squared coefficients |
| `GptqLoss.CompensationOptimal` | crates/rllm-model/src/gptq.rs:190-196 | under that bound, the compensated row is at every turn the unique minimiser of that objective given the committed columns |
| `GptqLoss.SkippedRequestExample` | crates/rllm-model/src/gptq.rs:190-192 | a well-formed request with one calibration sample of 1e12 whose first pivot is skipped with an error left, so that the identity fails |

## Where the documentation and the code differ

The model follows the code.

- `crates/rllm-cache/src/manager.rs:130` promises that a failed allocation modifies no state. The rollback does not
  restore the labels evicted on the way, and it reverses the free list: `ManagerTheorems.RefusalUnchangedExactly`
  says exactly when the promise holds.
- `crates/rllm-cache/src/block_pool.rs:246` says that freeing removes the hash; line 256 keeps it.
- `crates/rllm-cache/src/prefix.rs:88` calls the input CBOR; it is a concatenation of fields, cut to 64 bits after hashing.
- The inserts at `crates/rllm-cache/src/manager.rs:118` and `:231` overwrite a table without releasing it. Runs therefore
  require a lookup that is not switched off to target a request without blocks, and a fork of a tracked parent to
  target a child that is not tracked; `LookupConservesExactly` and `ForkConservesExactly` say what happens otherwise.
- The cached set is not closed under prefixes: tables are freed front to back onto the head of the free list, so the first
  block of a chain is evicted before the later ones. `CacheExamples.NotPrefixClosed` is such a run.
- The scheduler calls `cache_blocks` right after allocation, before the forward pass that writes the blocks
  (`crates/rllm-scheduler/src/scheduler.rs:508-537`). Labels may therefore precede contents; the theorems on contents
  allow it and say what a hit holds until the writes arrive.

## Left out

- Slots.ComputeSlots: integers are unbounded, so overflow of the 64-bit slot numbers is not modelled.
- ContentSoundness.PrefixHitsAreSound: assumes that the digest does not collide, and is never 0, on the prompts of the run, and that a forward pass reads no entry that was not written since its block was granted; of all the entries that attention reads, the model follows the one before.
- ContentCompleteness.PrefixHitsAreComplete: under the same assumptions; what the scheduler does between caching and writing is not modelled.
- Prefix.ChainIdentifiesPrefix: the digest is a parameter, assumed free of collisions on the given prompts; SHA-256 and xxh3 are not modelled.
- GptqRow.RunOptimal: in exact arithmetic, and for factors without a pivot below 1e-12; `GptqRow.PivotsExactly` and `GptqLoss.BoundedPivots` say when that is.
- Cholesky.Factorize: the square root is a parameter that is positive and squares back on positive arguments.
- Floating point: rounding, NaN, infinities, the casts between f32 and f64 and the `is_finite` checks of the quantizer. The conversion of a rounded value to i32 saturates and the addition of the zero point wraps, as in a release build.
- Widths of block ids, reference counts and token counts: unbounded naturals instead of u32 and usize.
- The manager never passes a salt to the hash chain, so no separation by salt is claimed above `Prefix`.
- `pop_front`, `is_empty`, `compute_block_hash`, `full_cache_hit_info` and the plain getters: unused by the modelled code or single reads.
- `sort_by` of the standard library: modelled as a stable insertion sort.
- The error texts: errors carry their data, not their messages.
- Tensor shapes and devices of the decoder: modelled entry by entry on the flat buffers that the packer produces.
- Scheduler, worker, CUDA kernels, models, loaders, servers: outside this model.
