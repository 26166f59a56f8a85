# Two-level cache simulator, modelled in Dafny

This project models the core of a trace-driven cache simulator: a set-associative cache level, one or two of them linked as an L1/L2 hierarchy, and the replay of an `r`/`w` trace through that hierarchy.

**Cache level.** A level has `sets` rows of `associativity` ways. Each way holds a `Block` with a tag, an address, a dirty flag, a valid flag and a sequence number. A 32-bit address is split into a tag and a set index. A lookup scans the set for the tag. A hit stamps the way with the level's sequence counter. A miss asks the next level to read the line, then allocates a way.

**Eviction and write-back.** To allocate, the level evicts the first invalid way, or else the oldest way, where a tie goes to the lowest way. A dirty victim is written back to the next level.

**Writes.** The L1 level is write-back and write-allocate. The L2 level dirty-allocates on every write, without looking the tag up.

**Hierarchy.** The hierarchy appends levels and links them both ways. Every access enters at the first level. The hierarchy also reports an integer total memory traffic.

**Simulator.** The simulator builds an L2 level only when the L2 size is positive. It then applies the trace in order.

**How the model is organised.**

- The behaviour is stated twice:
  - on values: module `Levels`, with one chain function per operation over `seq<Level>`, the entered level first;
  - in place: class `Caches.Cache`, whose fields the methods update. Each method is proved to move the state exactly as its chain function does.
- `Hierarchy.CacheHierarchy` and `Simulation.Simulator` are classes, as in the source.
- `Simulator.Run` is a loop proved against `Replay`, the value-level replay of the trace.
- The properties the source promises are lemmas about the chain functions:
  - `LevelFacts`: the effects of each operation;
  - `Invariants`: well-formedness, and the L1/L2 counter balance;
  - `Simulation`: properties of whole traces.

**Source behaviour the model keeps.** The code does the following, and the model does the same.

- **Hits under FIFO.** A read hit or write hit stamps the way's sequence number under FIFO as well as LRU. Only the counter increment is gated by the policy (src/caches/cache.py:62-67, 70-76; `LevelFacts.ReadHitCase`, `LevelFacts.L1WriteHitCase`).
- **Lookup ignores validity.** The tag lookup matches a way whether or not it is valid (src/caches/cache.py:122).
- **Write-back address.** `evict` writes back the address being allocated, not the victim's stored address (src/caches/cache.py:93,102; `LevelFacts.EvictWritesBackIncoming`).
- **Double write-back.** When the first invalid way the scan meets is dirty, `evict` calls `write_back` inside the loop and again after it for the same victim (src/caches/cache.py:91-102; `Levels.WriteBackCount`). Ways that only the operations have filled are never in that state (`LevelFacts.WriteBackOnce`).
- **Duplicate tags.** `L2Cache.write` does not look up the tag, so a set can hold the same tag twice (`LevelFacts.L2WriteDuplicates`).
- **No invalidation.** No operation invalidates a way, and nothing is evicted from L1 when L2 evicts. The code reads the inclusion property only in the traffic formula (src/caches/cache_heirarchy.py:73) and in the printout of the configuration (simulator.py:67).

**Where the model departs from the code.** In these cases the code as written cannot run, so the model takes the evident meaning instead.

- **Counters that do not exist.** `reads`, `writes` and `direct_write_backs` are not attributes of `Cache`, so `__print_measurements` raises `AttributeError` at src/caches/cache_heirarchy.py:40. The model leaves out the figures built from `reads` and `writes`, and takes the L1 direct write-backs as an input to the traffic formula.
- **Float-typed widths.** `index_bits` and `tag_bits` come from `log2`, which returns a `float` even when its value is a whole number. Python refuses a `float` as a slice bound, so src/caches/cache.py:134-135 raise `TypeError`. The model uses the same values as natural numbers, under the condition that the set count and the block size are powers of two.
- **Which `write` a level runs.** `Cache` is abstract, and `create_cache` passes a `level=` argument that `Cache.__init__` does not take, so src/caches/cache_heirarchy.py:16-23 raises `TypeError`. In the model, a level created as level 1 runs the L1 write (src/caches/l1_cache.py), and any other level runs the L2 write (src/caches/l2_cache.py). src/caches/l2._cache.py has the same `write` and is modelled by the same members.

## Model

| member | source | states |
|---|---|---|
| Blocks.DefaultBlock | src/blocks/block.py:6-10 | A default block has no tag and no address. It is clean and invalid, with sequence number 0. |
| Blocks.CopyWith | src/blocks/block.py:12-13 | Each field named in the overrides takes its given value. Every other field keeps the receiver's value. The receiver is a value and is not changed. |
| Blocks.CopyWithNothing | src/blocks/block.py:12-13 | `copy_with()` with no overrides returns a block equal to the receiver. |
| Blocks.CopyWithIdempotent | src/blocks/block.py:12-13 | Applying the same overrides twice gives the same block as applying them once. |
| Bits.ToBits | src/caches/cache.py:131 | The binary string of an address has exactly 32 characters. |
| Bits.FromBits | src/caches/cache.py:138 | The value of a bit string read in base 2 is below 2 to the power of its length. |
| Bits.FromToBits | src/caches/cache.py:131 | Reading the 32-character binary string of a value below 2^32 back in base 2 gives the value. |
| Bits.FromBitsAppend | src/caches/cache.py:134-135 | Splitting a binary string into a leading and a trailing slice splits its value into high and low parts. |
| Addressing.AddressLimit | src/caches/cache.py:7 | 2 to the power ADDRESS_BITS (32) is 0x1_0000_0000. |
| Addressing.Log2 | src/caches/cache.py:25-26 | For a power of two n, 2^Log2(n) == n. |
| Addressing.Sets | src/caches/cache.py:24 | The set count is the most sets of `associativity` blocks that fit in the cache size: sets * associativity * block_size <= cache_size < (sets + 1) * associativity * block_size. |
| Addressing.OffsetBits | src/caches/cache.py:26 | 2^offset_bits is the block size. |
| Addressing.IndexBits | src/caches/cache.py:25 | 2^index_bits is the set count. |
| Addressing.TagBits | src/caches/cache.py:26 | tag_bits + index_bits + log2(block_size) == 32. |
| Addressing.GeometryWidths | src/caches/cache.py:24-26 | When the set count and the block size are powers of two, tag_bits + index_bits + log2(block_size) == 32. Also 2^index_bits == sets, and sets * associativity * block_size <= cache_size. |
| Addressing.AddressComponents | src/caches/cache.py:126-140 | The tag is below 2^tag_bits and the set index is below 2^index_bits. |
| Addressing.AddressSplit | src/caches/cache.py:126-140 | With block number = address / block_size, the tag is block number / sets and the index is block number mod sets. |
| Addressing.AddressFields | src/caches/cache.py:131-135 | address == (tag * sets + index) * block_size + offset with index < sets and offset < block_size. The tag and index are disjoint, consecutive bit fields. |
| Addressing.LiteralIndex | src/caches/cache.py:140 | The index as written, read in base 10, is never below the base-2 set index. It is strictly above it whenever that index is 2 or more. |
| Addressing.LiteralIndexLeavesSets | src/caches/cache.py:140 | For 16-byte blocks in a 64-byte direct-mapped cache, address 0x20 has set index 2. `int(index)` as written gives 10, past the last of the 4 sets. |
| Levels.NewConfig | src/caches/cache.py:21-31 | The derived sets, index_bits and tag_bits agree with the geometry and fit in an address. The geometry and both policies are kept. |
| Levels.InitialLevel | src/caches/cache.py:27-29 | A fresh level has `sets` rows of `associativity` ways and its own configuration. |
| Levels.Put | src/caches/cache.py:116 | Storing a block in one way keeps the number of sets and of ways, and puts the block in that way. Every other way of every set keeps its block. |
| Levels.FindWay | src/caches/cache.py:119-124 | The result is the lowest way whose tag equals the query, and no earlier way matches. It is None exactly when no way has the tag. Validity is not consulted. |
| Levels.FirstInvalid | src/caches/cache.py:90-96 | The scan stops at the lowest invalid way. It is None exactly when every way is valid. |
| Levels.OldestWay | src/caches/cache.py:88-99 | Among valid ways, the scan keeps a way with the minimum sequence number. Every earlier way has a strictly larger one, so ties go to the lowest way. |
| Levels.VictimWay | src/caches/cache.py:84-103 | The victim is the first invalid way if one exists, otherwise the lowest way with the minimum sequence number. It is always within [0, associativity). |
| Levels.EarlyWriteBack | src/caches/cache.py:90-93 | True exactly when some invalid way is dirty and every way before it is valid, so the loop writes back before it stops. |
| Levels.WriteBackCount | src/caches/cache.py:84-103 | One eviction calls `write_back` at most twice. It calls it twice exactly when the early write-back happens, and once exactly when there is no early write-back and the victim is dirty. |
| Levels.AfterReadHit | src/caches/cache.py:61-67 | A read hit keeps the configuration and the shape of the level. Its effects are stated by LevelFacts.ReadHitCase: the hit way takes the counter as its sequence number under either policy, and nothing else in the level changes except the counters. |
| Levels.AfterWriteHit | src/caches/cache.py:69-76 | A write hit keeps the configuration and the shape of the level. Its effects are stated by LevelFacts.L1WriteHitCase: the hit way becomes dirty and takes the counter as its sequence number, keeping its tag, address and valid flag; every other way is unchanged. |
| Levels.Install | src/caches/cache.py:109-117 | Installing the new block keeps the configuration and the shape of the level. Its effects are stated by LevelFacts.AllocateEffects. |
| Levels.ChainRead | src/caches/cache.py:45-59 | A read keeps every level's configuration and shape. |
| Levels.Fetch | src/caches/cache.py:52-54 | The miss path keeps every level's configuration and shape. The entered level is the one with the miss counted. |
| Levels.ChainWrite | src/caches/l1_cache.py:24-40 | A write (the L1 write, or the L2 write on an L2 level) keeps every level's configuration and shape. |
| Levels.ChainL1Write | src/caches/l1_cache.py:24-40 | The L1 write keeps every level's configuration and shape. |
| Levels.ChainL2Write | src/caches/l2_cache.py:25-28 | The L2 write keeps every level's configuration and shape. |
| Levels.ChainAllocate | src/caches/cache.py:105-117 | Allocation keeps every level's configuration and shape. |
| Levels.ChainEvict | src/caches/cache.py:84-103 | Eviction returns VictimWay. The entered level changes only by the number of write-backs the scan issues, and every level keeps its shape. |
| Levels.ChainWriteBack | src/caches/cache.py:78-82 | A write-back counts one write-back at the entered level and keeps every level's shape. |
| LevelFacts.InitialLevelEmpty | src/caches/cache.py:27-37 | In a fresh level every way is the default block, and every counter and the sequence counter are 0. The level is well-formed. |
| LevelFacts.AllocateEffects | src/caches/cache.py:105-117 | The victim way receives a valid block with the given tag, address and dirty flag, stamped with the old counter. The counter rises by exactly 1. Every other way of every set is unchanged, and only the write-back count moves. |
| LevelFacts.ReadEffects | src/caches/cache.py:45-67 | `read_misses` rises exactly when the tag is absent. On a hit, `read_hits` rises, the counter advances only under LRU, and the next levels are untouched. The set then holds the tag, and the write counters do not move. |
| LevelFacts.ReadHitCase | src/caches/cache.py:48-67 | On a hit, the hit way becomes the same block with the counter as its sequence number, under FIFO as well as LRU. Every other way of every set is unchanged, and so are the next levels. One read hit is counted, and the counter rises only under LRU. |
| LevelFacts.ReadMissCase | src/caches/cache.py:51-59 | On a miss, one read miss is counted, and the victim way then holds a valid, clean block with the tag and the address, stamped with the old counter. The counter rises by 1. With a clean victim, the next levels are exactly as a read of the address leaves them. |
| LevelFacts.TagInstalled | src/caches/cache.py:119-124 | A way holding the tag makes the lookup succeed. |
| LevelFacts.EvictWritesBackIncoming | src/caches/cache.py:101-102 | When only the victim is dirty, the next level receives a write of the incoming address. On an L2 level, that address and its tag fill the L2 victim way, whatever address the L1 victim held. |
| LevelFacts.EvictClean | src/caches/cache.py:101-103 | An eviction that writes nothing back leaves every level unchanged. |
| LevelFacts.L1WriteEffects | src/caches/l1_cache.py:24-40 | A hit counts a write hit and leaves `write_misses` unchanged. A miss counts exactly one write miss and leaves `write_hits` unchanged. Either way the set then holds a dirty way with the tag. The counter rises by 1 except on a FIFO hit, so it never decreases. |
| LevelFacts.L1WriteHitCase | src/caches/l1_cache.py:27-30 | A write hit turns the hit way into the same block, dirty and with the counter as its sequence number. Its tag, address and valid flag are kept, and every other way of every set is unchanged. It counts a write hit, and the counter rises only under LRU. The next levels are not called. |
| LevelFacts.L1WriteMissCase | src/caches/l1_cache.py:31-40 | A write miss counts one write miss and installs the line dirty. With a clean victim, the next levels are exactly as a read of the address leaves them, never a write. |
| LevelFacts.L2WriteEffects | src/caches/l2._cache.py:25-28 | The L2 write always dirty-allocates in the victim way, with no lookup. It counts one write hit and never changes either miss counter. The counter rises by 1. (src/caches/l2_cache.py:25-28 is identical.) |
| LevelFacts.L2WriteDuplicates | src/caches/l2_cache.py:25-27 | When the tag already sits in a way other than the victim, two ways carry the tag after the write. |
| LevelFacts.WriteBackOnce | src/caches/cache.py:91-102 | In a well-formed set, an eviction writes back at most once, exactly when the victim is dirty. |
| LevelFacts.FoundWayIsValid | src/caches/cache.py:122 | In a well-formed level, the lookup, which ignores validity, only finds valid ways. |
| Invariants.ReadKeepsWellFormed | src/caches/cache.py:45-59 | A read keeps every level well-formed: no invalid way holds a tag or is dirty. |
| Invariants.FetchKeepsWellFormed | src/caches/cache.py:52-54 | The miss path keeps every level well-formed. |
| Invariants.WriteKeepsWellFormed | src/caches/l1_cache.py:24-40 | A write keeps every level well-formed. |
| Invariants.L1WriteKeepsWellFormed | src/caches/l1_cache.py:24-40 | The L1 write keeps every level well-formed. |
| Invariants.L2WriteKeepsWellFormed | src/caches/l2_cache.py:25-28 | The L2 write keeps every level well-formed. |
| Invariants.AllocateKeepsWellFormed | src/caches/cache.py:105-117 | Allocation keeps every level well-formed. |
| Invariants.EvictKeepsWellFormed | src/caches/cache.py:84-103 | Eviction keeps every level well-formed. |
| Invariants.WriteBackKeepsWellFormed | src/caches/cache.py:78-82 | A write-back keeps every level well-formed. |
| Invariants.LastL2WriteCounts | src/caches/l2_cache.py:25-28 | On a last level, the L2 write adds one write hit and leaves the reads and the write misses unchanged. |
| Invariants.WriteBackPair | src/caches/cache.py:78-81 | A write-back from L1 is exactly one write hit at L2. |
| Invariants.EvictPair | src/caches/cache.py:84-103 | An L1 eviction adds one L2 write hit per write-back and does not read L2. |
| Invariants.AllocateKeepsBalanced | src/caches/cache.py:105-117 | L1 allocation keeps L2 writes equal to L1 write-backs and L2 reads equal to L1 misses. |
| Invariants.ReadKeepsBalanced | src/caches/cache.py:45-59 | An L1 read keeps the L2 counters in step with the L1 counters. |
| Invariants.L1WriteKeepsBalanced | src/caches/l1_cache.py:24-40 | An L1 write keeps the L2 counters in step with the L1 counters. L2 never counts a write miss. |
| Invariants.FetchBalanced | src/caches/cache.py:52-54 | The L1 miss just counted is matched by exactly one read at L2. |
| Caches.Cache.constructor | src/caches/cache.py:11-39 | A new level has the derived configuration, empty ways, zero counters, and no neighbours. |
| Caches.Cache.GetBlock | src/caches/cache.py:119-124 | The scan returns the first way carrying the tag and that block, or None when no way has it. This agrees with FindWay. |
| Caches.Cache.ReadHitBlock | src/caches/cache.py:61-67 | The level's new state is AfterReadHit, and the next level is untouched. |
| Caches.Cache.WriteHitBlock | src/caches/cache.py:69-76 | The level's new state is AfterWriteHit, and the next level is untouched. |
| Caches.Cache.Read | src/caches/cache.py:45-59 | This level and the level behind it move exactly as ChainRead says. |
| Caches.Cache.FetchNext | src/caches/cache.py:53-54 | The next level, if any, reads the address. This level is unchanged. |
| Caches.Cache.Write | src/caches/l1_cache.py:24-40 | The levels move exactly as ChainWrite says: the L1 write on an L1 level, the L2 write on an L2 level. |
| Caches.Cache.L1Write | src/caches/l1_cache.py:24-40 | The levels move exactly as ChainL1Write says. |
| Caches.Cache.L2Write | src/caches/l2_cache.py:25-28 | The levels move exactly as ChainL2Write says. |
| Caches.Cache.AllocateBlock | src/caches/cache.py:105-117 | The levels move exactly as ChainAllocate says. |
| Caches.Cache.Evict | src/caches/cache.py:84-103 | The loop returns VictimWay and that way's block, leaves the ways unchanged, and moves the levels as ChainEvict says. |
| Caches.Cache.Append | src/caches/cache_heirarchy.py:24-26 | The new level becomes this level's next level, and this level becomes its previous level. The chain gains the new level's state at its end. |
| Caches.Cache.WriteBack | src/caches/cache.py:78-82 | One write-back is counted and the next level, if any, writes the address, as ChainWriteBack says. The ways are untouched. |
| Hierarchy.CacheHierarchy.constructor | src/caches/cache_heirarchy.py:7-13 | A new hierarchy has no levels and keeps the policies and the block size. |
| Hierarchy.CacheHierarchy.CreateCache | src/caches/cache_heirarchy.py:15-27 | Exactly one fresh level is appended. It has the hierarchy's block size and both policies. It is linked both ways behind the former last level, and the first level has no previous level. |
| Hierarchy.CacheHierarchy.Read | src/caches/cache_heirarchy.py:29-30 | The access enters at `cache_levels[0]`: the levels move as ChainRead from the first level. |
| Hierarchy.CacheHierarchy.Write | src/caches/cache_heirarchy.py:32-33 | The access enters at `cache_levels[0]`: the levels move as ChainWrite from the first level. |
| Hierarchy.KindOf | src/caches/cache_heirarchy.py:15-23 | A level created as level 1 runs the L1 write, and any other level runs the L2 write. |
| Hierarchy.Measure | src/caches/cache_heirarchy.py:40-74 | The L1 figures are the counters of `cache_levels[0]`. With two levels, the L2 figures are the counters of `cache_levels[1]`, and the traffic counts at least every L2 read miss, write miss and write-back. |
| Hierarchy.OneLevelTraffic | src/caches/cache_heirarchy.py:47-63 | With one level, every L2 figure is 0, and the traffic is L1 read misses + write misses + write-backs. The inclusion property plays no part. |
| Hierarchy.TwoLevelTraffic | src/caches/cache_heirarchy.py:65-74 | With two levels, the inclusive traffic exceeds the non-inclusive traffic by exactly the L1 direct write-backs. When L2 is balanced, it has no write misses, its read misses are at most the L1 misses, and the traffic is L2 read misses + L2 write-backs. |
| Simulation.Step | simulator.py:51-54 | One trace line keeps every level's configuration and shape. |
| Simulation.Replay | simulator.py:45-54 | A replay keeps every level's configuration and shape. |
| Simulation.Dispatched | simulator.py:51-54 | Every access kept is an `r` or `w` access taken from the trace, and every `r` or `w` access of the trace is kept. |
| Simulation.DispatchedAppend | simulator.py:51-54 | One more `r` or `w` line is kept after the lines before it. Any other line is dropped. |
| Simulation.ReplayAppend | simulator.py:45-54 | Accesses apply in trace order: replaying a concatenation is replaying one trace, then the other. |
| Simulation.ReplaySkipsOthers | simulator.py:51-54 | Operation codes other than `r` and `w` leave the state unchanged: replaying a trace equals replaying only its `r`/`w` accesses. |
| Simulation.ReplayKeepsWellFormed | simulator.py:45-54 | Every state reachable from well-formed levels is well-formed, so each eviction writes back at most once. |
| Simulation.ReplayKeepsBalanced | simulator.py:45-54 | In an L1-then-L2 hierarchy, L2 reads equal L1 misses and L2 writes equal L1 write-backs after any trace, and L2 never counts a write miss. |
| Simulation.InitialLevels | simulator.py:27-40 | The levels `create_caches` builds are shaped. |
| Simulation.InitialLevelsFacts | simulator.py:27-40 | There are two levels exactly when `l2_size > 0`. L1 uses `l1_size`/`l1_assoc` and the L1 write, and L2 uses `l2_size`/`l2_assoc` and the L2 write. Both share the block size and both policies, and every counter starts at 0. The levels are well-formed, and two levels are balanced. |
| Simulation.TwoLevelRun | simulator.py:34-54 | After any trace on two levels, every level is well-formed and L2 has no write misses. The total traffic is L2 read misses + L2 write-backs, plus the L1 direct write-backs when inclusive. |
| Simulation.Simulator.constructor | simulator.py:7-25 | A new simulator keeps its configuration and has no hierarchy yet. |
| Simulation.Simulator.CreateCaches | simulator.py:27-40 | A fresh, valid hierarchy with the simulator's policies and block size, whose levels are InitialLevels. |
| Simulation.Simulator.Dispatch | simulator.py:51-54 | `r` reads and `w` writes through the hierarchy. Any other code changes nothing. The levels move as Step says. |
| Simulation.Simulator.Run | simulator.py:42-54 | The loop applies the trace in order. The levels end as Replay of the trace from the starting levels. |

## Left out

- **Trace input.** Reading the trace file and splitting its lines (simulator.py:44-49) are I/O. The trace is a sequence of (operation, address) pairs with numeric addresses.
- **Printing.** All printing and formatting is left out: `__str__`, `__print_measurements`' output, `__print_configuration` and `print_results`. So is `sim_cache.py`, which only parses the command line.
- **Miss rates.** The miss rates (src/caches/cache_heirarchy.py:44,70) are floating-point divisions that can divide by zero. The `reads` and `writes` figures that feed them are not counters of `Cache`.
- **Hex and binary text.** The hex and binary string conversions are left out. Addresses and tags are numbers, and equal tag strings are equal values.
- **Memory.** The memory behind the last level is not modelled. Its misses and write-backs end there.
- **Constructor links.** The `next_level`/`prev_level` constructor parameters of `Cache` are not modelled. A new level has no neighbours, and links are made by `create_cache`.
- Caches.Cache: objects are linked at most two deep, an L1 level and optionally an L2 level behind it, as the simulator builds them. The chain functions in `Levels` and their lemmas hold for any number of levels.
- Hierarchy.CacheHierarchy.CreateCache: requires fewer than two existing levels. The source appends any number.
- Addressing.AddressComponents: requires an address below 2^32. The source's padding does not truncate a longer hex address, and the slices would then take different bits.
- Addressing.LiteralIndex: when `index_bits` is 0 it gives 0. `int("")` in the source raises `ValueError` there.
- Addressing.AddressComponents: when `tag_bits` is 0 (a geometry whose sets and block size fill all 32 bits, such as one-byte blocks, one way and a 2^32-byte cache), the tag slice at src/caches/cache.py:134 is empty and `int("", 2)` at line 138 raises `ValueError`. The model gives tag 0 there.
- Addressing.AddressComponents: when `index_bits` is 0 (a single set, i.e. a fully associative level), the index slice at src/caches/cache.py:135 is empty. `int("")` at line 140 raises `ValueError`, and `int("", 2)` would as well. The model gives set 0 there, and the bit strings' reading `Bits.FromBits` gives 0 for the empty string.
- Hierarchy.Measure: `direct_write_backs` is taken as an input, because no code counts it.

## Findings

| source | as written | input that shows it | evidently intended | confidence | as-written member | corrected member |
|---|---|---|---|---|---|---|
| src/caches/cache.py:140 | `int(index)` reads the binary index string in base 10 | block size 16, cache size 64, associativity 1 (4 sets), address 0x20: index bits "10" give set 10 | read the index bits in base 2 (`int(index, 2)`), giving a set below `sets` | not executed | Addressing.LiteralIndexLeavesSets | Addressing.AddressComponents |
