/**
 * The behaviour of one cache level and of the levels behind it, as values
 * (src/caches/cache.py, src/caches/l1_cache.py, src/caches/l2_cache.py).
 *
 * A chain `c: seq<Level>` is the level an operation enters (`c[0]`) followed by its
 * `next_level`, that level's `next_level`, and so on; the last level's misses and
 * write-backs go to memory, which is not modelled. Each chain function gives the new
 * state of every level after the call of the same name on `c[0]`. The class
 * `Caches.Cache` runs the same operations in place and is proved to agree with them.
 */
module Levels {
  import opened Wrappers
  import opened Bits
  import opened Blocks
  import opened Addressing

  /** Which `write` a level runs. */
  datatype WriteKind =
    | WriteAllocate   // L1Cache.write: write-back, write-allocate
    | AllocateDirty   // L2Cache.write: dirty allocation, no lookup

  /** The `replacement_policy` value that bumps the sequence counter on hits (LRU). */
  const LRU: int := 0

  /**
   * What a level fixes at construction: its geometry, the `sets`, `index_bits` and
   * `tag_bits` that `__init__` derives from it, its two policies and its write.
   */
  datatype Config = Config(
    geometry: Geometry,
    sets: nat,
    indexBits: nat,
    tagBits: nat,
    replacementPolicy: int,
    inclusionProperty: int,
    kind: WriteKind
  )

  /** The derived fields of `Cache.__init__` (lines 21-31 of cache.py). */
  function NewConfig(g: Geometry, replacementPolicy: int, inclusionProperty: int, kind: WriteKind): (cfg: Config)
    requires ValidGeometry(g)
    ensures Derived(cfg) && SizedConfig(cfg)
    ensures cfg.geometry == g && cfg.replacementPolicy == replacementPolicy
    ensures cfg.inclusionProperty == inclusionProperty && cfg.kind == kind
  {
    GeometryWidths(g);
    Config(g, Sets(g), IndexBits(g), TagBits(g), replacementPolicy, inclusionProperty, kind)
  }

  /** The derived fields agree with the geometry. */
  predicate Derived(cfg: Config)
  {
    ValidGeometry(cfg.geometry) && cfg.sets == Sets(cfg.geometry) &&
    cfg.indexBits == IndexBits(cfg.geometry) && cfg.tagBits == TagBits(cfg.geometry)
  }

  /**
   * What the operations need of the derived fields: the two widths fit in an address
   * and the index width addresses exactly the sets.
   */
  predicate SizedConfig(cfg: Config)
  {
    cfg.geometry.associativity >= 1 && cfg.tagBits + cfg.indexBits <= ADDRESS_BITS &&
    cfg.sets == Pow2(cfg.indexBits)
  }

  /** The state of one level: its ways and its counters. */
  datatype Level = Level(
    config: Config,
    blocks: seq<seq<Block>>,
    sequenceCounter: nat,
    readHits: nat,
    readMisses: nat,
    writeHits: nat,
    writeMisses: nat,
    writeBacks: nat
  )

  /** `sets` rows of `associativity` ways each. */
  predicate Shaped(l: Level)
  {
    SizedConfig(l.config) &&
    |l.blocks| == l.config.sets &&
    forall s :: 0 <= s < |l.blocks| ==> |l.blocks[s]| == l.config.geometry.associativity
  }

  /** Every level of the chain is shaped. */
  predicate ChainShaped(c: seq<Level>)
  {
    |c| == 0 || (Shaped(c[0]) && ChainShaped(c[1..]))
  }

  /** r has as many levels as c, level by level of the same configuration. */
  predicate SameConfigs(c: seq<Level>, r: seq<Level>)
  {
    |r| == |c| && (|c| == 0 || (r[0].config == c[0].config && SameConfigs(c[1..], r[1..])))
  }

  /** r has the configurations of c, and is shaped. */
  predicate SameShape(c: seq<Level>, r: seq<Level>)
  {
    |r| == |c| && ChainShaped(r) && SameConfigs(c, r)
  }

  /**
   * The states the operations can reach: an invalid way holds no tag and is not dirty.
   * A fresh level satisfies it and every operation keeps it (LevelFacts).
   */
  predicate WellFormedBlock(b: Block)
  {
    !b.isValid ==> b.tag == None && !b.isDirty
  }

  predicate WellFormedLevel(l: Level)
  {
    forall s, w :: 0 <= s < |l.blocks| && 0 <= w < |l.blocks[s]| ==> WellFormedBlock(l.blocks[s][w])
  }

  predicate ChainWellFormed(c: seq<Level>)
  {
    forall i :: 0 <= i < |c| ==> WellFormedLevel(c[i])
  }

  /** A freshly constructed level: every way empty, every counter zero. */
  function InitialLevel(cfg: Config): (l: Level)
    requires SizedConfig(cfg)
    ensures Shaped(l) && l.config == cfg
  {
    Level(cfg, seq(cfg.sets, _ => seq(cfg.geometry.associativity, _ => DefaultBlock())), 0, 0, 0, 0, 0, 0)
  }

  /** `blocks[s][w] = b`. */
  function Put(blocks: seq<seq<Block>>, s: nat, w: nat, b: Block): (r: seq<seq<Block>>)
    requires s < |blocks| && w < |blocks[s]|
    ensures |r| == |blocks| && forall k :: 0 <= k < |r| ==> |r[k]| == |blocks[k]|
    ensures r[s][w] == b
    ensures forall k, v :: 0 <= k < |blocks| && 0 <= v < |blocks[k]| && (k != s || v != w) ==> r[k][v] == blocks[k][v]
  {
    blocks[s := blocks[s][w := b]]
  }

  /** `get_block`'s search: the first way whose tag equals `tag`, valid or not. */
  function FindWay(ways: seq<Block>, tag: nat): (r: Option<nat>)
    ensures r.Some? ==> r.value < |ways| && ways[r.value].tag == Some(tag)
    ensures r.Some? ==> forall j :: 0 <= j < r.value ==> ways[j].tag != Some(tag)
    ensures r.None? <==> forall j :: 0 <= j < |ways| ==> ways[j].tag != Some(tag)
  {
    if |ways| == 0 then None
    else if ways[0].tag == Some(tag) then Some(0)
    else match FindWay(ways[1..], tag)
      case None => None
      case Some(k) => Some(k + 1)
  }

  /** The first invalid way, where `evict`'s scan stops. */
  function FirstInvalid(ways: seq<Block>): (r: Option<nat>)
    ensures r.Some? ==> r.value < |ways| && !ways[r.value].isValid
    ensures r.Some? ==> forall j :: 0 <= j < r.value ==> ways[j].isValid
    ensures r.None? <==> forall j :: 0 <= j < |ways| ==> ways[j].isValid
  {
    if |ways| == 0 then None
    else if !ways[0].isValid then Some(0)
    else match FirstInvalid(ways[1..])
      case None => None
      case Some(k) => Some(k + 1)
  }

  /**
   * The way the scan keeps when no way is invalid: it replaces its candidate only on a
   * strictly smaller sequence number, so the lowest way among the oldest wins.
   */
  function OldestWay(ways: seq<Block>): (r: nat)
    requires |ways| > 0
    ensures r < |ways|
    ensures forall j :: 0 <= j < |ways| ==> ways[r].sequenceNumber <= ways[j].sequenceNumber
    ensures forall j :: 0 <= j < r ==> ways[r].sequenceNumber < ways[j].sequenceNumber
  {
    if |ways| == 1 then 0
    else
      var k := OldestWay(ways[..|ways| - 1]);
      if ways[|ways| - 1].sequenceNumber < ways[k].sequenceNumber then |ways| - 1 else k
  }

  /** The way `evict` returns: the first invalid way, else the oldest valid one. */
  function VictimWay(ways: seq<Block>): (r: nat)
    requires |ways| > 0
    ensures r < |ways|
    ensures (exists j :: 0 <= j < |ways| && !ways[j].isValid) ==>
              !ways[r].isValid && forall j :: 0 <= j < r ==> ways[j].isValid
    ensures (forall j :: 0 <= j < |ways| ==> ways[j].isValid) ==>
              (forall j :: 0 <= j < |ways| ==> ways[r].sequenceNumber <= ways[j].sequenceNumber) &&
              (forall j :: 0 <= j < r ==> ways[r].sequenceNumber < ways[j].sequenceNumber)
  {
    match FirstInvalid(ways)
    case Some(i) => i
    case None => OldestWay(ways)
  }

  /** Whether the scan meets an invalid way that is dirty, and writes back inside the loop. */
  function EarlyWriteBack(ways: seq<Block>): (r: bool)
    ensures r <==> exists i :: 0 <= i < |ways| && !ways[i].isValid && ways[i].isDirty &&
                               forall j :: 0 <= j < i ==> ways[j].isValid
  {
    match FirstInvalid(ways)
    case Some(i) => ways[i].isDirty
    case None => false
  }

  /**
   * How many times one `evict` calls `write_back`: twice when the first invalid way is
   * dirty (inside the loop, then again for the same victim after it), once when only
   * the victim is dirty, never otherwise.
   */
  function WriteBackCount(ways: seq<Block>): (n: nat)
    requires |ways| > 0
    ensures n <= 2
    ensures n == 2 <==> EarlyWriteBack(ways)
    ensures n == 1 <==> !EarlyWriteBack(ways) && ways[VictimWay(ways)].isDirty
  {
    (if EarlyWriteBack(ways) then 1 else 0) + (if ways[VictimWay(ways)].isDirty then 1 else 0)
  }

  /** `read_hit_block`: the hit way takes the counter as its sequence number. */
  function AfterReadHit(l: Level, s: nat, w: nat, b: Block): (r: Level)
    requires s < |l.blocks| && w < |l.blocks[s]|
    ensures r.config == l.config && (Shaped(l) ==> Shaped(r))
  {
    var stamped := CopyWith(b, NoOverrides.(sequenceNumber := Some(l.sequenceCounter)));
    l.(blocks := Put(l.blocks, s, w, stamped),
       readHits := l.readHits + 1,
       sequenceCounter := l.sequenceCounter + if l.config.replacementPolicy == LRU then 1 else 0)
  }

  /** `write_hit_block`: the hit way takes the counter and becomes dirty. */
  function AfterWriteHit(l: Level, s: nat, w: nat, b: Block): (r: Level)
    requires s < |l.blocks| && w < |l.blocks[s]|
    ensures r.config == l.config && (Shaped(l) ==> Shaped(r))
  {
    var stamped := CopyWith(b, NoOverrides.(sequenceNumber := Some(l.sequenceCounter), isDirty := Some(true)));
    l.(blocks := Put(l.blocks, s, w, stamped),
       writeHits := l.writeHits + 1,
       sequenceCounter := l.sequenceCounter + if l.config.replacementPolicy == LRU then 1 else 0)
  }

  /** The second half of `allocate_block`: the new valid block goes into way w. */
  function Install(l: Level, s: nat, w: nat, tag: nat, address: nat, isDirty: bool): (r: Level)
    requires s < |l.blocks| && w < |l.blocks[s]|
    ensures r.config == l.config && (Shaped(l) ==> Shaped(r))
  {
    l.(blocks := Put(l.blocks, s, w, Block(Some(tag), Some(address), isDirty, true, l.sequenceCounter)),
       sequenceCounter := l.sequenceCounter + 1)
  }

  /** The chain after `c[0].read(address)`. */
  function ChainRead(c: seq<Level>, address: nat): (r: seq<Level>)
    requires |c| >= 1 && ChainShaped(c) && address < ADDRESS_LIMIT
    ensures SameShape(c, r)
    decreases |c|, 4
  {
    var l := c[0];
    var (tag, s) := AddressComponents(l.config.tagBits, l.config.indexBits, address);
    match FindWay(l.blocks[s], tag)
    case Some(w) =>
      var r := [AfterReadHit(l, s, w, l.blocks[s][w])] + c[1..];
      ReplaceHead(c, r);
      r
    case None =>
      var fetched := Fetch(c, l.(readMisses := l.readMisses + 1), address);
      var r := ChainAllocate(fetched, s, tag, address, false);
      SameShapeTrans(c, fetched, r);
      r
  }

  /**
   * The miss path before allocation: `head` is the entered level with its miss counted,
   * and the next level, if any, reads the address.
   */
  function Fetch(c: seq<Level>, head: Level, address: nat): (r: seq<Level>)
    requires |c| >= 1 && ChainShaped(c) && address < ADDRESS_LIMIT
    requires Shaped(head) && head.config == c[0].config
    ensures SameShape(c, r) && r[0] == head
    decreases |c|, 3
  {
    var r := [head] + if |c| > 1 then ChainRead(c[1..], address) else [];
    ConsShape(c, r);
    r
  }

  /** The chain after `c[0].write(address)`, by the kind of `c[0]`. */
  function ChainWrite(c: seq<Level>, address: nat): (r: seq<Level>)
    requires |c| >= 1 && ChainShaped(c) && address < ADDRESS_LIMIT
    ensures SameShape(c, r)
    decreases |c|, 5
  {
    match c[0].config.kind
    case WriteAllocate => ChainL1Write(c, address)
    case AllocateDirty => ChainL2Write(c, address)
  }

  /** `L1Cache.write`: mark a hit dirty; on a miss read the line from the next level and install it dirty. */
  function ChainL1Write(c: seq<Level>, address: nat): (r: seq<Level>)
    requires |c| >= 1 && ChainShaped(c) && address < ADDRESS_LIMIT
    ensures SameShape(c, r)
    decreases |c|, 4
  {
    var l := c[0];
    var (tag, s) := AddressComponents(l.config.tagBits, l.config.indexBits, address);
    match FindWay(l.blocks[s], tag)
    case Some(w) =>
      var b := l.blocks[s][w];
      var r := [AfterWriteHit(l, s, w, CopyWith(b, NoOverrides.(isDirty := Some(true))))] + c[1..];
      ReplaceHead(c, r);
      r
    case None =>
      var fetched := Fetch(c, l.(writeMisses := l.writeMisses + 1), address);
      var r := ChainAllocate(fetched, s, tag, address, true);
      SameShapeTrans(c, fetched, r);
      r
  }

  /** `L2Cache.write`: allocate a dirty block without looking the tag up, and count a write hit. */
  function ChainL2Write(c: seq<Level>, address: nat): (r: seq<Level>)
    requires |c| >= 1 && ChainShaped(c) && address < ADDRESS_LIMIT
    ensures SameShape(c, r)
    decreases |c|, 4
  {
    var (tag, s) := AddressComponents(c[0].config.tagBits, c[0].config.indexBits, address);
    var filled := ChainAllocate(c, s, tag, address, true);
    var r := [filled[0].(writeHits := filled[0].writeHits + 1)] + filled[1..];
    ReplaceHead(filled, r);
    SameShapeTrans(c, filled, r);
    r
  }

  /** `allocate_block`: evict a way of set s, then install the new block there. */
  function ChainAllocate(c: seq<Level>, s: nat, tag: nat, address: nat, isDirty: bool): (r: seq<Level>)
    requires |c| >= 1 && ChainShaped(c) && s < |c[0].blocks| && address < ADDRESS_LIMIT
    ensures SameShape(c, r)
    decreases |c|, 2
  {
    var (evicted, w) := ChainEvict(c, s, address);
    var r := [Install(evicted[0], s, w, tag, address, isDirty)] + evicted[1..];
    ReplaceHead(evicted, r);
    SameShapeTrans(c, evicted, r);
    r
  }

  /**
   * `evict`: the victim way of set s, and the chain after the write-backs the scan
   * issues. Both write-backs carry the incoming `address`, not the victim's.
   */
  function ChainEvict(c: seq<Level>, s: nat, address: nat): (r: (seq<Level>, nat))
    requires |c| >= 1 && ChainShaped(c) && s < |c[0].blocks| && address < ADDRESS_LIMIT
    ensures SameShape(c, r.0)
    ensures r.1 == VictimWay(c[0].blocks[s])
    ensures r.0[0] == c[0].(writeBacks := c[0].writeBacks + WriteBackCount(c[0].blocks[s]))
    decreases |c|, 1
  {
    var ways := c[0].blocks[s];
    var w := VictimWay(ways);
    var early := if EarlyWriteBack(ways) then ChainWriteBack(c, address) else c;
    var late := if ways[w].isDirty then ChainWriteBack(early, address) else early;
    SameConfigsRefl(c);
    SameShapeTrans(c, early, late);
    (late, w)
  }

  /** `write_back`: count it, and hand the address to the next level's `write`. */
  function ChainWriteBack(c: seq<Level>, address: nat): (r: seq<Level>)
    requires |c| >= 1 && ChainShaped(c) && address < ADDRESS_LIMIT
    ensures SameShape(c, r)
    ensures r[0] == c[0].(writeBacks := c[0].writeBacks + 1)
    decreases |c|, 0
  {
    [c[0].(writeBacks := c[0].writeBacks + 1)] + (if |c| > 1 then ChainWrite(c[1..], address) else [])
  }

  /** A chain whose head is replaced by a shaped level of the same configuration keeps its shape. */
  lemma ReplaceHead(c: seq<Level>, r: seq<Level>)
    requires |c| >= 1 && ChainShaped(c) && |r| == |c| && r[1..] == c[1..]
    requires Shaped(r[0]) && r[0].config == c[0].config
    ensures SameShape(c, r)
  {
    SameConfigsRefl(c[1..]);
  }

  /** Putting a shaped head of the same configuration before a same-shaped tail. */
  lemma ConsShape(c: seq<Level>, r: seq<Level>)
    requires |c| >= 1 && |r| == |c|
    requires Shaped(r[0]) && r[0].config == c[0].config && SameShape(c[1..], r[1..])
    ensures SameShape(c, r)
  {
  }

  lemma ConsChainShaped(head: Level, tail: seq<Level>)
    requires Shaped(head) && ChainShaped(tail)
    ensures ChainShaped([head] + tail)
  {
    assert ([head] + tail)[1..] == tail;
  }

  lemma SameConfigsRefl(c: seq<Level>)
    ensures SameConfigs(c, c)
  {
    if |c| > 0 {
      SameConfigsRefl(c[1..]);
    }
  }

  lemma SameShapeTrans(a: seq<Level>, b: seq<Level>, c: seq<Level>)
    requires SameShape(a, b) && SameShape(b, c)
    ensures SameShape(a, c)
  {
    SameConfigsTrans(a, b, c);
  }

  /** Level i of r has the configuration of level i of c. */
  lemma SameConfigsAt(c: seq<Level>, r: seq<Level>, i: nat)
    requires SameConfigs(c, r) && i < |c|
    ensures r[i].config == c[i].config
  {
    if i > 0 {
      SameConfigsAt(c[1..], r[1..], i - 1);
    }
  }

  lemma SameConfigsTrans(a: seq<Level>, b: seq<Level>, c: seq<Level>)
    requires SameConfigs(a, b) && SameConfigs(b, c)
    ensures SameConfigs(a, c)
  {
    if |a| > 0 {
      SameConfigsTrans(a[1..], b[1..], c[1..]);
    }
  }
}
