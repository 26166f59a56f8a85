/**
 * One cache level as the source keeps it: an object whose ways and counters are
 * updated in place, linked to the level behind it (src/caches/cache.py,
 * src/caches/l1_cache.py, src/caches/l2_cache.py).
 *
 * `Chain()` is the state of this level and of the level behind it as a `seq<Level>`;
 * each state-changing method is proved to move `Chain()` exactly as the chain function
 * of the same name in module Levels does. The objects are linked at most two deep, as
 * the simulator builds them (an L1 level, optionally followed by an L2 level); the
 * chain functions themselves are defined for chains of any length.
 */
module Caches {
  import opened Wrappers
  import opened Bits
  import opened Blocks
  import opened Addressing
  import opened Levels

  class Cache {
    const config: Config
    var blocks: seq<seq<Block>>
    var sequenceCounter: nat
    var readHits: nat
    var readMisses: nat
    var writeHits: nat
    var writeMisses: nat
    var writeBacks: nat
    var nextLevel: Cache?
    var prevLevel: Cache?

    /** This object and every level behind it. */
    ghost var Repr: set<object>
    /** This level followed by the levels behind it, in order. */
    ghost var Nodes: seq<Cache>

    ghost predicate Valid()
      reads this, Repr
    {
      this in Repr && Shaped(Snapshot()) &&
      (nextLevel == null ==> Repr == {this} && Nodes == [this]) &&
      (nextLevel != null ==>
         Repr == {this, nextLevel} && nextLevel != this && Nodes == [this, nextLevel] &&
         nextLevel.prevLevel == this && nextLevel.Last())
    }

    /** A valid level with no level behind it. */
    ghost predicate Last()
      reads this
    {
      nextLevel == null && Repr == {this} && Nodes == [this] && Shaped(Snapshot())
    }

    /** The fields of this level as a value. */
    function Snapshot(): Level
      reads this
    {
      Level(config, blocks, sequenceCounter, readHits, readMisses, writeHits, writeMisses, writeBacks)
    }

    /** The state of this level and of every level behind it. */
    ghost function Chain(): (c: seq<Level>)
      reads this, Repr
      requires Valid()
      ensures |c| == |Nodes| && c[0] == Snapshot() && ChainShaped(c)
    {
      if nextLevel == null then [Snapshot()]
      else
        ConsChainShaped(Snapshot(), [nextLevel.Snapshot()]);
        [Snapshot(), nextLevel.Snapshot()]
    }

    /**
     * `Cache(...)` with no neighbours: the derived widths, every way empty, every
     * counter zero.
     */
    constructor (g: Geometry, replacementPolicy: int, inclusionProperty: int, kind: WriteKind)
      requires ValidGeometry(g)
      ensures Valid() && fresh(Repr) && Repr == {this}
      ensures Snapshot() == InitialLevel(NewConfig(g, replacementPolicy, inclusionProperty, kind)) && Nodes == [this]
      ensures nextLevel == null && prevLevel == null
    {
      var cfg := NewConfig(g, replacementPolicy, inclusionProperty, kind);
      this.config := cfg;
      blocks := seq(cfg.sets, _ => seq(g.associativity, _ => DefaultBlock()));
      sequenceCounter := 0;
      readHits, readMisses, writeHits, writeMisses, writeBacks := 0, 0, 0, 0, 0;
      nextLevel, prevLevel := null, null;
      Repr := {this};
      Nodes := [this];
    }

    /**
     * `get_block`: scan the ways of set s for the tag, validity aside; the first match
     * and its way, or None.
     */
    method GetBlock(s: nat, tag: nat) returns (result: Option<(Block, nat)>)
      requires s < |blocks|
      ensures result.None? <==> forall w :: 0 <= w < |blocks[s]| ==> blocks[s][w].tag != Some(tag)
      ensures result.Some? ==> result.value.1 < |blocks[s]| && result.value.0 == blocks[s][result.value.1] &&
                               result.value.0.tag == Some(tag) &&
                               forall w :: 0 <= w < result.value.1 ==> blocks[s][w].tag != Some(tag)
      ensures result.None? == FindWay(blocks[s], tag).None?
      ensures result.Some? ==> result.value.1 == FindWay(blocks[s], tag).value
    {
      var ways := blocks[s];
      var i := 0;
      while i < |ways|
        invariant i <= |ways|
        invariant forall w :: 0 <= w < i ==> ways[w].tag != Some(tag)
      {
        if ways[i].tag == Some(tag) {
          return Some((ways[i], i));
        }
        i := i + 1;
      }
      return None;
    }

    /** `read_hit_block`. */
    method ReadHitBlock(s: nat, w: nat, block: Block)
      requires Valid() && s < |blocks| && w < |blocks[s]|
      modifies this
      ensures Valid() && Repr == old(Repr) && Nodes == old(Nodes)
      ensures nextLevel == old(nextLevel) && prevLevel == old(prevLevel)
      ensures Chain() == [AfterReadHit(old(Snapshot()), s, w, block)] + old(Chain())[1..]
    {
      blocks := blocks[s := blocks[s][w := CopyWith(block, NoOverrides.(sequenceNumber := Some(sequenceCounter)))]];
      readHits := readHits + 1;
      if config.replacementPolicy == LRU {
        sequenceCounter := sequenceCounter + 1;
      }
      assert Snapshot() == AfterReadHit(old(Snapshot()), s, w, block);
      HeadOnlyChanged(this);
    }

    /** `write_hit_block`. */
    method WriteHitBlock(s: nat, w: nat, block: Block)
      requires Valid() && s < |blocks| && w < |blocks[s]|
      modifies this
      ensures Valid() && Repr == old(Repr) && Nodes == old(Nodes)
      ensures nextLevel == old(nextLevel) && prevLevel == old(prevLevel)
      ensures Chain() == [AfterWriteHit(old(Snapshot()), s, w, block)] + old(Chain())[1..]
    {
      blocks := blocks[s := blocks[s][w := CopyWith(block, NoOverrides.(sequenceNumber := Some(sequenceCounter), isDirty := Some(true)))]];
      writeHits := writeHits + 1;
      if config.replacementPolicy == LRU {
        sequenceCounter := sequenceCounter + 1;
      }
      assert Snapshot() == AfterWriteHit(old(Snapshot()), s, w, block);
      HeadOnlyChanged(this);
    }
  
    /** `read`: look the tag up; count a hit, or count a miss, fetch from the next level and allocate. */
    method Read(address: nat)
      requires Valid() && address < ADDRESS_LIMIT
      modifies Repr
      ensures Valid() && Repr == old(Repr) && Nodes == old(Nodes) && prevLevel == old(prevLevel)
      ensures Chain() == ChainRead(old(Chain()), address)
      decreases Repr, 4
    {
      ghost var c := Chain();
      var (tag, s) := AddressComponents(config.tagBits, config.indexBits, address);
      var result := GetBlock(s, tag);
      label looked:
      match result
      case Some((block, w)) =>
        ReadHitBlock(s, w, block);
        ReadHitStep(c, address, tag, s, w);
      case None =>
        readMisses := readMisses + 1;
        HeadOnlyChanged@looked(this);
        ghost var head := Snapshot();
        assert head == c[0].(readMisses := c[0].readMisses + 1);
        FetchNext(address);
        FetchSameTail(c, head, address);
        ghost var fetched := Chain();
        assert fetched == Fetch(c, head, address);
        AllocateBlock(s, tag, address, false);
        ReadMissStep(c, address, tag, s);
    }

    /** The miss path's `next_level.read(address)`, when there is a next level. */
    method FetchNext(address: nat)
      requires Valid() && address < ADDRESS_LIMIT
      modifies Repr - {this}
      ensures Valid() && Repr == old(Repr) && Nodes == old(Nodes)
      ensures Chain() == Fetch(old(Chain()), old(Snapshot()), address)
      decreases Repr, 3
    {
      if nextLevel != null {
        ghost var c := Chain();
        nextLevel.Read(address);
        ghost var tail := nextLevel.Chain();
        assert Chain() == [Snapshot()] + tail;
      }
    }

    /** `write`: the L1 write on an L1 level, the L2 write on an L2 level. */
    method Write(address: nat)
      requires Valid() && address < ADDRESS_LIMIT
      modifies Repr
      ensures Valid() && Repr == old(Repr) && Nodes == old(Nodes) && prevLevel == old(prevLevel)
      ensures Chain() == ChainWrite(old(Chain()), address)
      decreases Repr, 5
    {
      match config.kind
      case WriteAllocate => L1Write(address);
      case AllocateDirty => L2Write(address);
    }

    /** `L1Cache.write`: write-back, write-allocate. */
    method L1Write(address: nat)
      requires Valid() && address < ADDRESS_LIMIT
      modifies Repr
      ensures Valid() && Repr == old(Repr) && Nodes == old(Nodes) && prevLevel == old(prevLevel)
      ensures Chain() == ChainL1Write(old(Chain()), address)
      decreases Repr, 4
    {
      ghost var c := Chain();
      var (tag, index) := AddressComponents(config.tagBits, config.indexBits, address);
      var result := GetBlock(index, tag);
      label looked:
      match result
      case Some((block, w)) =>
        WriteHitBlock(index, w, CopyWith(block, NoOverrides.(isDirty := Some(true))));
        L1WriteHitStep(c, address, tag, index, w);
      case None =>
        writeMisses := writeMisses + 1;
        HeadOnlyChanged@looked(this);
        ghost var head := Snapshot();
        assert head == c[0].(writeMisses := c[0].writeMisses + 1);
        FetchNext(address);
        FetchSameTail(c, head, address);
        ghost var fetched := Chain();
        assert fetched == Fetch(c, head, address);
        AllocateBlock(index, tag, address, true);
        L1WriteMissStep(c, address, tag, index);
    }

    /** `L2Cache.write`: allocate a dirty block with no lookup, then count a write hit. */
    method L2Write(address: nat)
      requires Valid() && address < ADDRESS_LIMIT
      modifies Repr
      ensures Valid() && Repr == old(Repr) && Nodes == old(Nodes) && prevLevel == old(prevLevel)
      ensures Chain() == ChainL2Write(old(Chain()), address)
      decreases Repr, 4
    {
      ghost var c := Chain();
      var (tag, index) := AddressComponents(config.tagBits, config.indexBits, address);
      AllocateBlock(index, tag, address, true);
      ghost var filled := Chain();
      label filled:
      writeHits := writeHits + 1;
      HeadOnlyChanged@filled(this);
      L2WriteStep(c, address, tag, index, filled);
    }

    /** `allocate_block`: evict a way, put the new valid block there, advance the counter. */
    method AllocateBlock(s: nat, tag: nat, address: nat, isDirty: bool)
      requires Valid() && s < |blocks| && address < ADDRESS_LIMIT
      modifies Repr
      ensures Valid() && Repr == old(Repr) && Nodes == old(Nodes) && prevLevel == old(prevLevel)
      ensures Chain() == ChainAllocate(old(Chain()), s, tag, address, isDirty)
      decreases Repr, 2
    {
      ghost var c := Chain();
      var _, w := Evict(s, address);
      ghost var evicted := Chain();
      label evicted:
      blocks := blocks[s := blocks[s][w := Block(Some(tag), Some(address), isDirty, true, sequenceCounter)]];
      sequenceCounter := sequenceCounter + 1;
      HeadOnlyChanged@evicted(this);
      AllocateStep(c, s, tag, address, isDirty, evicted);
    }

    /**
     * `evict`: scan the ways in order; stop at the first invalid way (writing back
     * first if it is dirty), otherwise keep the way with the strictly smallest
     * sequence number so far; finally write back if the chosen way is dirty.
     */
    method Evict(s: nat, address: nat) returns (victim: Block, w: nat)
      requires Valid() && s < |blocks| && address < ADDRESS_LIMIT
      modifies Repr
      ensures Valid() && Repr == old(Repr) && Nodes == old(Nodes) && prevLevel == old(prevLevel)
      ensures blocks == old(blocks) && w < |blocks[s]|
      ensures w == VictimWay(blocks[s]) && victim == blocks[s][w]
      ensures Chain() == ChainEvict(old(Chain()), s, address).0
      decreases Repr, 1
    {
      ghost var c := Chain();
      var ways := blocks[s];
      w := 0;
      victim := ways[w];
      var i := 0;
      var early := false;
      while i < |ways|
        invariant i <= |ways| && w < |ways| && victim == ways[w]
        invariant forall j :: 0 <= j < i ==> ways[j].isValid
        invariant w == OldestWay(ways[..if i == 0 then 1 else i])
        invariant !early
        invariant unchanged(Repr)
      {
        var block := ways[i];
        if !block.isValid {
          if block.isDirty {
            WriteBack(address);
            early := true;
          }
          victim, w := block, i;
          StopsAtInvalid(ways, i);
          break;
        }
        if block.sequenceNumber < victim.sequenceNumber {
          victim, w := block, i;
        }
        assert ways[..i + 1][..i] == ways[..i];
        i := i + 1;
      }
      if i == |ways| {
        AllValid(ways, w);
      }
      ghost var scanned := Chain();
      if victim.isDirty {
        WriteBack(address);
      }
      EvictStep(c, s, address, w, early, scanned);
    }

    /**
     * The linking in `create_cache`: the level `next`, which has no level behind it,
     * becomes this level's next level, and this level becomes its previous one.
     */
    method Append(next: Cache)
      requires Valid() && nextLevel == null && next.Last() && next != this
      modifies this, next
      ensures Valid() && Repr == {this, next} && Nodes == [this, next]
      ensures nextLevel == next && next.prevLevel == this && prevLevel == old(prevLevel)
      ensures Chain() == old(Chain()) + [old(next.Snapshot())]
    {
      next.prevLevel := this;
      nextLevel := next;
      Repr := {this, next};
      Nodes := [this, next];
    }

    /** `write_back`: count it and write the address to the next level, if any. */
    method WriteBack(address: nat)
      requires Valid() && address < ADDRESS_LIMIT
      modifies Repr
      ensures Valid() && Repr == old(Repr) && Nodes == old(Nodes) && prevLevel == old(prevLevel)
      ensures Chain() == ChainWriteBack(old(Chain()), address)
      decreases Repr, 0
    {
      ghost var c := Chain();
      writeBacks := writeBacks + 1;
      HeadOnlyChanged(this);
      if nextLevel != null {
        label counted:
        nextLevel.Write(address);
        NextChanged@counted(this);
      }
      WriteBackStep(c, address);
    }
  }

  /**
   * Assignments to the fields of one level, and to nothing behind it, keep the chain
   * valid and change only its head.
   */
  twostate lemma HeadOnlyChanged(c: Cache)
    requires old(c.Valid()) && Shaped(c.Snapshot())
    requires c.nextLevel == old(c.nextLevel) && c.Repr == old(c.Repr) && c.Nodes == old(c.Nodes)
    requires c.nextLevel != null ==> old(allocated(c.nextLevel)) && unchanged(old(c.nextLevel.Repr))
    ensures c.Valid() && c.Chain() == [c.Snapshot()] + old(c.Chain())[1..]
  {
  }

  /**
   * A call that changes only the levels behind this one, and keeps their own links,
   * keeps the chain valid and changes only its tail.
   */
  twostate lemma NextChanged(c: Cache)
    requires old(c.Valid()) && c.nextLevel != null && unchanged(c)
    requires c.nextLevel.Valid() && c.nextLevel.Repr == old(c.nextLevel.Repr)
    requires c.nextLevel.Nodes == old(c.nextLevel.Nodes) && c.nextLevel.prevLevel == c
    ensures c.Valid() && c.Chain() == [c.Snapshot()] + c.nextLevel.Chain()
  {
  }

  // One step of each chain function, unfolded for the methods above.

  lemma ReadHitStep(c: seq<Level>, address: nat, tag: nat, s: nat, w: nat)
    requires |c| >= 1 && ChainShaped(c) && address < ADDRESS_LIMIT
    requires AddressComponents(c[0].config.tagBits, c[0].config.indexBits, address) == (tag, s)
    requires s < |c[0].blocks| && FindWay(c[0].blocks[s], tag) == Some(w)
    ensures ChainRead(c, address) == [AfterReadHit(c[0], s, w, c[0].blocks[s][w])] + c[1..]
  {
  }

  lemma ReadMissStep(c: seq<Level>, address: nat, tag: nat, s: nat)
    requires |c| >= 1 && ChainShaped(c) && address < ADDRESS_LIMIT
    requires AddressComponents(c[0].config.tagBits, c[0].config.indexBits, address) == (tag, s)
    requires s < |c[0].blocks| && FindWay(c[0].blocks[s], tag) == None
    ensures ChainRead(c, address) ==
      ChainAllocate(Fetch(c, c[0].(readMisses := c[0].readMisses + 1), address), s, tag, address, false)
  {
  }

  lemma L1WriteHitStep(c: seq<Level>, address: nat, tag: nat, s: nat, w: nat)
    requires |c| >= 1 && ChainShaped(c) && address < ADDRESS_LIMIT
    requires AddressComponents(c[0].config.tagBits, c[0].config.indexBits, address) == (tag, s)
    requires s < |c[0].blocks| && FindWay(c[0].blocks[s], tag) == Some(w)
    ensures ChainL1Write(c, address) ==
      [AfterWriteHit(c[0], s, w, CopyWith(c[0].blocks[s][w], NoOverrides.(isDirty := Some(true))))] + c[1..]
  {
  }

  lemma L1WriteMissStep(c: seq<Level>, address: nat, tag: nat, s: nat)
    requires |c| >= 1 && ChainShaped(c) && address < ADDRESS_LIMIT
    requires AddressComponents(c[0].config.tagBits, c[0].config.indexBits, address) == (tag, s)
    requires s < |c[0].blocks| && FindWay(c[0].blocks[s], tag) == None
    ensures ChainL1Write(c, address) ==
      ChainAllocate(Fetch(c, c[0].(writeMisses := c[0].writeMisses + 1), address), s, tag, address, true)
  {
  }

  lemma L2WriteStep(c: seq<Level>, address: nat, tag: nat, s: nat, filled: seq<Level>)
    requires |c| >= 1 && ChainShaped(c) && address < ADDRESS_LIMIT
    requires AddressComponents(c[0].config.tagBits, c[0].config.indexBits, address) == (tag, s)
    requires s < |c[0].blocks| && filled == ChainAllocate(c, s, tag, address, true)
    ensures ChainL2Write(c, address) == [filled[0].(writeHits := filled[0].writeHits + 1)] + filled[1..]
  {
  }

  /** `Fetch` looks only at the length and the tail of the chain it is given. */
  lemma FetchSameTail(c: seq<Level>, head: Level, address: nat)
    requires |c| >= 1 && ChainShaped(c) && address < ADDRESS_LIMIT
    requires Shaped(head) && head.config == c[0].config && ChainShaped([head] + c[1..])
    ensures Fetch([head] + c[1..], head, address) == Fetch(c, head, address)
  {
    assert ([head] + c[1..])[1..] == c[1..];
  }

  /** The scan stops at the first invalid way. */
  lemma StopsAtInvalid(ways: seq<Block>, i: nat)
    requires i < |ways| && !ways[i].isValid && forall j :: 0 <= j < i ==> ways[j].isValid
    ensures VictimWay(ways) == i && EarlyWriteBack(ways) == ways[i].isDirty
  {
  }

  /** A scan that meets no invalid way keeps the oldest one and writes nothing back early. */
  lemma AllValid(ways: seq<Block>, w: nat)
    requires |ways| > 0 && forall j :: 0 <= j < |ways| ==> ways[j].isValid
    requires w == OldestWay(ways[..|ways|])
    ensures VictimWay(ways) == w && !EarlyWriteBack(ways)
  {
    assert ways[..|ways|] == ways;
  }

  lemma EvictStep(c: seq<Level>, s: nat, address: nat, w: nat, early: bool, scanned: seq<Level>)
    requires |c| >= 1 && ChainShaped(c) && s < |c[0].blocks| && address < ADDRESS_LIMIT
    requires |c[0].blocks[s]| > 0 && w == VictimWay(c[0].blocks[s]) && early == EarlyWriteBack(c[0].blocks[s])
    requires scanned == if early then ChainWriteBack(c, address) else c
    ensures ChainShaped(scanned) && |scanned| >= 1
    ensures ChainEvict(c, s, address).0 == if c[0].blocks[s][w].isDirty then ChainWriteBack(scanned, address) else scanned
  {
  }

  lemma WriteBackStep(c: seq<Level>, address: nat)
    requires |c| >= 1 && ChainShaped(c) && address < ADDRESS_LIMIT
    ensures ChainWriteBack(c, address) ==
      [c[0].(writeBacks := c[0].writeBacks + 1)] + (if |c| > 1 then ChainWrite(c[1..], address) else [])
  {
  }

  lemma AllocateStep(c: seq<Level>, s: nat, tag: nat, address: nat, isDirty: bool, evicted: seq<Level>)
    requires |c| >= 1 && ChainShaped(c) && s < |c[0].blocks| && address < ADDRESS_LIMIT
    requires evicted == ChainEvict(c, s, address).0
    ensures var w := VictimWay(c[0].blocks[s]);
      evicted[0].blocks == c[0].blocks && w < |c[0].blocks[s]| &&
      ChainAllocate(c, s, tag, address, isDirty) == [Install(evicted[0], s, w, tag, address, isDirty)] + evicted[1..]
  {
  }
}
