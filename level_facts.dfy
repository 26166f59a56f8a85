/**
 * What one operation does to the level it enters and to the levels behind it:
 * the effects promised by `read`, `L1Cache.write`, `L2Cache.write`, `allocate_block`
 * and `evict` (src/caches/cache.py, src/caches/l1_cache.py, src/caches/l2_cache.py).
 */
module LevelFacts {
  import opened Wrappers
  import opened Bits
  import opened Blocks
  import opened Addressing
  import opened Levels

  /** A fresh level: every way is the default block, every counter is zero. */
  lemma InitialLevelEmpty(cfg: Config)
    requires SizedConfig(cfg)
    ensures var l := InitialLevel(cfg);
      |l.blocks| == cfg.sets &&
      (forall s :: 0 <= s < |l.blocks| ==> |l.blocks[s]| == cfg.geometry.associativity) &&
      (forall s, w :: 0 <= s < |l.blocks| && 0 <= w < |l.blocks[s]| ==> l.blocks[s][w] == DefaultBlock()) &&
      l.sequenceCounter == 0 && l.readHits == 0 && l.readMisses == 0 &&
      l.writeHits == 0 && l.writeMisses == 0 && l.writeBacks == 0
    ensures WellFormedLevel(InitialLevel(cfg))
  {
  }

  /**
   * `allocate_block`: the victim way receives a valid block with the given tag,
   * address and dirty flag, stamped with the old counter; the counter rises by one;
   * every other way of every set is untouched; only the write-back count moves
   * among the other counters.
   */
  lemma AllocateEffects(c: seq<Level>, s: nat, tag: nat, address: nat, isDirty: bool)
    requires |c| >= 1 && ChainShaped(c) && s < |c[0].blocks| && address < ADDRESS_LIMIT
    ensures var l, r, w := c[0], ChainAllocate(c, s, tag, address, isDirty)[0], VictimWay(c[0].blocks[s]);
      r.blocks[s][w] == Block(Some(tag), Some(address), isDirty, true, l.sequenceCounter) &&
      (forall t, v :: 0 <= t < |l.blocks| && 0 <= v < |l.blocks[t]| && (t != s || v != w) ==>
         r.blocks[t][v] == l.blocks[t][v]) &&
      r.sequenceCounter == l.sequenceCounter + 1 &&
      r.writeBacks == l.writeBacks + WriteBackCount(l.blocks[s]) &&
      r.readHits == l.readHits && r.readMisses == l.readMisses &&
      r.writeHits == l.writeHits && r.writeMisses == l.writeMisses
  {
  }

  /**
   * `read`: a miss exactly when no way of the set carries the tag. A hit stamps the
   * way, counts a read hit, advances the counter only under LRU and leaves the next
   * levels alone; a miss counts a read miss and allocates. Either way the set then
   * holds the tag, and the write counters do not move.
   */
  lemma ReadEffects(c: seq<Level>, address: nat)
    requires |c| >= 1 && ChainShaped(c) && address < ADDRESS_LIMIT
    ensures var l, r := c[0], ChainRead(c, address);
      var (tag, s) := AddressComponents(l.config.tagBits, l.config.indexBits, address);
      var hit := FindWay(l.blocks[s], tag).Some?;
      r[0].readMisses == l.readMisses + (if hit then 0 else 1) &&
      r[0].readHits == l.readHits + (if hit then 1 else 0) &&
      r[0].writeHits == l.writeHits && r[0].writeMisses == l.writeMisses &&
      FindWay(r[0].blocks[s], tag).Some? &&
      (hit ==> r[1..] == c[1..] &&
               r[0].sequenceCounter == l.sequenceCounter + (if l.config.replacementPolicy == LRU then 1 else 0) &&
               r[0].writeBacks == l.writeBacks) &&
      (!hit ==> r[0].sequenceCounter == l.sequenceCounter + 1)
  {
    var (tag, s) := AddressComponents(c[0].config.tagBits, c[0].config.indexBits, address);
    match FindWay(c[0].blocks[s], tag)
    case Some(w) => ReadHitCase(c, address, tag, s, w);
    case None => ReadMissCase(c, address, tag, s);
  }

  /**
   * A read hit: the hit way keeps its tag, address, dirty and valid flags and takes the
   * counter as its sequence number under either policy; every other way is untouched,
   * and only the LRU policy advances the counter.
   */
  lemma ReadHitCase(c: seq<Level>, address: nat, tag: nat, s: nat, w: nat)
    requires |c| >= 1 && ChainShaped(c) && address < ADDRESS_LIMIT
    requires AddressComponents(c[0].config.tagBits, c[0].config.indexBits, address) == (tag, s)
    requires FindWay(c[0].blocks[s], tag) == Some(w)
    ensures var l, r := c[0], ChainRead(c, address);
      r[0].readMisses == l.readMisses && r[0].readHits == l.readHits + 1 &&
      r[0].writeHits == l.writeHits && r[0].writeMisses == l.writeMisses &&
      w < |r[0].blocks[s]| && r[0].blocks[s][w] == l.blocks[s][w].(sequenceNumber := l.sequenceCounter) &&
      r[0].blocks[s][w].tag == Some(tag) &&
      (forall t, v :: 0 <= t < |l.blocks| && 0 <= v < |l.blocks[t]| && (t != s || v != w) ==>
         r[0].blocks[t][v] == l.blocks[t][v]) &&
      r[1..] == c[1..] &&
      r[0].sequenceCounter == l.sequenceCounter + (if l.config.replacementPolicy == LRU then 1 else 0) &&
      r[0].writeBacks == l.writeBacks
  {
    var l := c[0];
    assert ChainRead(c, address) == [AfterReadHit(l, s, w, l.blocks[s][w])] + c[1..];
  }

  /**
   * A read miss: one read miss is counted, the next level reads the address, and the
   * line is installed clean in the victim way; with a clean victim the next levels are
   * exactly as that read leaves them.
   */
  lemma ReadMissCase(c: seq<Level>, address: nat, tag: nat, s: nat)
    requires |c| >= 1 && ChainShaped(c) && address < ADDRESS_LIMIT
    requires AddressComponents(c[0].config.tagBits, c[0].config.indexBits, address) == (tag, s)
    requires FindWay(c[0].blocks[s], tag) == None
    ensures var l, r := c[0], ChainRead(c, address);
      r[0].readMisses == l.readMisses + 1 && r[0].readHits == l.readHits &&
      r[0].writeHits == l.writeHits && r[0].writeMisses == l.writeMisses &&
      FindWay(r[0].blocks[s], tag).Some? &&
      var v := VictimWay(l.blocks[s]);
      v < |r[0].blocks[s]| && r[0].blocks[s][v] == Block(Some(tag), Some(address), false, true, l.sequenceCounter) &&
      r[0].sequenceCounter == l.sequenceCounter + 1 &&
      (|c| > 1 && WriteBackCount(l.blocks[s]) == 0 ==> r[1..] == ChainRead(c[1..], address))
  {
    var l := c[0];
    var fetched := Fetch(c, l.(readMisses := l.readMisses + 1), address);
    assert ChainRead(c, address) == ChainAllocate(fetched, s, tag, address, false);
    AllocateEffects(fetched, s, tag, address, false);
    TagInstalled(ChainRead(c, address)[0], s, VictimWay(l.blocks[s]), tag);
    if |c| > 1 && WriteBackCount(l.blocks[s]) == 0 {
      EvictClean(fetched, s, address);
      assert fetched[1..] == ChainRead(c[1..], address);
    }
  }

  /** A way holding the tag makes the lookup succeed. */
  lemma TagInstalled(l: Level, s: nat, w: nat, tag: nat)
    requires s < |l.blocks| && w < |l.blocks[s]| && l.blocks[s][w].tag == Some(tag)
    ensures FindWay(l.blocks[s], tag).Some?
  {
  }

  /** An eviction that writes nothing back leaves the whole chain as it was. */
  lemma EvictClean(c: seq<Level>, s: nat, address: nat)
    requires |c| >= 1 && ChainShaped(c) && s < |c[0].blocks| && address < ADDRESS_LIMIT
    requires WriteBackCount(c[0].blocks[s]) == 0
    ensures ChainEvict(c, s, address).0 == c
  {
  }

  /**
   * `evict` writes back the incoming `address`, not the address the victim holds: when
   * only the victim is dirty, the next level sees a write of `address`. On an L2 level
   * that write leaves the incoming address and its tag in the L2 victim way, whatever
   * address the L1 victim carried.
   */
  lemma EvictWritesBackIncoming(c: seq<Level>, s: nat, address: nat)
    requires |c| >= 2 && ChainShaped(c) && s < |c[0].blocks| && address < ADDRESS_LIMIT
    requires WriteBackCount(c[0].blocks[s]) == 1
    ensures ChainShaped(c[1..])
    ensures ChainEvict(c, s, address).0[1..] == ChainWrite(c[1..], address)
    ensures c[1].config.kind == AllocateDirty ==>
      var n, r := c[1], ChainEvict(c, s, address).0[1];
      var (tag, t) := AddressComponents(n.config.tagBits, n.config.indexBits, address);
      var v := VictimWay(n.blocks[t]);
      r.blocks[t][v] == Block(Some(tag), Some(address), true, true, n.sequenceCounter)
  {
    assert ChainEvict(c, s, address).0 == ChainWriteBack(c, address);
    if c[1].config.kind == AllocateDirty {
      L2WriteEffects(c[1..], address);
    }
  }

  /**
   * `L1Cache.write`: a hit marks the way dirty, stamps it with the counter, counts a
   * write hit and calls no next level; a miss counts a write miss, has the next level
   * read the address (a clean victim then leaves the next levels exactly as that read
   * left them) and installs the line dirty. Either way the set then holds a dirty way
   * with the tag; the read counters do not move, and the counter advances except on
   * a FIFO hit.
   */
  lemma L1WriteEffects(c: seq<Level>, address: nat)
    requires |c| >= 1 && ChainShaped(c) && address < ADDRESS_LIMIT
    ensures var l, r := c[0], ChainL1Write(c, address);
      var (tag, s) := AddressComponents(l.config.tagBits, l.config.indexBits, address);
      var hit := FindWay(l.blocks[s], tag).Some?;
      r[0].writeMisses == l.writeMisses + (if hit then 0 else 1) &&
      r[0].writeHits == l.writeHits + (if hit then 1 else 0) &&
      r[0].readHits == l.readHits && r[0].readMisses == l.readMisses &&
      (exists w :: 0 <= w < |r[0].blocks[s]| && r[0].blocks[s][w].tag == Some(tag) && r[0].blocks[s][w].isDirty) &&
      r[0].sequenceCounter == l.sequenceCounter + (if hit && l.config.replacementPolicy != LRU then 0 else 1) &&
      (hit ==> r[1..] == c[1..] && r[0].writeBacks == l.writeBacks) &&
      (!hit && |c| > 1 && WriteBackCount(l.blocks[s]) == 0 ==> r[1..] == ChainRead(c[1..], address))
  {
    var (tag, s) := AddressComponents(c[0].config.tagBits, c[0].config.indexBits, address);
    match FindWay(c[0].blocks[s], tag)
    case Some(w) => L1WriteHitCase(c, address, tag, s, w);
    case None => L1WriteMissCase(c, address, tag, s);
  }

  /**
   * An L1 write hit: the hit way keeps its tag, address and valid flag, becomes dirty
   * and takes the counter as its sequence number under either policy; every other way
   * is untouched and the next levels are not called.
   */
  lemma L1WriteHitCase(c: seq<Level>, address: nat, tag: nat, s: nat, w: nat)
    requires |c| >= 1 && ChainShaped(c) && address < ADDRESS_LIMIT
    requires AddressComponents(c[0].config.tagBits, c[0].config.indexBits, address) == (tag, s)
    requires FindWay(c[0].blocks[s], tag) == Some(w)
    ensures var l, r := c[0], ChainL1Write(c, address);
      r[0].writeMisses == l.writeMisses && r[0].writeHits == l.writeHits + 1 &&
      r[0].readHits == l.readHits && r[0].readMisses == l.readMisses &&
      w < |r[0].blocks[s]| &&
      r[0].blocks[s][w] == l.blocks[s][w].(isDirty := true, sequenceNumber := l.sequenceCounter) &&
      r[0].blocks[s][w].tag == Some(tag) &&
      (forall t, v :: 0 <= t < |l.blocks| && 0 <= v < |l.blocks[t]| && (t != s || v != w) ==>
         r[0].blocks[t][v] == l.blocks[t][v]) &&
      r[0].sequenceCounter == l.sequenceCounter + (if l.config.replacementPolicy == LRU then 1 else 0) &&
      r[1..] == c[1..] && r[0].writeBacks == l.writeBacks
  {
    var l := c[0];
    var b := l.blocks[s][w];
    assert ChainL1Write(c, address) == [AfterWriteHit(l, s, w, CopyWith(b, NoOverrides.(isDirty := Some(true))))] + c[1..];
  }

  lemma L1WriteMissCase(c: seq<Level>, address: nat, tag: nat, s: nat)
    requires |c| >= 1 && ChainShaped(c) && address < ADDRESS_LIMIT
    requires AddressComponents(c[0].config.tagBits, c[0].config.indexBits, address) == (tag, s)
    requires FindWay(c[0].blocks[s], tag) == None
    ensures var l, r := c[0], ChainL1Write(c, address);
      var v := VictimWay(l.blocks[s]);
      r[0].writeMisses == l.writeMisses + 1 && r[0].writeHits == l.writeHits &&
      r[0].readHits == l.readHits && r[0].readMisses == l.readMisses &&
      v < |r[0].blocks[s]| && r[0].blocks[s][v] == Block(Some(tag), Some(address), true, true, l.sequenceCounter) &&
      r[0].sequenceCounter == l.sequenceCounter + 1 &&
      (|c| > 1 && WriteBackCount(l.blocks[s]) == 0 ==> r[1..] == ChainRead(c[1..], address))
  {
    var l := c[0];
    var fetched := Fetch(c, l.(writeMisses := l.writeMisses + 1), address);
    assert ChainL1Write(c, address) == ChainAllocate(fetched, s, tag, address, true);
    AllocateEffects(fetched, s, tag, address, true);
    if |c| > 1 && WriteBackCount(l.blocks[s]) == 0 {
      EvictClean(fetched, s, address);
      assert fetched[1..] == ChainRead(c[1..], address);
    }
  }

  /**
   * `L2Cache.write` (l2_cache.py and its duplicate l2._cache.py): whatever the set
   * holds, the victim way receives a valid dirty block with the tag stamped with the
   * old counter, every other way is untouched, the counter rises by one, a write hit
   * is counted, and neither miss counter nor the read hits move.
   */
  lemma L2WriteEffects(c: seq<Level>, address: nat)
    requires |c| >= 1 && ChainShaped(c) && address < ADDRESS_LIMIT
    ensures var l, r := c[0], ChainL2Write(c, address);
      var (tag, s) := AddressComponents(l.config.tagBits, l.config.indexBits, address);
      var v := VictimWay(l.blocks[s]);
      r[0].blocks[s][v] == Block(Some(tag), Some(address), true, true, l.sequenceCounter) &&
      (forall t, u :: 0 <= t < |l.blocks| && 0 <= u < |l.blocks[t]| && (t != s || u != v) ==>
         r[0].blocks[t][u] == l.blocks[t][u]) &&
      r[0].sequenceCounter == l.sequenceCounter + 1 &&
      r[0].writeHits == l.writeHits + 1 && r[0].writeMisses == l.writeMisses &&
      r[0].readMisses == l.readMisses && r[0].readHits == l.readHits &&
      r[0].writeBacks == l.writeBacks + WriteBackCount(l.blocks[s])
  {
    var (tag, s) := AddressComponents(c[0].config.tagBits, c[0].config.indexBits, address);
    AllocateEffects(c, s, tag, address, true);
  }

  /**
   * No deduplication in `L2Cache.write`: when the tag already sits in a way that is
   * not the victim, two ways of the set carry it afterwards.
   */
  lemma L2WriteDuplicates(c: seq<Level>, address: nat, j: nat)
    requires |c| >= 1 && ChainShaped(c) && address < ADDRESS_LIMIT
    requires var (tag, s) := AddressComponents(c[0].config.tagBits, c[0].config.indexBits, address);
      FindWay(c[0].blocks[s], tag) == Some(j) && j != VictimWay(c[0].blocks[s])
    ensures var (tag, s) := AddressComponents(c[0].config.tagBits, c[0].config.indexBits, address);
      var r, v := ChainL2Write(c, address)[0], VictimWay(c[0].blocks[s]);
      j < |r.blocks[s]| && v < |r.blocks[s]| && j != v &&
      r.blocks[s][j].tag == Some(tag) && r.blocks[s][v].tag == Some(tag)
  {
    L2WriteEffects(c, address);
  }

  /**
   * In a well-formed set an invalid way is never dirty, so the scan never writes back
   * inside the loop: one eviction writes back at most once, exactly when the victim is
   * dirty.
   */
  lemma WriteBackOnce(ways: seq<Block>)
    requires |ways| > 0 && forall w :: 0 <= w < |ways| ==> WellFormedBlock(ways[w])
    ensures WriteBackCount(ways) == if ways[VictimWay(ways)].isDirty then 1 else 0
    ensures WriteBackCount(ways) <= 1
  {
    match FirstInvalid(ways)
    case Some(i) => assert WellFormedBlock(ways[i]);
    case None =>
  }

  /** In a well-formed level the tag lookup, which ignores validity, only finds valid ways. */
  lemma FoundWayIsValid(l: Level, s: nat, tag: nat)
    requires WellFormedLevel(l) && s < |l.blocks|
    ensures FindWay(l.blocks[s], tag).Some? ==> l.blocks[s][FindWay(l.blocks[s], tag).value].isValid
  {
  }
}
