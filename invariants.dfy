/**
 * Invariants of whole chains that every operation keeps: the well-formedness of the
 * ways (so that each eviction writes back at most once) and, for an L1 level in front
 * of an L2 level, the bookkeeping that ties the L2 counters to the L1 counters.
 */
module Invariants {
  import opened Wrappers
  import opened Bits
  import opened Blocks
  import opened Addressing
  import opened Levels
  import opened LevelFacts

  lemma PutKeepsWellFormed(l: Level, s: nat, w: nat, b: Block)
    requires s < |l.blocks| && w < |l.blocks[s]|
    requires WellFormedLevel(l) && WellFormedBlock(b)
    ensures WellFormedLevel(l.(blocks := Put(l.blocks, s, w, b)))
  {
    var r := Put(l.blocks, s, w, b);
    forall t, v | 0 <= t < |r| && 0 <= v < |r[t]|
      ensures WellFormedBlock(r[t][v])
    {
      if t != s || v != w {
        assert r[t][v] == l.blocks[t][v];
      }
    }
  }

  lemma ConsWellFormed(head: Level, tail: seq<Level>)
    requires WellFormedLevel(head) && ChainWellFormed(tail)
    ensures ChainWellFormed([head] + tail)
  {
    forall i | 0 <= i < |[head] + tail|
      ensures WellFormedLevel(([head] + tail)[i])
    {
      if i > 0 {
        assert ([head] + tail)[i] == tail[i - 1];
      }
    }
  }

  lemma TailWellFormed(c: seq<Level>)
    requires |c| >= 1 && ChainWellFormed(c)
    ensures ChainWellFormed(c[1..]) && WellFormedLevel(c[0])
  {
    forall i | 0 <= i < |c| - 1
      ensures WellFormedLevel(c[1..][i])
    {
      assert c[1..][i] == c[i + 1];
    }
  }

  lemma {:induction false} ReadKeepsWellFormed(c: seq<Level>, address: nat)
    requires |c| >= 1 && ChainShaped(c) && address < ADDRESS_LIMIT && ChainWellFormed(c)
    ensures ChainWellFormed(ChainRead(c, address))
    decreases |c|, 4
  {
    var l := c[0];
    var (tag, s) := AddressComponents(l.config.tagBits, l.config.indexBits, address);
    TailWellFormed(c);
    match FindWay(l.blocks[s], tag)
    case Some(w) =>
      var b := l.blocks[s][w];
      var stamped := CopyWith(b, NoOverrides.(sequenceNumber := Some(l.sequenceCounter)));
      assert WellFormedBlock(b);
      PutKeepsWellFormed(l, s, w, stamped);
      ConsWellFormed(AfterReadHit(l, s, w, b), c[1..]);
    case None =>
      var head := l.(readMisses := l.readMisses + 1);
      FetchKeepsWellFormed(c, head, address);
      AllocateKeepsWellFormed(Fetch(c, head, address), s, tag, address, false);
  }

  lemma {:induction false} FetchKeepsWellFormed(c: seq<Level>, head: Level, address: nat)
    requires |c| >= 1 && ChainShaped(c) && address < ADDRESS_LIMIT && ChainWellFormed(c)
    requires Shaped(head) && head.config == c[0].config && head.blocks == c[0].blocks
    ensures ChainWellFormed(Fetch(c, head, address))
    decreases |c|, 3
  {
    TailWellFormed(c);
    if |c| > 1 {
      ReadKeepsWellFormed(c[1..], address);
      ConsWellFormed(head, ChainRead(c[1..], address));
    } else {
      ConsWellFormed(head, []);
    }
  }

  lemma {:induction false} WriteKeepsWellFormed(c: seq<Level>, address: nat)
    requires |c| >= 1 && ChainShaped(c) && address < ADDRESS_LIMIT && ChainWellFormed(c)
    ensures ChainWellFormed(ChainWrite(c, address))
    decreases |c|, 5
  {
    match c[0].config.kind
    case WriteAllocate => L1WriteKeepsWellFormed(c, address);
    case AllocateDirty => L2WriteKeepsWellFormed(c, address);
  }

  lemma {:induction false} L1WriteKeepsWellFormed(c: seq<Level>, address: nat)
    requires |c| >= 1 && ChainShaped(c) && address < ADDRESS_LIMIT && ChainWellFormed(c)
    ensures ChainWellFormed(ChainL1Write(c, address))
    decreases |c|, 4
  {
    var l := c[0];
    var (tag, s) := AddressComponents(l.config.tagBits, l.config.indexBits, address);
    TailWellFormed(c);
    match FindWay(l.blocks[s], tag)
    case Some(w) =>
      var b := CopyWith(l.blocks[s][w], NoOverrides.(isDirty := Some(true)));
      var stamped := CopyWith(b, NoOverrides.(sequenceNumber := Some(l.sequenceCounter), isDirty := Some(true)));
      assert WellFormedBlock(l.blocks[s][w]);
      PutKeepsWellFormed(l, s, w, stamped);
      ConsWellFormed(AfterWriteHit(l, s, w, b), c[1..]);
    case None =>
      var head := l.(writeMisses := l.writeMisses + 1);
      FetchKeepsWellFormed(c, head, address);
      AllocateKeepsWellFormed(Fetch(c, head, address), s, tag, address, true);
  }

  lemma {:induction false} L2WriteKeepsWellFormed(c: seq<Level>, address: nat)
    requires |c| >= 1 && ChainShaped(c) && address < ADDRESS_LIMIT && ChainWellFormed(c)
    ensures ChainWellFormed(ChainL2Write(c, address))
    decreases |c|, 4
  {
    var (tag, s) := AddressComponents(c[0].config.tagBits, c[0].config.indexBits, address);
    AllocateKeepsWellFormed(c, s, tag, address, true);
    var filled := ChainAllocate(c, s, tag, address, true);
    TailWellFormed(filled);
    ConsWellFormed(filled[0].(writeHits := filled[0].writeHits + 1), filled[1..]);
  }

  lemma {:induction false} AllocateKeepsWellFormed(c: seq<Level>, s: nat, tag: nat, address: nat, isDirty: bool)
    requires |c| >= 1 && ChainShaped(c) && s < |c[0].blocks| && address < ADDRESS_LIMIT && ChainWellFormed(c)
    ensures ChainWellFormed(ChainAllocate(c, s, tag, address, isDirty))
    decreases |c|, 2
  {
    var (evicted, w) := ChainEvict(c, s, address);
    EvictKeepsWellFormed(c, s, address);
    TailWellFormed(evicted);
    var l := evicted[0];
    PutKeepsWellFormed(l, s, w, Block(Some(tag), Some(address), isDirty, true, l.sequenceCounter));
    ConsWellFormed(Install(l, s, w, tag, address, isDirty), evicted[1..]);
  }

  lemma {:induction false} EvictKeepsWellFormed(c: seq<Level>, s: nat, address: nat)
    requires |c| >= 1 && ChainShaped(c) && s < |c[0].blocks| && address < ADDRESS_LIMIT && ChainWellFormed(c)
    ensures ChainWellFormed(ChainEvict(c, s, address).0)
    decreases |c|, 1
  {
    var ways := c[0].blocks[s];
    var w := VictimWay(ways);
    if EarlyWriteBack(ways) {
      WriteBackKeepsWellFormed(c, address);
    }
    var early := if EarlyWriteBack(ways) then ChainWriteBack(c, address) else c;
    if ways[w].isDirty {
      WriteBackKeepsWellFormed(early, address);
    }
  }

  lemma {:induction false} WriteBackKeepsWellFormed(c: seq<Level>, address: nat)
    requires |c| >= 1 && ChainShaped(c) && address < ADDRESS_LIMIT && ChainWellFormed(c)
    ensures ChainWellFormed(ChainWriteBack(c, address))
    decreases |c|, 0
  {
    TailWellFormed(c);
    var head := c[0].(writeBacks := c[0].writeBacks + 1);
    if |c| > 1 {
      WriteKeepsWellFormed(c[1..], address);
      ConsWellFormed(head, ChainWrite(c[1..], address));
    } else {
      ConsWellFormed(head, []);
    }
  }

  /**
   * An L1 level in front of an L2 level: the L2 level has been read once per L1 miss,
   * written once per L1 write-back, and has never counted a write miss.
   */
  predicate Balanced(c: seq<Level>)
  {
    |c| == 2 &&
    c[1].readHits + c[1].readMisses == c[0].readMisses + c[0].writeMisses &&
    c[1].writeHits == c[0].writeBacks &&
    c[1].writeMisses == 0
  }

  /** `L2Cache.write` on a last level: one more write hit, reads and write misses unchanged. */
  lemma LastL2WriteCounts(c: seq<Level>, address: nat)
    requires |c| == 1 && ChainShaped(c) && address < ADDRESS_LIMIT && c[0].config.kind == AllocateDirty
    ensures var r := ChainWrite(c, address)[0];
      r.readHits == c[0].readHits && r.readMisses == c[0].readMisses &&
      r.writeHits == c[0].writeHits + 1 && r.writeMisses == c[0].writeMisses
  {
    L2WriteEffects(c, address);
  }

  /** A write-back from the L1 level is one write hit at the L2 level. */
  lemma WriteBackPair(c: seq<Level>, address: nat)
    requires |c| == 2 && ChainShaped(c) && address < ADDRESS_LIMIT && c[1].config.kind == AllocateDirty
    ensures var r := ChainWriteBack(c, address);
      r[1].readHits == c[1].readHits && r[1].readMisses == c[1].readMisses &&
      r[1].writeHits == c[1].writeHits + 1 && r[1].writeMisses == c[1].writeMisses
  {
    LastL2WriteCounts(c[1..], address);
    assert ChainWriteBack(c, address)[1] == ChainWrite(c[1..], address)[0];
  }

  /** An L1 eviction writes to the L2 level once per write-back and does not read it. */
  lemma EvictPair(c: seq<Level>, s: nat, address: nat)
    requires |c| == 2 && ChainShaped(c) && s < |c[0].blocks| && address < ADDRESS_LIMIT
    requires c[1].config.kind == AllocateDirty
    ensures var r := ChainEvict(c, s, address).0;
      r[1].readHits == c[1].readHits && r[1].readMisses == c[1].readMisses &&
      r[1].writeHits == c[1].writeHits + WriteBackCount(c[0].blocks[s]) &&
      r[1].writeMisses == c[1].writeMisses
  {
    var ways := c[0].blocks[s];
    var w := VictimWay(ways);
    if EarlyWriteBack(ways) {
      WriteBackPair(c, address);
    }
    var early := if EarlyWriteBack(ways) then ChainWriteBack(c, address) else c;
    if ways[w].isDirty {
      WriteBackPair(early, address);
    }
  }

  lemma AllocateKeepsBalanced(c: seq<Level>, s: nat, tag: nat, address: nat, isDirty: bool)
    requires |c| == 2 && ChainShaped(c) && s < |c[0].blocks| && address < ADDRESS_LIMIT
    requires c[1].config.kind == AllocateDirty && Balanced(c)
    ensures Balanced(ChainAllocate(c, s, tag, address, isDirty))
  {
    EvictPair(c, s, address);
    AllocateEffects(c, s, tag, address, isDirty);
  }

  /** Reading at the L1 level keeps the L2 counters in step with the L1 counters. */
  lemma ReadKeepsBalanced(c: seq<Level>, address: nat)
    requires |c| == 2 && ChainShaped(c) && address < ADDRESS_LIMIT
    requires c[1].config.kind == AllocateDirty && Balanced(c)
    ensures Balanced(ChainRead(c, address))
  {
    var l := c[0];
    var (tag, s) := AddressComponents(l.config.tagBits, l.config.indexBits, address);
    match FindWay(l.blocks[s], tag)
    case Some(w) =>
      ReadHitCase(c, address, tag, s, w);
      assert ChainRead(c, address)[1] == ChainRead(c, address)[1..][0];
    case None =>
      var fetched := Fetch(c, l.(readMisses := l.readMisses + 1), address);
      FetchBalanced(c, l.(readMisses := l.readMisses + 1), address);
      AllocateKeepsBalanced(fetched, s, tag, address, false);
  }

  /** Writing at the L1 level keeps the L2 counters in step with the L1 counters. */
  lemma L1WriteKeepsBalanced(c: seq<Level>, address: nat)
    requires |c| == 2 && ChainShaped(c) && address < ADDRESS_LIMIT
    requires c[1].config.kind == AllocateDirty && Balanced(c)
    ensures Balanced(ChainL1Write(c, address))
  {
    var l := c[0];
    var (tag, s) := AddressComponents(l.config.tagBits, l.config.indexBits, address);
    match FindWay(l.blocks[s], tag)
    case Some(w) =>
      L1WriteHitCase(c, address, tag, s, w);
      assert ChainL1Write(c, address)[1] == ChainL1Write(c, address)[1..][0];
    case None =>
      var fetched := Fetch(c, l.(writeMisses := l.writeMisses + 1), address);
      FetchBalanced(c, l.(writeMisses := l.writeMisses + 1), address);
      AllocateKeepsBalanced(fetched, s, tag, address, true);
  }

  /** The miss path: the L1 miss just counted is matched by one read at the L2 level. */
  lemma FetchBalanced(c: seq<Level>, head: Level, address: nat)
    requires |c| == 2 && ChainShaped(c) && address < ADDRESS_LIMIT
    requires Shaped(head) && head.config == c[0].config
    requires head.readMisses + head.writeMisses == c[0].readMisses + c[0].writeMisses + 1
    requires head.writeBacks == c[0].writeBacks
    requires c[1].config.kind == AllocateDirty && Balanced(c)
    ensures Balanced(Fetch(c, head, address))
  {
    ReadEffects(c[1..], address);
    assert Fetch(c, head, address)[1] == ChainRead(c[1..], address)[0];
  }
}
