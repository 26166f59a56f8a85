/**
 * `CacheHeirarchy` (src/caches/cache_heirarchy.py): the list of levels, the linking
 * of each new level behind the last one, the routing of every access to the first
 * level, and the integer part of the measurements it reports.
 *
 * A level created with `level == 1` runs the L1 write; any other level runs the L2
 * write (the source's `Cache` is abstract, and `L1Cache`/`L2Cache` differ only there).
 */
module Hierarchy {
  import opened Addressing
  import opened Levels
  import opened Invariants
  import opened Caches

  /** The write a level created as `level` runs: the L1 write for level 1 only. */
  function KindOf(level: int): (k: WriteKind)
    ensures k == WriteAllocate <==> level == 1
    ensures k == AllocateDirty <==> level != 1
  {
    if level == 1 then WriteAllocate else AllocateDirty
  }

  class CacheHierarchy {
    var cacheLevels: seq<Cache>
    const replacementPolicy: int
    const inclusionProperty: int
    const blockSize: nat

    ghost var Repr: set<object>

    /** The levels are the nodes of the first level's chain, the first has no previous level. */
    ghost predicate Valid()
      reads this, Repr
    {
      this in Repr && |cacheLevels| <= 2 &&
      (|cacheLevels| == 0 ==> Repr == {this}) &&
      (|cacheLevels| > 0 ==>
         cacheLevels[0] in Repr && cacheLevels[0].Repr <= Repr && this !in cacheLevels[0].Repr &&
         Repr == {this} + cacheLevels[0].Repr &&
         cacheLevels[0].Valid() && cacheLevels[0].Nodes == cacheLevels && cacheLevels[0].prevLevel == null)
    }

    /** The state of every level, first level first. */
    ghost function Levels(): (c: seq<Level>)
      reads this, Repr
      requires Valid()
      ensures |c| == |cacheLevels| && ChainShaped(c)
      ensures forall i :: 0 <= i < |c| ==> cacheLevels[i] in Repr && c[i] == cacheLevels[i].Snapshot()
    {
      if |cacheLevels| == 0 then [] else cacheLevels[0].Chain()
    }

    /** `CacheHeirarchy(...)`: no levels yet. */
    constructor (replacementPolicy: int, inclusionProperty: int, blockSize: nat)
      ensures Valid() && fresh(Repr) && cacheLevels == []
      ensures this.replacementPolicy == replacementPolicy && this.inclusionProperty == inclusionProperty
      ensures this.blockSize == blockSize
    {
      this.replacementPolicy := replacementPolicy;
      this.inclusionProperty := inclusionProperty;
      this.blockSize := blockSize;
      cacheLevels := [];
      Repr := {this};
    }

    /**
     * `create_cache`: a fresh level with the hierarchy's block size and policies is
     * appended; when there was a last level, the two are linked both ways.
     */
    method CreateCache(level: int, cacheSize: nat, associativity: nat)
      requires Valid() && |cacheLevels| < 2
      requires ValidGeometry(Geometry(associativity, blockSize, cacheSize))
      modifies this, if |cacheLevels| > 0 then {cacheLevels[0]} else {}
      ensures Valid() && fresh(Repr - old(Repr))
      ensures |cacheLevels| == old(|cacheLevels|) + 1 && cacheLevels[..old(|cacheLevels|)] == old(cacheLevels)
      ensures Levels() == old(Levels()) +
        [InitialLevel(NewConfig(Geometry(associativity, blockSize, cacheSize), replacementPolicy, inclusionProperty, KindOf(level)))]
      ensures var last := cacheLevels[|cacheLevels| - 1];
        fresh(last) && last.nextLevel == null &&
        (old(|cacheLevels|) == 0 ==> last.prevLevel == null) &&
        (old(|cacheLevels|) > 0 ==> last.prevLevel == cacheLevels[0] && cacheLevels[0].nextLevel == last)
    {
      var cache := new Cache(Geometry(associativity, blockSize, cacheSize), replacementPolicy, inclusionProperty, KindOf(level));
      if |cacheLevels| > 0 {
        cacheLevels[0].Append(cache);
        Repr := Repr + {cache};
      } else {
        Repr := Repr + cache.Repr;
      }
      cacheLevels := cacheLevels + [cache];
    }

    /** `read`: the access enters at the first level. */
    method Read(address: nat)
      requires Valid() && |cacheLevels| > 0 && address < ADDRESS_LIMIT
      modifies Repr - {this}
      ensures Valid() && Repr == old(Repr) && cacheLevels == old(cacheLevels)
      ensures Levels() == ChainRead(old(Levels()), address)
    {
      cacheLevels[0].Read(address);
    }

    /** `write`: the access enters at the first level. */
    method Write(address: nat)
      requires Valid() && |cacheLevels| > 0 && address < ADDRESS_LIMIT
      modifies Repr - {this}
      ensures Valid() && Repr == old(Repr) && cacheLevels == old(cacheLevels)
      ensures Levels() == ChainWrite(old(Levels()), address)
    {
      cacheLevels[0].Write(address);
    }
  }

  /**
   * The integer figures `__print_measurements` reports. The L2 figures are zero when
   * there is one level.
   */
  datatype Measurements = Measurements(
    l1ReadMisses: nat,
    l1WriteMisses: nat,
    l1WriteBacks: nat,
    l2ReadMisses: nat,
    l2WriteMisses: nat,
    l2WriteBacks: nat,
    totalMemoryTraffic: nat
  )

  /**
   * The figures for the levels `c`: the counters of the first level, those of the
   * second when there is one, and a traffic that counts at least every L2 miss and
   * write-back. `direct_write_backs` is not a counter of the source's `Cache`, so it is
   * an input here.
   */
  function Measure(c: seq<Level>, inclusionProperty: int, l1DirectWriteBacks: nat): (m: Measurements)
    requires |c| >= 1
    ensures m.l1ReadMisses == c[0].readMisses && m.l1WriteMisses == c[0].writeMisses &&
            m.l1WriteBacks == c[0].writeBacks
    ensures |c| > 1 ==> m.l2ReadMisses == c[1].readMisses && m.l2WriteMisses == c[1].writeMisses &&
                        m.l2WriteBacks == c[1].writeBacks
    ensures |c| > 1 ==> m.totalMemoryTraffic >= m.l2ReadMisses + m.l2WriteMisses + m.l2WriteBacks
  {
    var l1 := c[0];
    if |c| > 1 then
      var l2 := c[1];
      Measurements(l1.readMisses, l1.writeMisses, l1.writeBacks, l2.readMisses, l2.writeMisses, l2.writeBacks,
                   l2.readMisses + l2.writeMisses + l2.writeBacks + (if inclusionProperty == 1 then l1DirectWriteBacks else 0))
    else
      Measurements(l1.readMisses, l1.writeMisses, l1.writeBacks, 0, 0, 0,
                   l1.readMisses + l1.writeMisses + l1.writeBacks)
  }

  /**
   * One level: every L2 figure is zero and the traffic is what the L1 level fetched
   * and wrote back; the inclusion property plays no part.
   */
  lemma OneLevelTraffic(c: seq<Level>, inclusionProperty: int, l1DirectWriteBacks: nat)
    requires |c| == 1
    ensures var m := Measure(c, inclusionProperty, l1DirectWriteBacks);
      m.l2ReadMisses == 0 && m.l2WriteMisses == 0 && m.l2WriteBacks == 0 &&
      m.totalMemoryTraffic == m.l1ReadMisses + m.l1WriteMisses + m.l1WriteBacks &&
      m == Measure(c, 1 - inclusionProperty, 0)
  {
  }

  /**
   * Two levels: the inclusive hierarchy reports exactly the L1 direct write-backs more
   * than the non-inclusive one. When the L2 level has been fed only by the L1 level, it
   * has no write misses, its read misses are at most the L1 misses, and the traffic is
   * the L2 read misses plus the L2 write-backs (plus the direct write-backs when
   * inclusive).
   */
  lemma TwoLevelTraffic(c: seq<Level>, l1DirectWriteBacks: nat)
    requires |c| == 2
    ensures Measure(c, 1, l1DirectWriteBacks).totalMemoryTraffic ==
            Measure(c, 0, l1DirectWriteBacks).totalMemoryTraffic + l1DirectWriteBacks
    ensures Balanced(c) ==>
      var m := Measure(c, 0, l1DirectWriteBacks);
      m.l2WriteMisses == 0 && m.l2ReadMisses <= m.l1ReadMisses + m.l1WriteMisses &&
      m.totalMemoryTraffic == m.l2ReadMisses + m.l2WriteBacks
  {
  }
}
