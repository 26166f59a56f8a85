/**
 * `Simulator` (simulator.py): build an L1 level, and an L2 level behind it when the
 * L2 size is positive, then apply a trace of accesses in order. Reading the trace
 * file and splitting its lines are not modelled; the trace is a sequence of
 * (operation, address) pairs.
 */
module Simulation {
  import opened Addressing
  import opened Levels
  import opened LevelFacts
  import opened Invariants
  import opened Caches
  import opened Hierarchy

  /** One line of the trace: an operation code and an address. */
  datatype Access = Access(operation: string, address: nat)

  /** The operation codes `run` acts on. */
  predicate Dispatches(a: Access)
  {
    a.operation == "r" || a.operation == "w"
  }

  /** An access the hierarchy acts on names a 32-bit address. */
  predicate Addressable(a: Access)
  {
    Dispatches(a) ==> a.address < ADDRESS_LIMIT
  }

  predicate TraceAddressable(trace: seq<Access>)
  {
    forall i :: 0 <= i < |trace| ==> Addressable(trace[i])
  }

  /** The levels after one line of the trace: `r` reads, `w` writes, anything else is skipped. */
  function Step(c: seq<Level>, a: Access): (r: seq<Level>)
    requires |c| >= 1 && ChainShaped(c) && Addressable(a)
    ensures SameShape(c, r)
  {
    if a.operation == "r" then ChainRead(c, a.address)
    else if a.operation == "w" then ChainWrite(c, a.address)
    else SameConfigsRefl(c); c
  }

  /** The levels after the whole trace, applied in order. */
  function Replay(c: seq<Level>, trace: seq<Access>): (r: seq<Level>)
    requires |c| >= 1 && ChainShaped(c) && TraceAddressable(trace)
    ensures SameShape(c, r)
    decreases |trace|
  {
    if |trace| == 0 then SameConfigsRefl(c); c
    else
      var before := Replay(c, trace[..|trace| - 1]);
      var r := Step(before, trace[|trace| - 1]);
      SameShapeTrans(c, before, r);
      r
  }

  /** The accesses `run` acts on, in trace order. */
  function Dispatched(trace: seq<Access>): (r: seq<Access>)
    ensures |r| <= |trace|
    ensures forall i :: 0 <= i < |r| ==> Dispatches(r[i]) && r[i] in trace
    ensures forall i :: 0 <= i < |trace| && Dispatches(trace[i]) ==> trace[i] in r
  {
    if |trace| == 0 then []
    else
      var last := trace[|trace| - 1];
      Dispatched(trace[..|trace| - 1]) + if Dispatches(last) then [last] else []
  }

  /**
   * One more line of the trace: an `r` or `w` access is kept after the ones before it,
   * any other access is dropped.
   */
  lemma DispatchedAppend(trace: seq<Access>, a: Access)
    ensures Dispatches(a) ==> Dispatched(trace + [a]) == Dispatched(trace) + [a]
    ensures !Dispatches(a) ==> Dispatched(trace + [a]) == Dispatched(trace)
  {
    assert (trace + [a])[..|trace|] == trace;
  }

  /** Replaying two traces one after the other is replaying their concatenation. */
  lemma {:induction false} ReplayAppend(c: seq<Level>, first: seq<Access>, second: seq<Access>)
    requires |c| >= 1 && ChainShaped(c) && TraceAddressable(first) && TraceAddressable(second)
    ensures TraceAddressable(first + second)
    ensures Replay(c, first + second) == Replay(Replay(c, first), second)
    decreases |second|
  {
    AppendAddressable(first, second);
    if |second| == 0 {
      assert first + second == first;
    } else {
      var init := second[..|second| - 1];
      PrefixAddressable(second, |second| - 1);
      ReplayAppend(c, first, init);
      LastOfAppend(first, second);
    }
  }

  lemma AppendAddressable(first: seq<Access>, second: seq<Access>)
    requires TraceAddressable(first) && TraceAddressable(second)
    ensures TraceAddressable(first + second)
  {
    forall i | 0 <= i < |first + second|
      ensures Addressable((first + second)[i])
    {
      if i >= |first| {
        assert (first + second)[i] == second[i - |first|];
      }
    }
  }

  lemma PrefixAddressable(trace: seq<Access>, k: nat)
    requires TraceAddressable(trace) && k <= |trace|
    ensures TraceAddressable(trace[..k])
  {
    forall i | 0 <= i < k
      ensures Addressable(trace[..k][i])
    {
      assert trace[..k][i] == trace[i];
    }
  }

  lemma LastOfAppend(first: seq<Access>, second: seq<Access>)
    requires |second| > 0
    ensures (first + second)[..|first + second| - 1] == first + second[..|second| - 1]
    ensures (first + second)[|first + second| - 1] == second[|second| - 1]
  {
  }

  /** The replay of one more line of the trace is one more step. */
  lemma ReplayPrefix(c: seq<Level>, trace: seq<Access>, k: nat)
    requires |c| >= 1 && ChainShaped(c) && TraceAddressable(trace) && k < |trace|
    ensures TraceAddressable(trace[..k]) && TraceAddressable(trace[..k + 1])
    ensures Replay(c, trace[..k + 1]) == Step(Replay(c, trace[..k]), trace[k])
  {
    PrefixAddressable(trace, k);
    PrefixAddressable(trace, k + 1);
    var longer := trace[..k + 1];
    assert longer[..|longer| - 1] == trace[..k] && longer[|longer| - 1] == trace[k];
  }

  /** Operation codes other than `r` and `w` leave every level as it was. */
  lemma {:induction false} ReplaySkipsOthers(c: seq<Level>, trace: seq<Access>)
    requires |c| >= 1 && ChainShaped(c) && TraceAddressable(trace)
    ensures TraceAddressable(Dispatched(trace))
    ensures Replay(c, trace) == Replay(c, Dispatched(trace))
    decreases |trace|
  {
    var d := Dispatched(trace);
    forall i | 0 <= i < |d|
      ensures Addressable(d[i])
    {
      var j :| 0 <= j < |trace| && trace[j] == d[i];
    }
    if |trace| > 0 {
      var init := trace[..|trace| - 1];
      var last := trace[|trace| - 1];
      ReplaySkipsOthers(c, init);
      var prefix := Dispatched(init);
      if Dispatches(last) {
        assert d[..|d| - 1] == prefix;
      } else {
        assert d == prefix;
      }
    }
  }

  /** Every level of a reachable chain stays well-formed, so each eviction writes back at most once. */
  lemma {:induction false} ReplayKeepsWellFormed(c: seq<Level>, trace: seq<Access>)
    requires |c| >= 1 && ChainShaped(c) && TraceAddressable(trace) && ChainWellFormed(c)
    ensures ChainWellFormed(Replay(c, trace))
    decreases |trace|
  {
    if |trace| > 0 {
      var init := trace[..|trace| - 1];
      var a := trace[|trace| - 1];
      ReplayKeepsWellFormed(c, init);
      var before := Replay(c, init);
      if a.operation == "r" {
        ReadKeepsWellFormed(before, a.address);
      } else if a.operation == "w" {
        WriteKeepsWellFormed(before, a.address);
      }
    }
  }

  /** An L1 level followed by an L2 level. */
  predicate L1ThenL2(c: seq<Level>)
  {
    |c| == 2 && c[0].config.kind == WriteAllocate && c[1].config.kind == AllocateDirty
  }

  lemma SameShapeKinds(c: seq<Level>, r: seq<Level>)
    requires L1ThenL2(c) && SameShape(c, r)
    ensures L1ThenL2(r)
  {
    SameConfigsAt(c, r, 0);
    SameConfigsAt(c, r, 1);
  }

  /**
   * In an L1-then-L2 hierarchy every access keeps the L2 counters in step with the L1
   * counters: the L2 level is read once per L1 miss and written once per L1 write-back.
   */
  lemma {:induction false} ReplayKeepsBalanced(c: seq<Level>, trace: seq<Access>)
    requires ChainShaped(c) && L1ThenL2(c) && Balanced(c) && TraceAddressable(trace)
    ensures L1ThenL2(Replay(c, trace)) && Balanced(Replay(c, trace))
    decreases |trace|
  {
    if |trace| > 0 {
      var init := trace[..|trace| - 1];
      var a := trace[|trace| - 1];
      ReplayKeepsBalanced(c, init);
      var before := Replay(c, init);
      if a.operation == "r" {
        ReadKeepsBalanced(before, a.address);
      } else if a.operation == "w" {
        L1WriteKeepsBalanced(before, a.address);
      }
      SameShapeKinds(before, Replay(c, trace));
    }
  }

  /**
   * The levels `create_caches` builds: an L1 level, and an L2 level exactly when
   * `l2_size > 0`; both have the block size and the two policies.
   */
  function InitialLevels(blockSize: nat, l1Size: nat, l1Assoc: nat, l2Size: nat, l2Assoc: nat,
                         replacementPolicy: int, inclusionProperty: int): (c: seq<Level>)
    requires ValidGeometry(Geometry(l1Assoc, blockSize, l1Size))
    requires l2Size > 0 ==> ValidGeometry(Geometry(l2Assoc, blockSize, l2Size))
    ensures ChainShaped(c)
  {
    var l1 := InitialLevel(NewConfig(Geometry(l1Assoc, blockSize, l1Size), replacementPolicy, inclusionProperty, KindOf(1)));
    if l2Size > 0 then
      var l2 := InitialLevel(NewConfig(Geometry(l2Assoc, blockSize, l2Size), replacementPolicy, inclusionProperty, KindOf(2)));
      ConsChainShaped(l2, []);
      ConsChainShaped(l1, [l2]);
      [l1, l2]
    else
      ConsChainShaped(l1, []);
      [l1]
  }

  /**
   * `create_caches`: two levels exactly when `l2_size > 0`; the L1 level has the L1 size
   * and associativity and the L1 write, the L2 level the L2 size and associativity and
   * the L2 write; both share the block size and the policies; every counter starts at
   * zero and every level is well-formed; two levels start balanced.
   */
  lemma InitialLevelsFacts(blockSize: nat, l1Size: nat, l1Assoc: nat, l2Size: nat, l2Assoc: nat,
                           replacementPolicy: int, inclusionProperty: int)
    requires ValidGeometry(Geometry(l1Assoc, blockSize, l1Size))
    requires l2Size > 0 ==> ValidGeometry(Geometry(l2Assoc, blockSize, l2Size))
    ensures var c := InitialLevels(blockSize, l1Size, l1Assoc, l2Size, l2Assoc, replacementPolicy, inclusionProperty);
      |c| == (if l2Size > 0 then 2 else 1) &&
      c[0].config.geometry == Geometry(l1Assoc, blockSize, l1Size) && c[0].config.kind == WriteAllocate &&
      (l2Size > 0 ==> c[1].config.geometry == Geometry(l2Assoc, blockSize, l2Size) && c[1].config.kind == AllocateDirty) &&
      (forall i :: 0 <= i < |c| ==>
         c[i].config.replacementPolicy == replacementPolicy && c[i].config.inclusionProperty == inclusionProperty &&
         c[i].config.geometry.blockSize == blockSize &&
         c[i].sequenceCounter == 0 && c[i].readHits == 0 && c[i].readMisses == 0 &&
         c[i].writeHits == 0 && c[i].writeMisses == 0 && c[i].writeBacks == 0) &&
      ChainWellFormed(c) &&
      (l2Size > 0 ==> L1ThenL2(c) && Balanced(c))
  {
    var c := InitialLevels(blockSize, l1Size, l1Assoc, l2Size, l2Assoc, replacementPolicy, inclusionProperty);
    InitialLevelEmpty(c[0].config);
    if l2Size > 0 {
      InitialLevelEmpty(c[1].config);
    }
  }

  /**
   * A whole run of a two-level simulation: every level stays well-formed, the L2 level
   * never counts a write miss, and the total memory traffic is the L2 read misses plus
   * the L2 write-backs (plus the L1 direct write-backs when inclusive).
   */
  lemma TwoLevelRun(blockSize: nat, l1Size: nat, l1Assoc: nat, l2Size: nat, l2Assoc: nat,
                    replacementPolicy: int, inclusionProperty: int, trace: seq<Access>, l1DirectWriteBacks: nat)
    requires ValidGeometry(Geometry(l1Assoc, blockSize, l1Size))
    requires l2Size > 0 && ValidGeometry(Geometry(l2Assoc, blockSize, l2Size))
    requires TraceAddressable(trace)
    ensures var c := Replay(InitialLevels(blockSize, l1Size, l1Assoc, l2Size, l2Assoc, replacementPolicy, inclusionProperty), trace);
      |c| == 2 && ChainWellFormed(c) && c[1].writeMisses == 0 &&
      Measure(c, inclusionProperty, l1DirectWriteBacks).totalMemoryTraffic ==
        c[1].readMisses + c[1].writeBacks + (if inclusionProperty == 1 then l1DirectWriteBacks else 0)
  {
    var c0 := InitialLevels(blockSize, l1Size, l1Assoc, l2Size, l2Assoc, replacementPolicy, inclusionProperty);
    InitialLevelsFacts(blockSize, l1Size, l1Assoc, l2Size, l2Assoc, replacementPolicy, inclusionProperty);
    ReplayKeepsWellFormed(c0, trace);
    ReplayKeepsBalanced(c0, trace);
  }

  class Simulator {
    const blockSize: nat
    const l1Size: nat
    const l1Assoc: nat
    const l2Size: nat
    const l2Assoc: nat
    const replacementPolicy: int
    const inclusionProperty: int
    var cacheHierarchy: CacheHierarchy?

    /** `Simulator(...)`: the configuration, no hierarchy yet. */
    constructor (blockSize: nat, l1Size: nat, l1Assoc: nat, l2Size: nat, l2Assoc: nat,
                 replacementPolicy: int, inclusionProperty: int)
      ensures this.blockSize == blockSize && this.l1Size == l1Size && this.l1Assoc == l1Assoc
      ensures this.l2Size == l2Size && this.l2Assoc == l2Assoc
      ensures this.replacementPolicy == replacementPolicy && this.inclusionProperty == inclusionProperty
      ensures cacheHierarchy == null
    {
      this.blockSize := blockSize;
      this.l1Size := l1Size;
      this.l1Assoc := l1Assoc;
      this.l2Size := l2Size;
      this.l2Assoc := l2Assoc;
      this.replacementPolicy := replacementPolicy;
      this.inclusionProperty := inclusionProperty;
      cacheHierarchy := null;
    }

    /** `create_caches`: a new hierarchy with the levels InitialLevels describes. */
    method CreateCaches()
      requires ValidGeometry(Geometry(l1Assoc, blockSize, l1Size))
      requires l2Size > 0 ==> ValidGeometry(Geometry(l2Assoc, blockSize, l2Size))
      modifies this
      ensures cacheHierarchy != null && fresh(cacheHierarchy) && fresh(cacheHierarchy.Repr) && cacheHierarchy.Valid()
      ensures cacheHierarchy.replacementPolicy == replacementPolicy && cacheHierarchy.inclusionProperty == inclusionProperty
      ensures cacheHierarchy.blockSize == blockSize
      ensures cacheHierarchy.Levels() ==
        InitialLevels(blockSize, l1Size, l1Assoc, l2Size, l2Assoc, replacementPolicy, inclusionProperty)
    {
      var h := new CacheHierarchy(replacementPolicy, inclusionProperty, blockSize);
      h.CreateCache(1, l1Size, l1Assoc);
      if l2Size > 0 {
        h.CreateCache(2, l2Size, l2Assoc);
      }
      cacheHierarchy := h;
    }

    /** The body of `run`'s loop: `r` reads, `w` writes, any other code does nothing. */
    method Dispatch(access: Access)
      requires cacheHierarchy != null && this !in cacheHierarchy.Repr
      requires cacheHierarchy.Valid() && |cacheHierarchy.cacheLevels| > 0
      requires Addressable(access)
      modifies cacheHierarchy.Repr - {cacheHierarchy}
      ensures cacheHierarchy.Valid() && cacheHierarchy.Repr == old(cacheHierarchy.Repr)
      ensures cacheHierarchy.cacheLevels == old(cacheHierarchy.cacheLevels)
      ensures cacheHierarchy.Levels() == Step(old(cacheHierarchy.Levels()), access)
    {
      if access.operation == "r" {
        cacheHierarchy.Read(access.address);
      } else if access.operation == "w" {
        cacheHierarchy.Write(access.address);
      }
    }

    /** `run`: each access of the trace in order; `r` reads, `w` writes, other codes are skipped. */
    method Run(trace: seq<Access>)
      requires cacheHierarchy != null && this !in cacheHierarchy.Repr
      requires cacheHierarchy.Valid() && |cacheHierarchy.cacheLevels| > 0
      requires TraceAddressable(trace)
      modifies cacheHierarchy.Repr - {cacheHierarchy}
      ensures cacheHierarchy.Valid() && cacheHierarchy.Repr == old(cacheHierarchy.Repr)
      ensures cacheHierarchy.cacheLevels == old(cacheHierarchy.cacheLevels)
      ensures cacheHierarchy.Levels() == Replay(old(cacheHierarchy.Levels()), trace)
    {
      var h := cacheHierarchy;
      ghost var start := h.Levels();
      var k := 0;
      PrefixAddressable(trace, 0);
      while k < |trace|
        invariant k <= |trace| && TraceAddressable(trace[..k])
        invariant cacheHierarchy == h
        invariant h.Valid() && h.Repr == old(h.Repr) && h.cacheLevels == old(h.cacheLevels)
        invariant h.Levels() == Replay(start, trace[..k])
      {
        ReplayPrefix(start, trace, k);
        Dispatch(trace[k]);
        k := k + 1;
      }
      assert trace[..k] == trace;
    }
  }
}
