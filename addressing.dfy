/**
 * Cache geometry and the address split of `Cache.__init__` and
 * `Cache.get_address_components` (src/caches/cache.py).
 *
 * Widths that the source computes with floating-point `log2` are natural numbers
 * here, under the condition that the set count and the block size are powers of two.
 * Addresses and tags are numbers: the tag's hexadecimal text is canonical, so two tags
 * are equal exactly when their values are.
 */
module Addressing {
  import opened Bits

  const ADDRESS_BITS: nat := 32
  /** How many addresses the 32-bit space holds. */
  const ADDRESS_LIMIT: nat := 0x1_0000_0000

  lemma AddressLimit()
    ensures Pow2(ADDRESS_BITS) == ADDRESS_LIMIT
  {
    assert Pow2(1) == 2;
    Pow2Add(1, 1);
    Pow2Add(2, 2);
    Pow2Add(4, 4);
    Pow2Add(8, 8);
    Pow2Add(16, 16);
  }

  predicate IsPowerOfTwo(n: nat)
  {
    n == 1 || (n >= 2 && n % 2 == 0 && IsPowerOfTwo(n / 2))
  }

  /** The exponent of a power of two. */
  function Log2(n: nat): (k: nat)
    requires IsPowerOfTwo(n)
    ensures Pow2(k) == n
  {
    if n == 1 then 0 else 1 + Log2(n / 2)
  }

  datatype Geometry = Geometry(associativity: nat, blockSize: nat, cacheSize: nat)

  /**
   * `sets = cache_size // (associativity * block_size)`: the most sets of
   * `associativity` blocks that fit in the cache size.
   */
  function Sets(g: Geometry): (n: nat)
    requires g.associativity >= 1 && g.blockSize >= 1
    ensures n * (g.associativity * g.blockSize) <= g.cacheSize < n * (g.associativity * g.blockSize) + g.associativity * g.blockSize
  {
    FloorDivBounds(g.cacheSize, g.associativity * g.blockSize);
    g.cacheSize / (g.associativity * g.blockSize)
  }

  /** A geometry for which the source's widths are whole numbers that fit in an address. */
  predicate ValidGeometry(g: Geometry)
  {
    g.associativity >= 1 && g.blockSize >= 1 && IsPowerOfTwo(g.blockSize) &&
    IsPowerOfTwo(Sets(g)) && Log2(Sets(g)) + Log2(g.blockSize) <= ADDRESS_BITS
  }

  /** `log2(block_size)`. */
  function OffsetBits(g: Geometry): (k: nat)
    requires ValidGeometry(g)
    ensures Pow2(k) == g.blockSize
  {
    Log2(g.blockSize)
  }

  /** `index_bits = log2(sets)`: exactly enough bits to number the sets. */
  function IndexBits(g: Geometry): (k: nat)
    requires ValidGeometry(g)
    ensures Pow2(k) == Sets(g)
  {
    Log2(Sets(g))
  }

  /** `tag_bits = ADDRESS_BITS - index_bits - log2(block_size)`: the rest of the address. */
  function TagBits(g: Geometry): (k: nat)
    requires ValidGeometry(g)
    ensures k + IndexBits(g) + OffsetBits(g) == ADDRESS_BITS
  {
    ADDRESS_BITS - IndexBits(g) - OffsetBits(g)
  }

  /**
   * The three fields tile the 32-bit address, the index and offset widths are the exact
   * exponents of the set count and the block size, and the sets times the ways times
   * the block size fit in the cache size.
   */
  lemma GeometryWidths(g: Geometry)
    requires ValidGeometry(g)
    ensures TagBits(g) + IndexBits(g) + OffsetBits(g) == ADDRESS_BITS
    ensures Pow2(IndexBits(g)) == Sets(g) && Pow2(OffsetBits(g)) == g.blockSize
    ensures Sets(g) * (g.associativity * g.blockSize) <= g.cacheSize
  {
  }

  lemma FloorDivBounds(x: nat, d: nat)
    requires d >= 1
    ensures (x / d) * d <= x < (x / d) * d + d
  {
  }

  /**
   * `get_address_components`: the address as a 32-character binary string, the
   * leading `tag_bits` characters read as the tag and the next `index_bits` characters
   * read in base 2 as the set index.
   *
   * Deliberate deviation: line 140 of cache.py reads the index characters with
   * `int(index)`, i.e. in base 10; this model reads them in base 2, the evident intent
   * (LiteralIndex below is the line as written).
   */
  function AddressComponents(tagBits: nat, indexBits: nat, address: nat): (r: (nat, nat))
    requires tagBits + indexBits <= ADDRESS_BITS && address < ADDRESS_LIMIT
    ensures r.0 < Pow2(tagBits) && r.1 < Pow2(indexBits)
  {
    AddressLimit();
    var bits := ToBits(address, ADDRESS_BITS);
    (FromBits(bits[..tagBits]), FromBits(bits[tagBits..tagBits + indexBits]))
  }

  /**
   * With the block number `address / block_size`, the index is the block number modulo
   * the set count and the tag is the rest: disjoint, consecutive bit fields.
   */
  lemma AddressSplit(g: Geometry, address: nat)
    requires ValidGeometry(g) && address < ADDRESS_LIMIT
    ensures AddressComponents(TagBits(g), IndexBits(g), address).0 == (address / g.blockSize) / Sets(g)
    ensures AddressComponents(TagBits(g), IndexBits(g), address).1 == (address / g.blockSize) % Sets(g)
  {
    var tag, index, offset, sets, size := AddressFields(g, address);
    FieldArithmetic(address, tag, index, offset, sets, size);
  }

  /** The address is the concatenation of its tag, index and offset fields. */
  lemma AddressFields(g: Geometry, address: nat) returns (tag: nat, index: nat, offset: nat, sets: nat, size: nat)
    requires ValidGeometry(g) && address < ADDRESS_LIMIT
    ensures AddressComponents(TagBits(g), IndexBits(g), address) == (tag, index)
    ensures sets == Sets(g) && size == g.blockSize
    ensures sets >= 1 && size >= 1 && index < sets && offset < size
    ensures address == (tag * sets + index) * size + offset
  {
    GeometryWidths(g);
    tag, index, offset := BitFields(TagBits(g), IndexBits(g), address);
    sets, size := Sets(g), g.blockSize;
  }

  /** The same split on widths alone: leading, middle and trailing bits of the address. */
  lemma BitFields(t: nat, i: nat, address: nat) returns (tag: nat, index: nat, offset: nat)
    requires t + i <= ADDRESS_BITS && address < ADDRESS_LIMIT
    ensures AddressComponents(t, i, address) == (tag, index)
    ensures index < Pow2(i) && offset < Pow2(ADDRESS_BITS - t - i)
    ensures address == (tag * Pow2(i) + index) * Pow2(ADDRESS_BITS - t - i) + offset
  {
    AddressLimit();
    var bits := ToBits(address, ADDRESS_BITS);
    var hi, mid, lo := bits[..t], bits[t..t + i], bits[t + i..];
    assert AddressComponents(t, i, address) == (FromBits(hi), FromBits(mid));
    assert FromBits(hi + mid + lo) == address by {
      assert bits == hi + mid + lo;
      FromToBits(address, ADDRESS_BITS);
    }
    ThreeFields(hi, mid, lo, address);
    tag, index, offset := FromBits(hi), FromBits(mid), FromBits(lo);
  }

  lemma ThreeFields(hi: seq<bool>, mid: seq<bool>, lo: seq<bool>, value: nat)
    requires FromBits(hi + mid + lo) == value
    ensures value == (FromBits(hi) * Pow2(|mid|) + FromBits(mid)) * Pow2(|lo|) + FromBits(lo)
  {
    FromBitsAppend(hi + mid, lo);
    FromBitsAppend(hi, mid);
  }

  lemma FieldArithmetic(address: nat, tag: nat, index: nat, offset: nat, sets: nat, size: nat)
    requires sets >= 1 && size >= 1 && index < sets && offset < size
    requires address == (tag * sets + index) * size + offset
    ensures tag == (address / size) / sets && index == (address / size) % sets
  {
    DivModUnique(address, size, tag * sets + index, offset);
    DivModUnique(address / size, sets, tag, index);
  }

  /** `int(s)` on a string of '0' and '1' characters: the digits read in base 10. */
  function DecimalValue(s: seq<bool>): nat
  {
    if |s| == 0 then 0 else 10 * DecimalValue(s[..|s| - 1]) + (if s[|s| - 1] then 1 else 0)
  }

  /**
   * The set index as line 140 of cache.py computes it, with `int(index)`: never below
   * the base-2 index, and past it whenever that index is 2 or more.
   */
  function LiteralIndex(g: Geometry, address: nat): (r: nat)
    requires ValidGeometry(g) && address < ADDRESS_LIMIT
    ensures var index := AddressComponents(TagBits(g), IndexBits(g), address).1;
      index <= r && (index >= 2 ==> index < r)
  {
    AddressLimit();
    var bits := ToBits(address, ADDRESS_BITS);
    var t, i := TagBits(g), IndexBits(g);
    DecimalAtLeastBinary(bits[t..t + i]);
    DecimalValue(bits[t..t + i])
  }

  /** Digits read in base 10 are worth at least as much as in base 2, and more from 2 on. */
  lemma {:induction false} DecimalAtLeastBinary(s: seq<bool>)
    ensures FromBits(s) <= DecimalValue(s)
    ensures FromBits(s) >= 2 ==> FromBits(s) < DecimalValue(s)
  {
    if |s| > 0 {
      DecimalAtLeastBinary(s[..|s| - 1]);
    }
  }

  /**
   * With 16-byte blocks in a 64-byte direct-mapped cache (4 sets), address 0x20 has
   * index bits "10". Read in base 2 that is set 2; read as written, with `int(index)`,
   * it is 10: past the last set.
   */
  lemma LiteralIndexLeavesSets()
    ensures ValidGeometry(Geometry(1, 16, 64)) && Sets(Geometry(1, 16, 64)) == 4
    ensures AddressComponents(TagBits(Geometry(1, 16, 64)), IndexBits(Geometry(1, 16, 64)), 0x20).1 == 2
    ensures LiteralIndex(Geometry(1, 16, 64), 0x20) == 10
  {
    var g, address := Geometry(1, 16, 64), 0x20;
    assert IsPowerOfTwo(4) && IsPowerOfTwo(16);
    assert Log2(4) == 2 && Log2(16) == 4;
    assert TagBits(g) == 26 && IndexBits(g) == 2;
    AddressLimit();
    var bits := ToBits(address, ADDRESS_BITS);
    BitAt(address, ADDRESS_BITS, 5);
    BitAt(address, ADDRESS_BITS, 4);
    assert bits[26..28] == [true, false];
    assert DecimalValue([true, false]) == 10;
    assert LiteralIndex(g, address) == DecimalValue(bits[26..28]);
    AddressSplit(g, address);
  }
}
