/**
 * Fixed-width binary strings, the representation in which
 * `Cache.get_address_components` (src/caches/cache.py) slices an address.
 * A string is a sequence of bits, most significant first.
 */
module Bits {
  /** 2 to the power n. */
  function Pow2(n: nat): (r: nat)
    ensures r >= 1
  {
    if n == 0 then 1 else 2 * Pow2(n - 1)
  }

  lemma {:induction false} Pow2Add(a: nat, b: nat)
    ensures Pow2(a + b) == Pow2(a) * Pow2(b)
  {
    if a > 0 {
      Pow2Add(a - 1, b);
    }
  }

  /** The n low-order bits of x, as `bin(x)[2:].zfill(n)` writes them when x < 2^n. */
  function ToBits(x: nat, n: nat): (s: seq<bool>)
    ensures |s| == n
  {
    if n == 0 then [] else ToBits(x / 2, n - 1) + [x % 2 == 1]
  }

  /**
   * The unsigned value of a non-empty bit string, as `int(s, 2)` reads it; it fits in
   * as many bits as the string has. Python's `int` refuses the empty string, for which
   * this gives 0.
   */
  function FromBits(s: seq<bool>): (r: nat)
    ensures r < Pow2(|s|)
  {
    if |s| == 0 then 0 else 2 * FromBits(s[..|s| - 1]) + (if s[|s| - 1] then 1 else 0)
  }

  /** Concatenating bit strings shifts the left part up by the width of the right part. */
  lemma {:induction false} FromBitsAppend(a: seq<bool>, b: seq<bool>)
    ensures FromBits(a + b) == FromBits(a) * Pow2(|b|) + FromBits(b)
  {
    if |b| == 0 {
      assert a + b == a;
    } else {
      var b' := b[..|b| - 1];
      assert (a + b)[..|a + b| - 1] == a + b';
      FromBitsAppend(a, b');
      var hi, p := FromBits(a), Pow2(|b'|);
      var bit := if b[|b| - 1] then 1 else 0;
      assert FromBits(a + b) == 2 * (hi * p + FromBits(b')) + bit;
      assert FromBits(b) == 2 * FromBits(b') + bit;
      assert Pow2(|b|) == 2 * p;
      MulDouble(hi, p);
    }
  }

  lemma MulDouble(x: nat, y: nat)
    ensures x * (2 * y) == 2 * (x * y)
  {
  }

  lemma {:induction false} MulAtLeast(k: nat, d: nat)
    requires k >= 1
    ensures k * d >= d
  {
    if k > 1 {
      MulAtLeast(k - 1, d);
      assert k * d == (k - 1) * d + d;
    }
  }

  /** Quotient and remainder are the only pair that rebuilds x with a remainder below d. */
  lemma DivModUnique(x: nat, d: nat, q: nat, r: nat)
    requires d > 0 && r < d && x == q * d + r
    ensures x / d == q && x % d == r
  {
    var q', r' := x / d, x % d;
    assert x == q' * d + r';
    if q' < q {
      assert q * d == q' * d + (q - q') * d;
      MulAtLeast(q - q', d);
    } else if q' > q {
      assert q' * d == q * d + (q' - q) * d;
      MulAtLeast(q' - q, d);
    }
  }

  /** Reading back the n low-order bits of a value below 2^n gives the value. */
  lemma {:induction false} FromToBits(x: nat, n: nat)
    requires x < Pow2(n)
    ensures FromBits(ToBits(x, n)) == x
  {
    if n > 0 {
      var s := ToBits(x, n);
      assert s[..n - 1] == ToBits(x / 2, n - 1);
      FromToBits(x / 2, n - 1);
    }
  }

  /** Halving and then dividing by m is dividing by 2m. */
  lemma DivDouble(x: nat, m: nat)
    requires m >= 1
    ensures (x / 2) / m == x / (2 * m)
  {
    var q, r := (x / 2) / m, (x / 2) % m;
    assert x / 2 == q * m + r;
    assert x == q * (2 * m) + (2 * r + x % 2);
    DivModUnique(x, 2 * m, q, 2 * r + x % 2);
  }

  /** Bit k from the right of the n-bit string of x is bit k of x. */
  lemma {:induction false} BitAt(x: nat, n: nat, k: nat)
    requires k < n
    ensures ToBits(x, n)[n - 1 - k] == ((x / Pow2(k)) % 2 == 1)
  {
    if k > 0 {
      BitAt(x / 2, n - 1, k - 1);
      DivDouble(x, Pow2(k - 1));
    }
  }
}
