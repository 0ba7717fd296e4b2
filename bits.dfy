/** Python's bitwise operators on non-negative integers, and the bit test built on them (InstaxLink.py:177-178). */
module Bits {
  import opened Bytes

  /** Python's `a & b` for non-negative operands, one bit position at a time. */
  function And(a: nat, b: nat): (r: nat)
    ensures r <= a && r <= b
    decreases a
  {
    if a == 0 || b == 0 then 0
    else 2 * And(a / 2, b / 2) + (if a % 2 == 1 && b % 2 == 1 then 1 else 0)
  }

  /** Python's `a >> k`. */
  function Shr(a: nat, k: nat): nat
  {
    if k == 0 then a else Shr(a / 2, k - 1)
  }

  /** isKthBitSet(byte, pos): ((1 << pos) & byte) >= 1 */
  predicate IsKthBitSet(b: nat, k: nat)
  {
    And(Pow2(k), b) >= 1
  }

  /** Bit k of b: the reference definition by division. */
  function Bit(b: nat, k: nat): (r: nat)
    ensures r <= 1
  {
    (b / Pow2(k)) % 2
  }

  /** Euclidean division is determined by quotient and remainder. */
  lemma DivModUnique(a: int, m: int, q: int, r: int)
    requires m > 0 && 0 <= r < m && a == m * q + r
    ensures a / m == q && a % m == r
  {
    var q', r' := a / m, a % m;
    assert a == m * q' + r' && 0 <= r' < m;
    assert m * (q' - q) == r - r';
    if q' - q >= 1 {
      MulAtLeast(m, q' - q);
    } else if q - q' >= 1 {
      MulAtLeast(m, q - q');
    }
  }

  lemma MulAtLeast(m: int, d: int)
    requires m > 0 && d >= 1
    ensures m * d >= m
  {
  }

  lemma DivHalf(b: nat, m: nat)
    requires m >= 1
    ensures (b / 2) / m == b / (2 * m)
  {
    var h := b / 2;
    var q, r := h / m, h % m;
    assert h == m * q + r && 0 <= r < m;
    assert b == 2 * h + b % 2;
    assert b == (2 * m) * q + (2 * r + b % 2);
    DivModUnique(b, 2 * m, q, 2 * r + b % 2);
  }

  /** Shifting right by k divides by 2^k. */
  lemma {:induction false} ShrDiv(a: nat, k: nat)
    ensures Shr(a, k) == a / Pow2(k)
  {
    if k > 0 {
      ShrDiv(a / 2, k - 1);
      DivHalf(a, Pow2(k - 1));
    }
  }

  /** isKthBitSet agrees with the k-th binary digit: `(b >> k) & 1 == 1`. */
  lemma {:induction false} KthBit(b: nat, k: nat)
    ensures IsKthBitSet(b, k) <==> Bit(b, k) == 1
  {
    if k == 0 {
      assert Pow2(0) == 1;
    } else if b != 0 {
      var p := Pow2(k);
      assert p == 2 * Pow2(k - 1);
      assert And(p, b) == 2 * And(Pow2(k - 1), b / 2);
      KthBit(b / 2, k - 1);
      DivHalf(b, Pow2(k - 1));
    }
  }

  /** The remainder by 2m from the lowest bit and the remainder by m of the rest. */
  lemma ModDouble(x: nat, m: nat)
    requires m >= 1
    ensures x % (2 * m) == 2 * ((x / 2) % m) + x % 2
  {
    var h := x / 2;
    var q, r := h / m, h % m;
    assert h == m * q + r && 0 <= r < m;
    assert x == 2 * h + x % 2;
    assert x == (2 * m) * q + (2 * r + x % 2);
    DivModUnique(x, 2 * m, q, 2 * r + x % 2);
  }

  /** `x & 1` is the lowest bit of x. */
  lemma Mask1(x: nat)
    ensures And(x, 1) == x % 2
  {
  }

  /** `x & 3` keeps the two lowest bits. */
  lemma Mask3(x: nat)
    ensures And(x, 3) == x % 4
  {
    if x != 0 {
      assert And(x, 3) == 2 * And(x / 2, 1) + x % 2;
      Mask1(x / 2);
      ModDouble(x, 2);
    }
  }

  /** `x & 7` keeps the three lowest bits. */
  lemma Mask7(x: nat)
    ensures And(x, 7) == x % 8
  {
    if x != 0 {
      assert And(x, 7) == 2 * And(x / 2, 3) + x % 2;
      Mask3(x / 2);
      ModDouble(x, 4);
    }
  }

  /** `x & 15` keeps the low nibble. */
  lemma Mask15(x: nat)
    ensures And(x, 15) == x % 16
  {
    if x != 0 {
      assert And(x, 15) == 2 * And(x / 2, 7) + x % 2;
      Mask7(x / 2);
      ModDouble(x, 8);
    }
  }

  lemma Pow2Values()
    ensures Pow2(0) == 1 && Pow2(1) == 2 && Pow2(2) == 4 && Pow2(3) == 8
    ensures Pow2(4) == 16 && Pow2(5) == 32 && Pow2(6) == 64 && Pow2(7) == 128
  {
    assert Pow2(1) == 2;
    assert Pow2(2) == 4;
    assert Pow2(3) == 8;
    assert Pow2(4) == 16;
    assert Pow2(5) == 32;
    assert Pow2(6) == 64;
  }

  /** `x & 15`, `x & 7` as remainders. */
  lemma Masks(x: nat)
    ensures And(x, 15) == x % 16 && And(x, 7) == x % 8
  {
    Mask15(x);
    Mask7(x);
  }

  /** A byte split into its low nibble, the next three bits and the top bit. */
  lemma SplitByte(b: nat)
    requires b < 256
    ensures b / 128 == (b / 16) / 8 < 2
    ensures b == b % 16 + 16 * ((b / 16) % 8) + 128 * (b / 128)
  {
    var q := b / 16;
    DivModUnique(b, 16, q, b % 16);
    DivModUnique(q, 8, q / 8, q % 8);
    assert b == 128 * (q / 8) + (16 * (q % 8) + b % 16);
    DivModUnique(b, 128, q / 8, 16 * (q % 8) + b % 16);
  }

  /** The low three bits of a number, one binary digit at a time. */
  lemma LowThreeBits(b: nat)
    ensures b % 8 == b % 2 + 2 * ((b / 2) % 2) + 4 * ((b / 4) % 2)
  {
    ModDouble(b, 4);
    ModDouble(b / 2, 2);
    assert (b / 2) / 2 == b / 4;
  }

  /** The masks and shifts of a film byte as remainders and quotients. */
  lemma FilmFields(b: nat)
    requires b < 256
    ensures And(b, 15) == b % 16 && And(Shr(b, 4), 7) == (b / 16) % 8
    ensures IsKthBitSet(b, 7) <==> b / 128 == 1
  {
    Pow2Values();
    Masks(b);
    ShrDiv(b, 4);
    Masks(b / 16);
    TopBit(b);
  }

  lemma TopBit(b: nat)
    requires b < 256
    ensures IsKthBitSet(b, 7) <==> b / 128 == 1
  {
    KthBit(b, 7);
    var p := Pow2(7);
    assert p == 128 by { Pow2Values(); }
    assert Bit(b, 7) == (b / 128) % 2;
    SplitByte(b);
  }

  /** The flags and the high nibble of a status byte as binary digits. */
  lemma StatusFields(b: nat)
    requires b < 256
    ensures And(Shr(b, 4), 15) == b / 16
    ensures IsKthBitSet(b, 0) <==> b % 2 == 1
    ensures IsKthBitSet(b, 1) <==> (b / 2) % 2 == 1
    ensures IsKthBitSet(b, 2) <==> (b / 4) % 2 == 1
  {
    Pow2Values();
    ShrDiv(b, 4);
    assert Shr(b, 4) == b / 16 < 16;
    Masks(b / 16);
    DivModUnique(b / 16, 16, 0, b / 16);
    KthBit(b, 0);
    assert Bit(b, 0) == b % 2;
    KthBit(b, 1);
    assert Bit(b, 1) == (b / 2) % 2;
    KthBit(b, 2);
    assert Bit(b, 2) == (b / 4) % 2;
  }
}
