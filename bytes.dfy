/** Byte-level arithmetic: big-endian fields as struct.pack/unpack_from lay them out, and byte sums. */
module Bytes {
  /** An unsigned 8-bit value, as the elements of a Python `bytes` object. */
  type byte = x: int | 0 <= x < 0x100

  function Pow2(n: nat): (r: nat)
    ensures r >= 1
  {
    if n == 0 then 1 else 2 * Pow2(n - 1)
  }

  /** struct.pack('>H', x) */
  function BE16(x: int): (s: seq<byte>)
    requires 0 <= x < 0x1_0000
  {
    [x / 0x100, x % 0x100]
  }

  /** struct.pack('>I', x) */
  function BE32(x: int): (s: seq<byte>)
    requires 0 <= x < 0x1_0000_0000
  {
    BE16(x / 0x1_0000) + BE16(x % 0x1_0000)
  }

  /** struct.unpack_from('>H', s, off), for a buffer long enough */
  function ReadBE16(s: seq<byte>, off: nat): (x: int)
    requires off + 2 <= |s|
    ensures 0 <= x < 0x1_0000
  {
    (s[off] as int) * 0x100 + s[off + 1]
  }

  /** struct.unpack_from('>I', s, off), for a buffer long enough */
  function ReadBE32(s: seq<byte>, off: nat): (x: int)
    requires off + 4 <= |s|
    ensures 0 <= x < 0x1_0000_0000
  {
    ReadBE16(s, off) * 0x1_0000 + ReadBE16(s, off + 2)
  }

  /** Reading back a packed 16-bit field gives the packed value, and packing a read field gives its bytes. */
  lemma BE16RoundTrip(x: int, s: seq<byte>, off: nat)
    requires 0 <= x < 0x1_0000
    requires off + 2 <= |s|
    ensures ReadBE16(BE16(x), 0) == x
    ensures BE16(ReadBE16(s, off)) == s[off..off + 2]
  {
  }

  /** Reading back a packed 32-bit field gives the packed value, and packing a read field gives its bytes. */
  lemma BE32RoundTrip(x: int, s: seq<byte>, off: nat)
    requires 0 <= x < 0x1_0000_0000
    requires off + 4 <= |s|
    ensures ReadBE32(BE32(x), 0) == x
    ensures BE32(ReadBE32(s, off)) == s[off..off + 4]
  {
    BE32ReadBack(x);
    BE32Repack(s, off);
  }

  lemma BE32ReadBack(x: int)
    requires 0 <= x < 0x1_0000_0000
    ensures ReadBE32(BE32(x), 0) == x
  {
    var hi, lo := x / 0x1_0000, x % 0x1_0000;
    assert ReadBE16(BE16(hi), 0) == hi && ReadBE16(BE16(lo), 0) == lo by {
      BE16RoundTrip(hi, [0, 0], 0);
      BE16RoundTrip(lo, [0, 0], 0);
    }
    assert ReadBE32(BE32(x), 0) == ReadBE16(BE16(hi), 0) * 0x1_0000 + ReadBE16(BE16(lo), 0);
  }

  lemma BE32Repack(s: seq<byte>, off: nat)
    requires off + 4 <= |s|
    ensures BE32(ReadBE32(s, off)) == s[off..off + 4]
  {
    var h, l := ReadBE16(s, off), ReadBE16(s, off + 2);
    var x := h * 0x1_0000 + l;
    assert x / 0x1_0000 == h && x % 0x1_0000 == l;
    assert BE16(h) == s[off..off + 2] && BE16(l) == s[off + 2..off + 4] by {
      BE16RoundTrip(0, s, off);
      BE16RoundTrip(0, s, off + 2);
    }
  }

  /** A '>H' field read where BE16(x) was written gives x back. */
  lemma ReadBE16At(s: seq<byte>, off: nat, x: int)
    requires 0 <= x < 0x1_0000 && off + 2 <= |s| && s[off..off + 2] == BE16(x)
    ensures ReadBE16(s, off) == x
  {
    BE16RoundTrip(x, s, off);
    assert s[off] == BE16(x)[0] && s[off + 1] == BE16(x)[1];
  }

  /** A '>I' field read where BE32(x) was written gives x back. */
  lemma ReadBE32At(s: seq<byte>, off: nat, x: int)
    requires 0 <= x < 0x1_0000_0000 && off + 4 <= |s| && s[off..off + 4] == BE32(x)
    ensures ReadBE32(s, off) == x
  {
    BE32ReadBack(x);
    var b := BE32(x);
    assert s[off] == b[0] && s[off + 1] == b[1] && s[off + 2] == b[2] && s[off + 3] == b[3];
    assert ReadBE16(s, off) == ReadBE16(b, 0) && ReadBE16(s, off + 2) == ReadBE16(b, 2);
  }

  /** Python's sum() over a bytes object. */
  function Sum(s: seq<byte>): nat
  {
    if s == [] then 0 else s[0] + Sum(s[1..])
  }

  lemma {:induction false} SumConcat(a: seq<byte>, b: seq<byte>)
    ensures Sum(a + b) == Sum(a) + Sum(b)
  {
    if a == [] {
      assert a + b == b;
    } else {
      assert (a + b)[1..] == a[1..] + b;
      SumConcat(a[1..], b);
    }
  }

  /** `n` zero bytes. */
  function Zeros(n: nat): (z: seq<byte>)
    ensures |z| == n && forall i :: 0 <= i < n ==> z[i] == 0
  {
    if n == 0 then [] else Zeros(n - 1) + [0]
  }

  function Min(a: int, b: int): int { if a <= b then a else b }
}
