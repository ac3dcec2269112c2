/** Bytes, C integers and the big-endian codecs (iscsi_byte.h). */
module Bytes {

  type byte = b: int | 0 <= b < 256

  const TWO32 := 0x1_0000_0000
  const TWO31 := 0x8000_0000

  predicate IsInt(v: int)
  {
    -TWO31 <= v < TWO31
  }

  /** The value a C `int` holds after any amount of wrap-around. */
  function Int32(v: int): (r: int)
    ensures IsInt(r)
  {
    var u := v % TWO32;
    if u < TWO31 then u else u - TWO32
  }

  lemma Int32Shift(v: int) returns (k: int)
    ensures Int32(v) == v + k * TWO32
  {
    k := if v % TWO32 < TWO31 then -(v / TWO32) else -(v / TWO32) - 1;
  }

  lemma Int32Unique(v: int, r: int, k: int)
    requires IsInt(r) && r == v + k * TWO32
    ensures Int32(v) == r
  {
  }

  lemma Int32Fixed(v: int)
    requires IsInt(v)
    ensures Int32(v) == v
  {
  }

  /** Wrapping early or late makes no difference. */
  lemma Int32Add(a: int, b: int)
    ensures Int32(Int32(a) + b) == Int32(a + b)
  {
    var k := Int32Shift(a);
    var m := Int32Shift(Int32(a) + b);
    Int32Unique(a + b, Int32(Int32(a) + b), k + m);
  }

  /** A C `int` counter k steps on. */
  function Advance(v: int, k: int): (r: int)
    ensures IsInt(r)
  {
    Int32(v + k)
  }

  lemma AdvanceTwice(v: int, j: int, k: int)
    ensures Advance(Advance(v, j), k) == Advance(v, j + k)
  {
    Int32Add(v + j, k);
  }

  lemma AdvanceZero(v: int)
    requires IsInt(v)
    ensures Advance(v, 0) == v
  {
  }

  function Int32Bytes(v: int): (s: seq<byte>)
    ensures |s| == 4
  {
    var u := v % TWO32;
    [u / 256 / 256 / 256, u / 256 / 256 % 256, u / 256 % 256, u % 256]
  }

  function Int32At(s: seq<byte>, at: nat): (v: int)
    requires at + 4 <= |s|
    ensures -TWO31 <= v < TWO31
  {
    Int32(((s[at] as int * 256 + s[at + 1]) * 256 + s[at + 2]) * 256 + s[at + 3])
  }

  lemma Int32RoundTrip(s: seq<byte>, at: nat, v: int)
    requires at + 4 <= |s| && s[at..at + 4] == Int32Bytes(v)
    ensures Int32At(s, at) == Int32(v)
  {
    var t := s[at..at + 4];
    assert s[at] == t[0] && s[at + 1] == t[1] && s[at + 2] == t[2] && s[at + 3] == t[3];
  }

  function Int24Bytes(v: int): (s: seq<byte>)
    ensures |s| == 3
  {
    var u := v % TWO32;
    [u / 256 / 256 % 256, u / 256 % 256, u % 256]
  }

  function Nat24At(s: seq<byte>, at: nat): (v: nat)
    requires at + 3 <= |s|
    ensures v < 0x100_0000
  {
    (s[at] as int * 256 + s[at + 1]) * 256 + s[at + 2]
  }

  lemma Nat24RoundTrip(s: seq<byte>, at: nat, v: nat)
    requires at + 3 <= |s| && s[at..at + 3] == Int24Bytes(v) && v < 0x100_0000
    ensures Nat24At(s, at) == v
  {
    var t := s[at..at + 3];
    assert s[at] == t[0] && s[at + 1] == t[1] && s[at + 2] == t[2];
    ThreeDigits(v);
  }

  lemma ThreeDigits(v: nat)
    requires v < 0x100_0000
    ensures Int24Bytes(v) == [v / 256 / 256, v / 256 % 256, v % 256]
    ensures (v / 256 / 256 * 256 + v / 256 % 256) * 256 + v % 256 == v
  {
    assert v % TWO32 == v;
    var w := v / 256;
    assert w / 256 * 256 + w % 256 == w;
    assert 0 <= w / 256 < 256;
  }

  function Int16Bytes(v: int): (s: seq<byte>)
    ensures |s| == 2
  {
    [v / 256 % 256, v % 256]
  }

  /** Bit `p`, counted from the most significant bit as RFC 3720 draws its headers. */
  predicate BitSet(b: byte, p: nat)
    requires p < 8
  {
    match p
    case 0 => b / 128 % 2 == 1
    case 1 => b / 64 % 2 == 1
    case 2 => b / 32 % 2 == 1
    case 3 => b / 16 % 2 == 1
    case 4 => b / 8 % 2 == 1
    case 5 => b / 4 % 2 == 1
    case 6 => b / 2 % 2 == 1
    case _ => b % 2 == 1
  }

  lemma TopBit(b: byte)
    ensures BitSet(b, 0) <==> b >= 128
  {
  }

  type Bits = d: seq<bool> | |d| == 8 witness [false, false, false, false, false, false, false, false]

  function Digit(on: bool): (d: int)
    ensures 0 <= d <= 1
  {
    if on then 1 else 0
  }

  function High(d: Bits): int { 8 * Digit(d[0]) + 4 * Digit(d[1]) + 2 * Digit(d[2]) + Digit(d[3]) }

  function Low(d: Bits): int { 8 * Digit(d[4]) + 4 * Digit(d[5]) + 2 * Digit(d[6]) + Digit(d[7]) }

  function BitsOf(b: byte): Bits
  {
    [BitSet(b, 0), BitSet(b, 1), BitSet(b, 2), BitSet(b, 3), BitSet(b, 4), BitSet(b, 5), BitSet(b, 6), BitSet(b, 7)]
  }

  lemma HighBits(b: byte)
    ensures b / 16 == High(BitsOf(b))
  {
    assert b / 32 == b / 16 / 2 && b / 64 == b / 32 / 2 && b / 128 == b / 64 / 2;
  }

  /** A byte is the sum of the weights of its bits. */
  lemma BitSum(b: byte)
    ensures b == 16 * High(BitsOf(b)) + Low(BitsOf(b))
  {
    HighBits(b);
    assert b / 4 == b / 2 / 2 && b / 8 == b / 4 / 2 && b / 16 == b / 8 / 2;
  }

  /** Different bits make different bytes. */
  lemma BitsUnique(c: Bits, d: Bits)
    requires 16 * High(c) + Low(c) == 16 * High(d) + Low(d)
    ensures c == d
  {
    assert High(c) == High(d) && Low(c) == Low(d);
    assert c[..4] == d[..4] && c[4..] == d[4..];
    assert c == c[..4] + c[4..] && d == d[..4] + d[4..];
  }

  /** `b` with bit `p` set to `on`. */
  function WithBit(b: byte, p: nat, on: bool): (r: byte)
    requires p < 8
    ensures BitsOf(r) == BitsOf(b)[p := on]
  {
    BitSum(b);
    var d := BitsOf(b)[p := on];
    var r := 16 * High(d) + Low(d);
    BitSum(r);
    BitsUnique(BitsOf(r), d);
    r
  }

  function Zeros(n: nat): (s: seq<byte>)
    ensures |s| == n && forall i :: 0 <= i < n ==> s[i] == 0
  {
    seq(n, i => 0)
  }

  /** `s` with the bytes from `at` on overwritten by `b`: what `memcpy(s + at, b, |b|)` leaves. */
  function Patch(s: seq<byte>, at: nat, b: seq<byte>): (r: seq<byte>)
    requires at + |b| <= |s|
    ensures |r| == |s|
    ensures forall k :: 0 <= k < |s| ==> r[k] == if at <= k < at + |b| then b[k - at] else s[k]
  {
    s[..at] + b + s[at + |b|..]
  }

  function Min(a: int, b: int): int { if a < b then a else b }

  function Max(a: int, b: int): int { if a > b then a else b }

  /** C's `(a + b - 1) / b`; for the non-negative numerators reached here it is the ceiling. */
  function DivideRoundUp(a: int, b: int): int
    requires b > 0
  {
    (a + b - 1) / b
  }

  lemma DivideRoundUpIsCeiling(a: int, b: int)
    requires b > 0
    ensures (DivideRoundUp(a, b) - 1) * b < a <= DivideRoundUp(a, b) * b
  {
  }
}
