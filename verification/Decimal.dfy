/** NUL-terminated strings and decimal numbers (iscsi_utility.c, string_to_int and int_to_string). */
module Decimals {
  import opened Bytes

  const NUL: byte := 0
  const INT_MAX := 0x7fff_ffff

  // C strings: the bytes from a position up to the next NUL.

  function NulFrom(s: seq<byte>, at: nat): (i: nat)
    requires at <= |s|
    ensures at <= i <= |s| && (i < |s| ==> s[i] == NUL)
    ensures forall k :: at <= k < i ==> s[k] != NUL
    decreases |s| - at
  {
    if at == |s| || s[at] == NUL then at else NulFrom(s, at + 1)
  }

  function CString(s: seq<byte>, at: nat): (t: seq<byte>)
    requires at <= |s|
    ensures NUL !in t
  {
    s[at..NulFrom(s, at)]
  }

  predicate Terminated(s: seq<byte>, at: nat)
    requires at <= |s|
  {
    NulFrom(s, at) < |s|
  }

  lemma {:induction false} NulFromUnique(s: seq<byte>, at: nat, i: nat)
    requires at <= i < |s| && s[i] == NUL
    requires forall k :: at <= k < i ==> s[k] != NUL
    ensures NulFrom(s, at) == i
  {
    assert NulFrom(s, at) <= i;
  }

  // Decimal numbers.

  /** The value of a digit string, unbounded. */
  function Value(s: seq<byte>): int
  {
    if s == [] then 0 else 10 * Value(s[..|s| - 1]) + s[|s| - 1] as int - '0' as int
  }

  /** The int string_to_int leaves: every step wraps. */
  function ParseInt(s: seq<byte>): (v: int)
    ensures -TWO31 <= v < TWO31
  {
    if s == [] then 0 else Int32(10 * ParseInt(s[..|s| - 1]) + s[|s| - 1] as int - '0' as int)
  }

  function Digits(n: nat): seq<byte>
  {
    if n == 0 then [] else Digits(n / 10) + [n % 10 + '0' as int]
  }

  /** What int_to_string prints; a negative number comes out as the empty string. */
  function PrintInt(n: int): seq<byte>
  {
    if n == 0 then ['0' as int] else if n < 0 then [] else Digits(n)
  }

  predicate IsDigits(s: seq<byte>)
  {
    forall i :: 0 <= i < |s| ==> '0' as int <= s[i] as int <= '9' as int
  }

  /** A number as people write it: digits, no superfluous leading zero. */
  predicate Canonical(s: seq<byte>)
  {
    && s != [] && IsDigits(s)
    && (s[0] == '0' as int ==> |s| == 1)
  }

  lemma {:induction false} ParseIntIsValue(s: seq<byte>)
    ensures ParseInt(s) == Int32(Value(s))
  {
    if s != [] {
      var t := s[..|s| - 1];
      ParseIntIsValue(t);
      var d := s[|s| - 1] as int - '0' as int;
      var k := Int32Shift(Value(t));
      var m := Int32Shift(10 * Int32(Value(t)) + d);
      Int32Unique(10 * Value(t) + d, Int32(10 * Int32(Value(t)) + d), 10 * k + m);
    }
  }

  lemma {:induction false} DigitsValue(n: nat)
    ensures Value(Digits(n)) == n && IsDigits(Digits(n))
    ensures n > 0 ==> Digits(n) != [] && Digits(n)[0] != '0' as int
  {
    if n > 0 {
      DigitsValue(n / 10);
      assert Digits(n)[..|Digits(n)| - 1] == Digits(n / 10);
    }
  }

  lemma {:induction false} ValueDigits(s: seq<byte>)
    requires IsDigits(s) && (s != [] ==> s[0] != '0' as int)
    ensures Value(s) >= 0 && (s != [] ==> Value(s) > 0)
    ensures Digits(Value(s)) == s
  {
    if s != [] {
      var t := s[..|s| - 1];
      ValueDigits(t);
      assert s == t + [s[|s| - 1]];
    }
  }

  lemma {:induction false} DigitsValueNonNegative(s: seq<byte>)
    requires IsDigits(s)
    ensures Value(s) >= 0
  {
    if s != [] {
      DigitsValueNonNegative(s[..|s| - 1]);
    }
  }

  lemma {:induction false} DigitsLength(n: nat, k: nat)
    requires n < Power10(k)
    ensures |Digits(n)| <= k
  {
    if n > 0 {
      DigitsLength(n / 10, k - 1);
    }
  }

  function Power10(k: nat): (p: nat)
    ensures p > 0
  {
    if k == 0 then 1 else 10 * Power10(k - 1)
  }

  /** Printing a non-negative int and reading it back returns it, in canonical form and within the buffer. */
  lemma PrintParse(n: int)
    requires 0 <= n <= INT_MAX
    ensures ParseInt(PrintInt(n)) == n
    ensures Canonical(PrintInt(n)) && |PrintInt(n)| <= 10
  {
    ParseIntIsValue(PrintInt(n));
    Int32Fixed(n);
    if n == 0 {
      assert Value(PrintInt(0)) == 0 by { assert PrintInt(0)[..0] == []; }
    } else {
      DigitsValue(n);
      assert Power10(10) == 100_0000_0000 by { assert Power10(5) == 10_0000; }
      DigitsLength(n, 10);
    }
  }

  /** Reading a canonical number that fits an int and printing it reproduces it. */
  lemma ParsePrint(s: seq<byte>)
    requires Canonical(s) && Value(s) <= INT_MAX
    ensures 0 <= ParseInt(s) == Value(s)
    ensures PrintInt(ParseInt(s)) == s
  {
    ParseIntIsValue(s);
    DigitsValueNonNegative(s);
    Int32Fixed(Value(s));
    if s[0] == '0' as int {
      assert s == ['0' as int] && s[..0] == [];
    } else {
      ValueDigits(s);
    }
  }

  method StringToInt(a: array<byte>, at: nat) returns (val: int)
    requires at <= a.Length && Terminated(a[..], at)
    ensures val == ParseInt(CString(a[..], at))
  {
    val := 0;
    var i := at;
    ghost var end := NulFrom(a[..], at);
    while a[i] != NUL
      invariant at <= i <= end
      invariant val == ParseInt(a[at..i])
      decreases end - i
    {
      assert a[at..i + 1][..i - at] == a[at..i];
      val := Int32(10 * val + a[i] as int - '0' as int);
      i := i + 1;
    }
    assert i == end;
  }

  lemma PrintedString(b: seq<byte>, t: seq<byte>)
    requires IsDigits(t) && |t| < |b| && b[..|t|] == t && b[|t|] == NUL
    ensures Terminated(b, 0) && CString(b, 0) == t
  {
    forall k | 0 <= k < |t| ensures b[k] != NUL {
      assert b[k] == b[..|t|][k];
    }
    NulFromUnique(b, 0, |t|);
  }

  /** The first pass of int_to_string: how many digits there will be. */
  method CountDigits(s: int) returns (len: nat)
    ensures len == |Digits(Max(s, 0))|
  {
    len := 0;
    var i := s;
    while i > 0
      invariant len + |Digits(Max(i, 0))| == |Digits(Max(s, 0))|
    {
      len := len + 1;
      i := i / 10;
    }
  }

  /** The second pass: the digits themselves, last one first. */
  method FillDigits(buffer: array<byte>, s: int, n: nat)
    requires n < buffer.Length && n == |Digits(Max(s, 0))|
    modifies buffer
    ensures buffer[..n] == Digits(Max(s, 0)) && buffer[n] == NUL
  {
    ghost var all := Digits(Max(s, 0));
    var len := n;
    buffer[len] := NUL;
    var i := s;
    while i > 0
      invariant 0 <= len <= n && buffer[n] == NUL
      invariant all[..len] == Digits(Max(i, 0))
      invariant buffer[len..n] == all[len..]
    {
      ghost var was := buffer[len..n];
      len := len - 1;
      assert all[..len + 1][..len] == all[..len];
      buffer[len] := i % 10 + '0' as int;
      assert buffer[len..n] == [buffer[len]] + was;
      i := i / 10;
    }
  }

  /** int_to_string into its static buffer of 20 bytes. */
  method IntToString(buffer: array<byte>, s: int)
    requires buffer.Length == 20 && s <= INT_MAX
    modifies buffer
    ensures Terminated(buffer[..], 0) && CString(buffer[..], 0) == PrintInt(s)
  {
    if s == 0 {
      buffer[0] := '0' as int;
      buffer[1] := NUL;
      assert buffer[..][..1] == PrintInt(0);
      PrintedString(buffer[..], PrintInt(0));
      return;
    }
    PrintParse(Max(s, 0));
    var len := CountDigits(s);
    FillDigits(buffer, s, len);
    assert buffer[..][..len] == buffer[..len];
    DigitsValue(Max(s, 0));
    PrintedString(buffer[..], PrintInt(s));
  }
}
