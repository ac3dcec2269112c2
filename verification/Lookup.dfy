/** key=value text and the symbol automaton that searches it (iscsi_connection_parameter.c:134-175). */
module Lookup {
  import opened Bytes
  import opened Decimals

  datatype Option<+T> = None | Some(value: T)

  const EQUALS: byte := '=' as int
  const COMMA: byte := ',' as int

  predicate Delimiter(b: byte)
  {
    b == COMMA || b == NUL
  }

  // What a lookup means.

  function SegmentEnd(s: seq<byte>, at: nat): (i: nat)
    requires at <= |s|
    ensures at <= i <= |s| && (i < |s| ==> Delimiter(s[i]))
    ensures forall k :: at <= k < i ==> !Delimiter(s[k])
    decreases |s| - at
  {
    if at == |s| || Delimiter(s[at]) then at else SegmentEnd(s, at + 1)
  }

  function FirstEquals(s: seq<byte>, at: nat, end: nat): (i: nat)
    requires at <= end <= |s|
    ensures at <= i <= end && (i < end ==> s[i] == EQUALS)
    ensures forall k :: at <= k < i ==> s[k] != EQUALS
    decreases end - at
  {
    if at == end || s[at] == EQUALS then at else FirstEquals(s, at + 1, end)
  }

  predicate Matches(s: seq<byte>, at: nat, key: seq<byte>)
    requires at <= |s|
  {
    var end := SegmentEnd(s, at);
    var eq := FirstEquals(s, at, end);
    eq < end && s[at..eq] <= key
  }

  /**
   * The position after the first '=' of the first segment, from `at` on, whose text before that '=' is a prefix
   * of the key.
   */
  function FindFrom(s: seq<byte>, key: seq<byte>, at: nat): Option<nat>
    requires at <= |s|
    decreases |s| - at
  {
    var end := SegmentEnd(s, at);
    if Matches(s, at, key) then Some(FirstEquals(s, at, end) + 1)
    else if end < |s| then FindFrom(s, key, end + 1)
    else None
  }

  function Find(s: seq<byte>, key: seq<byte>): Option<nat>
  {
    FindFrom(s, key, 0)
  }

  // The automaton.

  datatype Symbol = EQUAL | KEY | SEPARATOR | VALUE

  function NextKey(symbol: Symbol, b: byte): Symbol
  {
    if b == EQUALS then EQUAL
    else if Delimiter(b) then SEPARATOR
    else if symbol == EQUAL then VALUE
    else if symbol == SEPARATOR then KEY
    else symbol
  }

  /** What the automaton knows after reading s[..i], the current segment having started at `start`. */
  ghost predicate Scanned(s: seq<byte>, key: seq<byte>, start: nat, i: nat, symbol: Symbol, count: nat, valid: bool)
  {
    && InSegment(s, key, start, i) && count <= |key|
    && var eq := FirstEquals(s, start, i);
       if eq == i then
         && symbol in {KEY, SEPARATOR} && (start < i ==> symbol == KEY)
         && valid == (s[start..i] <= key) && (valid ==> count == i - start)
       else
         && symbol in {EQUAL, VALUE} && !valid && !(s[start..eq] <= key)
  }

  /** s[start..i] lies in one segment, and no earlier one matches. */
  ghost predicate InSegment(s: seq<byte>, key: seq<byte>, start: nat, i: nat)
  {
    && start <= i <= |s| && Find(s, key) == FindFrom(s, key, start)
    && forall k :: start <= k < i ==> !Delimiter(s[k])
  }

  lemma StillInSegment(s: seq<byte>, key: seq<byte>, start: nat, i: nat)
    requires i < |s| && InSegment(s, key, start, i) && !Delimiter(s[i])
    ensures InSegment(s, key, start, i + 1)
  {
  }

  lemma SegmentEndUnique(s: seq<byte>, at: nat, i: nat)
    requires at <= i <= |s| && (i < |s| ==> Delimiter(s[i]))
    requires forall k :: at <= k < i ==> !Delimiter(s[k])
    ensures SegmentEnd(s, at) == i
  {
    assert SegmentEnd(s, at) >= i;
  }

  lemma FirstEqualsUnique(s: seq<byte>, at: nat, end: nat, i: nat)
    requires at <= i <= end <= |s| && (i < end ==> s[i] == EQUALS)
    requires forall k :: at <= k < i ==> s[k] != EQUALS
    ensures FirstEquals(s, at, end) == i
  {
    assert FirstEquals(s, at, end) >= i;
  }

  lemma FirstEqualsExtend(s: seq<byte>, at: nat, i: nat, end: nat)
    requires at <= i <= end <= |s|
    ensures FirstEquals(s, at, i) < i ==> FirstEquals(s, at, end) == FirstEquals(s, at, i)
    ensures FirstEquals(s, at, i) == i && i < end && s[i] == EQUALS ==> FirstEquals(s, at, end) == i
  {
    var eq := FirstEquals(s, at, i);
    if eq < i || (i < end && s[i] == EQUALS) {
      FirstEqualsUnique(s, at, end, eq);
    }
  }

  /** At a delimiter or the end, a segment that has not been returned does not match. */
  lemma SegmentOver(s: seq<byte>, key: seq<byte>, start: nat, i: nat, symbol: Symbol, count: nat, valid: bool)
    requires Scanned(s, key, start, i, symbol, count, valid) && (i < |s| ==> Delimiter(s[i]))
    ensures FindFrom(s, key, start) == if i < |s| then FindFrom(s, key, i + 1) else None
  {
    SegmentEndUnique(s, start, i);
  }

  lemma EqualsReached(s: seq<byte>, key: seq<byte>, start: nat, i: nat, symbol: Symbol, count: nat)
    requires i < |s| && Scanned(s, key, start, i, symbol, count, true) && s[i] == EQUALS
    ensures Find(s, key) == Some(i + 1)
  {
    var end := SegmentEnd(s, start);
    assert end > i;
    FirstEqualsExtend(s, start, i, end);
  }

  lemma KeyByteRead(s: seq<byte>, key: seq<byte>, start: nat, i: nat)
    requires start <= i < |s| && !Delimiter(s[i]) && NUL !in key
    ensures var n := i - start;
            (s[start..i + 1] <= key) == (s[start..i] <= key && (key + [NUL])[if n <= |key| then n else 0] == s[i])
  {
    var n := i - start;
    assert s[start..i + 1] == s[start..i] + [s[i]];
    if s[start..i] <= key && (key + [NUL])[n] == s[i] {
      assert s[start..i + 1] == key[..n + 1];
    }
    if s[start..i + 1] <= key {
      assert s[start..i] == s[start..i + 1][..n];
    }
  }

  /** One byte read inside a segment, neither a delimiter nor the '=' that ends the search. */
  lemma ByteRead(s: seq<byte>, key: seq<byte>, start: nat, i: nat, symbol: Symbol, count: nat, valid: bool)
    requires i < |s| && NUL !in key && !Delimiter(s[i]) && Scanned(s, key, start, i, symbol, count, valid)
    requires !(NextKey(symbol, s[i]) == EQUAL && valid)
    ensures var next := NextKey(symbol, s[i]);
            var hit := next == KEY && (key + [NUL])[count] == s[i];
            Scanned(s, key, start, i + 1, next, if hit then count + 1 else count, valid && (next == KEY ==> hit))
  {
    if FirstEquals(s, start, i) < i {
      ValueByteRead(s, key, start, i, symbol, count, valid);
    } else if s[i] == EQUALS {
      EqualsByteRead(s, key, start, i, symbol, count, valid);
    } else {
      KeyByteReadOn(s, key, start, i, symbol, count, valid);
    }
  }

  /** Past the first '='. */
  lemma ValueByteRead(s: seq<byte>, key: seq<byte>, start: nat, i: nat, symbol: Symbol, count: nat, valid: bool)
    requires i < |s| && !Delimiter(s[i]) && Scanned(s, key, start, i, symbol, count, valid)
    requires FirstEquals(s, start, i) < i
    ensures Scanned(s, key, start, i + 1, NextKey(symbol, s[i]), count, valid) && NextKey(symbol, s[i]) != KEY
  {
    StillInSegment(s, key, start, i);
    EqualsStays(s, start, i);
  }

  lemma EqualsStays(s: seq<byte>, start: nat, i: nat)
    requires start <= i < |s| && FirstEquals(s, start, i) < i
    ensures FirstEquals(s, start, i + 1) == FirstEquals(s, start, i)
  {
    FirstEqualsExtend(s, start, i, i + 1);
  }

  /** At the first '=' of a key that does not match. */
  lemma EqualsByteRead(s: seq<byte>, key: seq<byte>, start: nat, i: nat, symbol: Symbol, count: nat, valid: bool)
    requires i < |s| && Scanned(s, key, start, i, symbol, count, valid)
    requires FirstEquals(s, start, i) == i && s[i] == EQUALS && !valid
    ensures Scanned(s, key, start, i + 1, EQUAL, count, valid)
  {
    FirstEqualsExtend(s, start, i, i + 1);
  }

  /** Inside a key. */
  lemma KeyByteReadOn(s: seq<byte>, key: seq<byte>, start: nat, i: nat, symbol: Symbol, count: nat, valid: bool)
    requires i < |s| && NUL !in key && !Delimiter(s[i]) && Scanned(s, key, start, i, symbol, count, valid)
    requires FirstEquals(s, start, i) == i && s[i] != EQUALS
    ensures NextKey(symbol, s[i]) == KEY
    ensures var hit := (key + [NUL])[count] == s[i];
            Scanned(s, key, start, i + 1, KEY, if hit then count + 1 else count, valid && hit)
  {
    StillInSegment(s, key, start, i);
    NoEqualsYet(s, start, i);
    KeyByteRead(s, key, start, i);
    HitInKey(key, count, s[i]);
  }

  lemma HitInKey(key: seq<byte>, count: nat, b: byte)
    requires count <= |key| && b != NUL
    ensures (key + [NUL])[count] == b ==> count < |key|
  {
  }

  lemma NoEqualsYet(s: seq<byte>, start: nat, i: nat)
    requires start <= i < |s| && FirstEquals(s, start, i) == i && s[i] != EQUALS
    ensures FirstEquals(s, start, i + 1) == i + 1
  {
    FirstEqualsUnique(s, start, i + 1, i + 1);
  }

  datatype Progress = Progress(symbol: Symbol, count: nat, valid: bool)

  /** One round of the search: the byte after a key is its NUL. */
  function Round(key: seq<byte>, p: Progress, b: byte): Progress
  {
    var next := NextKey(p.symbol, b);
    if next == SEPARATOR then Progress(next, 0, true)
    else if next != KEY then Progress(next, p.count, p.valid)
    else if p.count <= |key| && (key + [NUL])[p.count] == b then Progress(next, p.count + 1, p.valid)
    else Progress(next, p.count, false)
  }

  function Rounds(s: seq<byte>, key: seq<byte>, i: nat): Progress
    requires i <= |s|
  {
    if i == 0 then Progress(KEY, 0, true) else Round(key, Rounds(s, key, i - 1), s[i - 1])
  }

  /** The search ends at byte i. */
  predicate Hit(s: seq<byte>, key: seq<byte>, i: nat)
    requires i < |s|
  {
    var p := Rounds(s, key, i);
    NextKey(p.symbol, s[i]) == EQUAL && p.valid
  }

  predicate NoHitBefore(s: seq<byte>, key: seq<byte>, i: nat)
    requires i <= |s|
  {
    forall k :: 0 <= k < i ==> !Hit(s, key, k)
  }

  ghost predicate ScannedTo(s: seq<byte>, key: seq<byte>, start: nat, i: nat, p: Progress)
  {
    Scanned(s, key, start, i, p.symbol, p.count, p.valid)
  }

  lemma RoundDone(s: seq<byte>, key: seq<byte>, start: nat, i: nat, p: Progress)
    requires i < |s| && NUL !in key && ScannedTo(s, key, start, i, p)
    requires !(NextKey(p.symbol, s[i]) == EQUAL && p.valid)
    ensures ScannedTo(s, key, if Delimiter(s[i]) then i + 1 else start, i + 1, Round(key, p, s[i]))
  {
    if Delimiter(s[i]) {
      SegmentOver(s, key, start, i, p.symbol, p.count, p.valid);
    } else {
      ByteRead(s, key, start, i, p.symbol, p.count, p.valid);
    }
  }

  lemma {:induction false} RoundsScan(s: seq<byte>, key: seq<byte>, i: nat) returns (start: nat)
    requires i <= |s| && NUL !in key && NoHitBefore(s, key, i)
    ensures ScannedTo(s, key, start, i, Rounds(s, key, i))
  {
    start := 0;
    if i == 0 {
      NothingScanned(s, key);
    } else {
      start := RoundsScan(s, key, i - 1);
      assert !Hit(s, key, i - 1);
      start := OneMoreRound(s, key, i - 1, start);
    }
  }

  lemma NothingScanned(s: seq<byte>, key: seq<byte>)
    ensures ScannedTo(s, key, 0, 0, Progress(KEY, 0, true))
  {
  }

  lemma OneMoreRound(s: seq<byte>, key: seq<byte>, i: nat, before: nat) returns (start: nat)
    requires i < |s| && NUL !in key && ScannedTo(s, key, before, i, Rounds(s, key, i)) && !Hit(s, key, i)
    ensures ScannedTo(s, key, start, i + 1, Rounds(s, key, i + 1))
  {
    RoundDone(s, key, before, i, Rounds(s, key, i));
    start := if Delimiter(s[i]) then i + 1 else before;
  }

  lemma HitIsFound(s: seq<byte>, key: seq<byte>, i: nat)
    requires i < |s| && NUL !in key && NoHitBefore(s, key, i) && Hit(s, key, i)
    ensures Find(s, key) == Some(i + 1)
  {
    var start := RoundsScan(s, key, i);
    var p := Rounds(s, key, i);
    EqualsReached(s, key, start, i, p.symbol, p.count);
  }

  lemma NoHitIsNone(s: seq<byte>, key: seq<byte>)
    requires NUL !in key && NoHitBefore(s, key, |s|)
    ensures Find(s, key) == None
  {
    var start := RoundsScan(s, key, |s|);
    var p := Rounds(s, key, |s|);
    SegmentOver(s, key, start, |s|, p.symbol, p.count, p.valid);
  }

  lemma {:induction false} CountInKey(s: seq<byte>, key: seq<byte>, i: nat)
    requires i <= |s| && NUL !in key
    ensures Rounds(s, key, i).count <= |key|
  {
    if i > 0 {
      CountInKey(s, key, i - 1);
    }
  }

  /** iscsi_parameter_get. */
  method ParameterGet(data: seq<byte>, key: seq<byte>) returns (at: Option<nat>)
    requires NUL !in key
    ensures at == Find(data, key)
  {
    var cKey := key + [NUL];
    var symbol, count, stillValid := KEY, 0, true;
    for i := 0 to |data|
      invariant Progress(symbol, count, stillValid) == Rounds(data, key, i) && NoHitBefore(data, key, i)
    {
      CountInKey(data, key, i);
      symbol := NextKey(symbol, data[i]);
      if symbol == EQUAL && stillValid {
        HitIsFound(data, key, i);
        return Some(i + 1);
      }
      if symbol == SEPARATOR {
        count := 0;
        stillValid := true;
      }
      if symbol == KEY {
        if data[i] == cKey[count] {
          count := count + 1;
        } else {
          stillValid := false;
        }
      }
    }
    NoHitIsNone(data, key);
    return None;
  }

  // Printed lists.

  datatype Pair = Pair(key: seq<byte>, value: seq<byte>)

  function Wire(kvs: seq<Pair>): seq<byte>
  {
    if kvs == [] then [] else kvs[0].key + [EQUALS] + kvs[0].value + [NUL] + Wire(kvs[1..])
  }

  predicate Searchable(kv: Pair)
  {
    && kv.key != [] && (forall i :: 0 <= i < |kv.key| ==> kv.key[i] != EQUALS && !Delimiter(kv.key[i]))
    && forall i :: 0 <= i < |kv.value| ==> !Delimiter(kv.value[i])
  }

  /** Index of the first pair whose key is a prefix of the wanted one; |kvs| when there is none. */
  function FirstPrefix(kvs: seq<Pair>, key: seq<byte>): (j: nat)
    ensures j <= |kvs| && (j < |kvs| ==> kvs[j].key <= key)
    ensures forall k :: 0 <= k < j ==> !(kvs[k].key <= key)
  {
    if kvs == [] then 0 else if kvs[0].key <= key then 0 else 1 + FirstPrefix(kvs[1..], key)
  }

  /** `s` holds the printed pair from `at` on. */
  predicate PairAt(s: seq<byte>, at: nat, kv: Pair)
  {
    var v := at + |kv.key| + 1;
    && v + |kv.value| < |s|
    && s[at..v - 1] == kv.key && s[v - 1] == EQUALS && s[v..v + |kv.value|] == kv.value && s[v + |kv.value|] == NUL
  }

  function After(at: nat, kv: Pair): nat
  {
    at + |kv.key| + 1 + |kv.value| + 1
  }

  lemma WirePairAt(s: seq<byte>, at: nat, kvs: seq<Pair>)
    requires at <= |s| && s[at..] == Wire(kvs) && kvs != []
    ensures PairAt(s, at, kvs[0]) && s[After(at, kvs[0])..] == Wire(kvs[1..])
  {
    var w := s[at..];
    var kv := kvs[0];
    var n := |kv.key|;
    assert w == kv.key + [EQUALS] + kv.value + [NUL] + Wire(kvs[1..]);
    assert w[..n] == kv.key && w[n] == EQUALS && w[n + 1..n + 1 + |kv.value|] == kv.value;
    assert w[n + 1 + |kv.value|] == NUL && w[n + |kv.value| + 2..] == Wire(kvs[1..]);
    assert s[After(at, kv)..] == w[n + |kv.value| + 2..];
  }

  lemma SegmentOfPair(s: seq<byte>, at: nat, kv: Pair)
    requires PairAt(s, at, kv) && Searchable(kv)
    ensures SegmentEnd(s, at) == After(at, kv) - 1
    ensures NulFrom(s, at + |kv.key| + 1) == After(at, kv) - 1
    ensures FirstEquals(s, at, After(at, kv) - 1) == at + |kv.key|
  {
    var n := |kv.key|;
    assert forall k :: at <= k < at + n ==> s[k] == s[at..at + n][k - at];
    var v := at + n + 1;
    var end := v + |kv.value|;
    assert forall k :: v <= k < end ==> s[k] == s[v..end][k - v];
    SegmentEndUnique(s, at, end);
    FirstEqualsUnique(s, at, end, at + n);
    NulFromUnique(s, v, end);
  }

  lemma FindInSegment(s: seq<byte>, key: seq<byte>, at: nat, end: nat, eq: nat)
    requires at <= eq < end < |s| && SegmentEnd(s, at) == end && FirstEquals(s, at, end) == eq
    ensures FindFrom(s, key, at) == if s[at..eq] <= key then Some(eq + 1) else FindFrom(s, key, end + 1)
  {
  }

  lemma FoundInSegment(s: seq<byte>, key: seq<byte>, at: nat, end: nat, eq: nat, value: seq<byte>)
    requires at <= eq < end < |s| && SegmentEnd(s, at) == end && FirstEquals(s, at, end) == eq
    requires s[at..eq] <= key && CString(s, eq + 1) == value
    ensures FindsValue(s, FindFrom(s, key, at), value)
  {
    FindInSegment(s, key, at, end, eq);
  }

  lemma FindAtPair(s: seq<byte>, at: nat, kv: Pair, key: seq<byte>)
    requires PairAt(s, at, kv) && Searchable(kv)
    ensures kv.key <= key ==> FindsValue(s, FindFrom(s, key, at), kv.value)
    ensures !(kv.key <= key) ==> FindFrom(s, key, at) == FindFrom(s, key, After(at, kv))
  {
    var end, eq := After(at, kv) - 1, at + |kv.key|;
    SegmentOfPair(s, at, kv);
    assert s[at..eq] == kv.key && eq < end < |s|;
    if kv.key <= key {
      ValueOfPair(s, at, kv);
      FoundInSegment(s, key, at, end, eq, kv.value);
    } else {
      FindInSegment(s, key, at, end, eq);
    }
  }

  lemma ValueOfPair(s: seq<byte>, at: nat, kv: Pair)
    requires PairAt(s, at, kv) && NulFrom(s, at + |kv.key| + 1) == After(at, kv) - 1
    ensures CString(s, at + |kv.key| + 1) == kv.value
  {
  }

  ghost predicate FindsValue(s: seq<byte>, found: Option<nat>, value: seq<byte>)
  {
    found.Some? && found.value <= |s| && CString(s, found.value) == value
  }

  /** On a printed list the lookup stops at the value of the first pair whose key is a prefix of the wanted one. */
  lemma FirstPrefixTail(kvs: seq<Pair>, key: seq<byte>)
    requires kvs != []
    ensures FirstPrefix(kvs, key) == if kvs[0].key <= key then 0 else 1 + FirstPrefix(kvs[1..], key)
  {
  }

  lemma {:induction false} FindInWire(s: seq<byte>, at: nat, kvs: seq<Pair>, key: seq<byte>)
    requires at <= |s| && s[at..] == Wire(kvs) && forall i :: 0 <= i < |kvs| ==> Searchable(kvs[i])
    ensures var j := FirstPrefix(kvs, key);
            if j == |kvs| then FindFrom(s, key, at) == None else FindsValue(s, FindFrom(s, key, at), kvs[j].value)
    decreases |kvs|
  {
    if kvs == [] {
      assert at == |s|;
    } else {
      WirePairAt(s, at, kvs);
      FindAtPair(s, at, kvs[0], key);
      FirstPrefixTail(kvs, key);
      if !(kvs[0].key <= key) {
        FindInWire(s, After(at, kvs[0]), kvs[1..], key);
      }
    }
  }

  predicate PrefixFree(kvs: seq<Pair>)
  {
    forall i, j :: 0 <= i < |kvs| && 0 <= j < |kvs| && kvs[i].key <= kvs[j].key ==> kvs[i].key == kvs[j].key
  }

  /** With prefix-free keys every key finds its own first value. */
  lemma EveryKeyIsFound(kvs: seq<Pair>, j: nat)
    requires forall i :: 0 <= i < |kvs| ==> Searchable(kvs[i])
    requires PrefixFree(kvs) && j < |kvs|
    requires forall i :: 0 <= i < j ==> kvs[i].key != kvs[j].key
    ensures FindsValue(Wire(kvs), Find(Wire(kvs), kvs[j].key), kvs[j].value)
  {
    assert Wire(kvs)[0..] == Wire(kvs);
    FindInWire(Wire(kvs), 0, kvs, kvs[j].key);
    var f := FirstPrefix(kvs, kvs[j].key);
    assert f == j;
  }
}
