/** The connection's parameters as the object the handlers update (iscsi_connection_parameter.c). */
module ParameterObject {
  import opened Bytes
  import opened Decimals
  import opened Lookup
  import opened Buffers
  import opened Negotiation
  import opened GeneratedText

  /** key_equal: the text at `at` starts with `prop`. */
  method KeyEqual(a: array<byte>, at: nat, prop: seq<byte>) returns (equal: bool)
    requires at <= a.Length && Terminated(a[..], at) && Plain(prop)
    ensures equal == (prop <= CString(a[..], at))
  {
    ghost var text := CString(a[..], at);
    var i := 0;
    while i < |prop|
      invariant 0 <= i <= |prop| && i <= |text| && prop[..i] == text[..i]
    {
      assert a[at + i] == a[..][at + i];
      assert i < |text| ==> text[i] == a[at + i];
      if a[at + i] != prop[i] {
        return false;
      }
      assert prop[..i + 1] == text[..i + 1];
      i := i + 1;
    }
    return true;
  }

  predicate AllShort(ks: Keys)
  {
    forall j: nat :: j < 11 ==> |ks.Name(j)| <= 40
  }

  lemma KeysShort()
    ensures AllShort(KEYS)
  {
  }

  /** A pair is printed from a field the pairs before it did not touch. */
  lemma OwnFieldUntouched(from: Params, j: nat)
    requires j < 10
    ensures PrintedValue(Copied(from, from, j), j) == PrintedValue(from, j)
  {
  }

  lemma AppendPrinted(ks: Keys, update: Update<Params>, from: Params, j: nat)
    requires j < 10
    ensures var kvs, kv := PrintedPairs(ks, from, j), PrintedPair(ks, from, j);
            && Wire(PrintedPairs(ks, from, j + 1)) == Wire(kvs) + kv.key + [EQUALS] + kv.value + [NUL]
            && Fold(update, from, PrintedPairs(ks, from, j + 1)) == update(Fold(update, from, kvs), kv.key, kv.value)
  {
    var kvs, kv := PrintedPairs(ks, from, j), PrintedPair(ks, from, j);
    assert PrintedPairs(ks, from, j + 1) == kvs + [kv];
    FoldLast(update, from, kvs, kv);
    WireLast(kvs, kv);
  }

  lemma {:induction false} WireLast(kvs: seq<Pair>, kv: Pair)
    ensures Wire(kvs + [kv]) == Wire(kvs) + kv.key + [EQUALS] + kv.value + [NUL]
  {
    if kvs == [] {
      assert [kv][1..] == [];
      assert Wire([kv]) == kv.key + [EQUALS] + kv.value + [NUL] + Wire([]);
    } else {
      assert (kvs + [kv])[1..] == kvs[1..] + [kv];
      WireLast(kvs[1..], kv);
      WireTail(kvs[0].key + [EQUALS] + kvs[0].value + [NUL], Wire(kvs[1..]), kv);
    }
  }

  lemma WireTail(first: seq<byte>, rest: seq<byte>, kv: Pair)
    ensures first + (rest + kv.key + [EQUALS] + kv.value + [NUL]) == first + rest + kv.key + [EQUALS] + kv.value + [NUL]
  {
  }

  lemma PlainByName(ks: Keys)
    requires AllPlain(ks)
    ensures Plain(ks.maxConnections) && Plain(ks.initialR2t) && Plain(ks.immediateData) && Plain(ks.maxBurst)
    ensures Plain(ks.firstBurst) && Plain(ks.pduInOrder) && Plain(ks.sequenceInOrder) && Plain(ks.time2Wait)
    ensures Plain(ks.time2Retain) && Plain(ks.maxOutstandingR2t) && Plain(ks.maxReceive)
  {
    assert Plain(ks.Name(0)) && Plain(ks.Name(1)) && Plain(ks.Name(2)) && Plain(ks.Name(3)) && Plain(ks.Name(4));
    assert Plain(ks.Name(5)) && Plain(ks.Name(6)) && Plain(ks.Name(7)) && Plain(ks.Name(8)) && Plain(ks.Name(9));
    assert Plain(ks.Name(10));
  }

  // One `if` of update_information each: a field, its name, and the value it may get.

  method UpdateCapped(current: int, name: seq<byte>, limit: int, k: array<byte>, kAt: nat, v: array<byte>, vAt: nat)
    returns (r: int)
    requires kAt <= k.Length && Terminated(k[..], kAt) && vAt <= v.Length && Terminated(v[..], vAt) && Plain(name)
    ensures r == if name <= CString(k[..], kAt) then Min(ParseInt(CString(v[..], vAt)), limit) else current
  {
    r := current;
    var hit := KeyEqual(k, kAt, name);
    if hit {
      var n := StringToInt(v, vAt);
      r := Min(n, limit);
    }
  }

  method Raised(current: int, name: seq<byte>, floor: int, k: array<byte>, kAt: nat, v: array<byte>, vAt: nat)
    returns (r: int)
    requires kAt <= k.Length && Terminated(k[..], kAt) && vAt <= v.Length && Terminated(v[..], vAt) && Plain(name)
    ensures r == if name <= CString(k[..], kAt) then Max(ParseInt(CString(v[..], vAt)), floor) else current
  {
    r := current;
    var hit := KeyEqual(k, kAt, name);
    if hit {
      var n := StringToInt(v, vAt);
      r := Max(n, floor);
    }
  }

  method Switched(current: bool, name: seq<byte>, yes: seq<byte>, k: array<byte>, kAt: nat, v: array<byte>, vAt: nat)
    returns (r: bool)
    requires kAt <= k.Length && Terminated(k[..], kAt) && vAt <= v.Length && Terminated(v[..], vAt)
    requires Plain(name) && Plain(yes)
    ensures r == if name <= CString(k[..], kAt) then yes <= CString(v[..], vAt) || true else current
  {
    r := current;
    var hit := KeyEqual(k, kAt, name);
    if hit {
      var on := KeyEqual(v, vAt, yes);
      r := on || true;
    }
  }

  /** update_information, on C strings in memory. */
  method UpdateInformation(ks: Keys, ghost update: Update<Params>, p: Params,
                           k: array<byte>, kAt: nat, v: array<byte>, vAt: nat) returns (q: Params)
    requires kAt <= k.Length && Terminated(k[..], kAt) && vAt <= v.Length && Terminated(v[..], vAt)
    requires AllPlain(ks) && UpdatesBy(update, ks)
    ensures q == update(p, CString(k[..], kAt), CString(v[..], vAt))
  {
    PlainByName(ks);
    var receive := UpdateCapped(p.maxReceive, ks.maxReceive, PARAMETER_BUFFER_SIZE - 1000, k, kAt, v, vAt);
    var connections := UpdateCapped(p.maxConnections, ks.maxConnections, 1, k, kAt, v, vAt);
    var r2t := Switched(p.initialR2t, ks.initialR2t, ks.yes, k, kAt, v, vAt);
    var immediate := Switched(p.immediateData, ks.immediateData, ks.yes, k, kAt, v, vAt);
    var burst := UpdateCapped(p.maxBurst, ks.maxBurst, 8192, k, kAt, v, vAt);
    var first := UpdateCapped(p.firstBurst, ks.firstBurst, 8192, k, kAt, v, vAt);
    var pdu := Switched(p.pduInOrder, ks.pduInOrder, ks.yes, k, kAt, v, vAt);
    var sequence := Switched(p.sequenceInOrder, ks.sequenceInOrder, ks.yes, k, kAt, v, vAt);
    var wait := Raised(p.time2Wait, ks.time2Wait, 10, k, kAt, v, vAt);
    var retain := Raised(p.time2Retain, ks.time2Retain, 10, k, kAt, v, vAt);
    var outstanding := UpdateCapped(p.maxOutstandingR2t, ks.maxOutstandingR2t, 10, k, kAt, v, vAt);
    ghost var key, value := CString(k[..], kAt), CString(v[..], vAt);
    assert update(p, key, value) == UpdatedBy(ks, p, key, value);
    q := Params(receive, connections, r2t, immediate, burst, first, pdu, sequence, wait, retain, outstanding);
  }

  /** The NUL-terminated array of a C string. */
  method Literal(s: seq<byte>) returns (a: array<byte>)
    requires NUL !in s
    ensures fresh(a) && a.Length == |s| + 1 && Terminated(a[..], 0) && CString(a[..], 0) == s
  {
    var t := s + [NUL];
    a := new byte[|t|](i requires 0 <= i < |t| => t[i]);
    assert a[..] == t;
    assert forall k :: 0 <= k < |s| ==> a[..][k] == s[k] && s[k] in s;
    NulFromUnique(a[..], 0, |s|);
    assert a[..][0..|s|] == s;
  }

  method StrLen(s: array<byte>) returns (n: nat)
    requires Terminated(s[..], 0)
    ensures n == NulFrom(s[..], 0)
  {
    n := 0;
    while s[n] != NUL
      invariant n <= NulFrom(s[..], 0)
      decreases s.Length - n
    {
      n := n + 1;
    }
  }

  lemma CStringInWindow(m: seq<byte>, base: nat, text: seq<byte>, at: nat, end: nat)
    requires base + |text| <= |m| && at <= end < |text|
    requires forall k :: at <= k < end ==> m[base + k] == text[k] && text[k] != NUL
    requires m[base + end] == NUL
    ensures Terminated(m, base + at) && CString(m, base + at) == text[at..end]
  {
    forall x | base + at <= x < base + end ensures m[x] != NUL {
      assert m[base + (x - base)] == text[x - base];
    }
    NulFromUnique(m, base + at, base + end);
  }

  method Overwrite(a: array<byte>, i: nat, b: byte)
    requires i < a.Length
    modifies a
    ensures a[..] == old(a[..])[i := b]
  {
    a[i] := b;
  }

  class Parameter {
    const buffer: array<byte>
    var length: nat
    /** The eleven negotiated fields. */
    var values: Params

    constructor (left: Params)
      ensures Valid() && fresh(buffer) && Text() == [] && values == left
    {
      buffer := new byte[PARAMETER_BUFFER_SIZE];
      length := 0;
      values := left;
    }

    ghost predicate Valid()
      reads this
    {
      buffer.Length == PARAMETER_BUFFER_SIZE && length <= buffer.Length
    }

    ghost function Text(): seq<byte>
      requires Valid()
      reads this, buffer
    {
      buffer[..length]
    }

    /** iscsi_connection_parameter_write, of a C string. */
    method Write(s: array<byte>)
      requires Valid() && s != buffer && Terminated(s[..], 0) && length + |CString(s[..], 0)| <= PARAMETER_BUFFER_SIZE
      modifies this`length, buffer
      ensures Valid() && Text() == old(Text()) + CString(s[..], 0)
    {
      var n := StrLen(s);
      assert s[..n] == CString(s[..], 0);
      WriteBytes(s[..n]);
    }

    method WriteBytes(bytes: seq<byte>)
      requires Valid() && length + |bytes| <= PARAMETER_BUFFER_SIZE
      modifies this`length, buffer
      ensures Valid() && Text() == old(Text()) + bytes
    {
      Copy(buffer, length, |bytes|, 0, bytes);
      SliceGrows(buffer, length, bytes);
      length := length + |bytes|;
    }

    method WriteByte(b: byte)
      requires Valid() && length < PARAMETER_BUFFER_SIZE
      modifies this`length, buffer
      ensures Valid() && Text() == old(Text()) + [b]
    {
      buffer[length] := b;
      length := length + 1;
    }

    /** iscsi_connection_parameter_update. */
    method Update(ks: Keys, ghost update: Update<Params>, key: array<byte>, value: array<byte>)
      requires Valid() && key != buffer && value != buffer && Terminated(key[..], 0) && Terminated(value[..], 0)
      requires length + |CString(key[..], 0)| + |CString(value[..], 0)| + 2 <= PARAMETER_BUFFER_SIZE
      requires AllPlain(ks) && UpdatesBy(update, ks)
      modifies this, buffer
      ensures Valid()
      ensures var k, v := old(CString(key[..], 0)), old(CString(value[..], 0));
              Text() == old(Text()) + k + [EQUALS] + v + [NUL] && values == update(old(values), k, v)
    {
      ghost var k, v := key[..], value[..];
      Write(key);
      assert key[..] == k && value[..] == v;
      WriteByte(EQUALS);
      assert key[..] == k && value[..] == v;
      Write(value);
      assert key[..] == k && value[..] == v;
      WriteByte(NUL);
      assert key[..] == k && value[..] == v;
      values := UpdateInformation(ks, update, values, key, 0, value, 0);
    }

    /** The first j pairs of the answer to `from` are written and taken over. */
    ghost predicate Generated(ks: Keys, update: Update<Params>, from: Params, j: nat)
      requires j <= 10
      reads this, buffer
    {
      && Valid() && Text() == Wire(PrintedPairs(ks, from, j)) && length <= 64 * j
      && values == Fold(update, from, PrintedPairs(ks, from, j)) && WithinLimits(values)
    }

    /** One line of iscsi_connection_parameter_generate_operational_data. */
    method GenerateNext(ks: Keys, ghost update: Update<Params>, ghost from: Params, j: nat, value: array<byte>)
      requires j < 10 && Generated(ks, update, from, j) && WithinLimits(from)
      requires AllPlain(ks) && AllShort(ks) && UpdatesBy(update, ks) && UpdatesOwnFields(update, ks)
      requires value != buffer && Terminated(value[..], 0) && CString(value[..], 0) == PrintedValue(values, j)
      modifies this, buffer
      ensures Generated(ks, update, from, j + 1)
    {
      FoldOfPrinted(update, ks, from, from, j);
      OwnFieldUntouched(from, j);
      PrintedPlain(ks, from, j);
      AppendPrinted(ks, update, from, j);
      UpdatedWithinLimits(ks, values, ks.Name(j), PrintedValue(from, j));
      assert UpdatedBy(ks, values, ks.Name(j), PrintedValue(from, j))
             == update(values, ks.Name(j), PrintedValue(from, j));
      var name := Literal(ks.Name(j));
      Update(ks, update, name, value);
    }

    /** iscsi_connection_parameter_generate_operational_data; digits is int_to_string's static buffer. */
    method Generate(ks: Keys, ghost update: Update<Params>, digits: array<byte>)
      requires Valid() && WithinLimits(values) && digits != buffer && digits.Length == 20
      requires AllPlain(ks) && AllShort(ks) && UpdatesBy(update, ks) && UpdatesOwnFields(update, ks)
      modifies this, buffer, digits
      ensures Valid() && Text() == Wire(PrintedPairs(ks, old(values), 10))
      ensures values == Fold(update, old(values), PrintedPairs(ks, old(values), 10))
    {
      ghost var from := values;
      Clear(ks, update, from);
      GenerateFirst(ks, update, from, digits);
      GenerateMiddle(ks, update, from, digits);
      GenerateLast(ks, update, from, digits);
    }

    method Clear(ks: Keys, ghost update: Update<Params>, ghost from: Params)
      requires Valid() && WithinLimits(values) && from == values
      modifies this`length
      ensures Generated(ks, update, from, 0)
    {
      length := 0;
    }

    /** The first four lines. */
    method GenerateFirst(ks: Keys, ghost update: Update<Params>, ghost from: Params, digits: array<byte>)
      requires Generated(ks, update, from, 0) && WithinLimits(from) && digits != buffer && digits.Length == 20
      requires AllPlain(ks) && AllShort(ks) && UpdatesBy(update, ks) && UpdatesOwnFields(update, ks)
      modifies this, buffer, digits
      ensures Generated(ks, update, from, 4)
    {
      GenerateInt(ks, update, from, 0, values.maxConnections, digits);
      GenerateBool(ks, update, from, 1, values.initialR2t);
      GenerateBool(ks, update, from, 2, values.immediateData);
      GenerateInt(ks, update, from, 3, values.maxBurst, digits);
    }

    /** Two more. */
    method GenerateMiddle(ks: Keys, ghost update: Update<Params>, ghost from: Params, digits: array<byte>)
      requires Generated(ks, update, from, 4) && WithinLimits(from) && digits != buffer && digits.Length == 20
      requires AllPlain(ks) && AllShort(ks) && UpdatesBy(update, ks) && UpdatesOwnFields(update, ks)
      modifies this, buffer, digits
      ensures Generated(ks, update, from, 6)
    {
      GenerateInt(ks, update, from, 4, values.firstBurst, digits);
      GenerateBool(ks, update, from, 5, values.pduInOrder);
    }

    /** The last four. */
    method GenerateLast(ks: Keys, ghost update: Update<Params>, ghost from: Params, digits: array<byte>)
      requires Generated(ks, update, from, 6) && WithinLimits(from) && digits != buffer && digits.Length == 20
      requires AllPlain(ks) && AllShort(ks) && UpdatesBy(update, ks) && UpdatesOwnFields(update, ks)
      modifies this, buffer, digits
      ensures Generated(ks, update, from, 10)
    {
      GenerateBool(ks, update, from, 6, values.sequenceInOrder);
      GenerateInt(ks, update, from, 7, values.time2Wait, digits);
      GenerateInt(ks, update, from, 8, values.time2Retain, digits);
      GenerateInt(ks, update, from, 9, values.maxOutstandingR2t, digits);
    }

    method GenerateInt(ks: Keys, ghost update: Update<Params>, ghost from: Params, j: nat, n: int, digits: array<byte>)
      requires j < 10 && Generated(ks, update, from, j) && WithinLimits(from)
      requires AllPlain(ks) && AllShort(ks) && UpdatesBy(update, ks) && UpdatesOwnFields(update, ks)
      requires digits != buffer && digits.Length == 20 && n <= INT_MAX && PrintedValue(values, j) == PrintInt(n)
      modifies this, buffer, digits
      ensures Generated(ks, update, from, j + 1)
    {
      IntToString(digits, n);
      GenerateNext(ks, update, from, j, digits);
    }

    method GenerateBool(ks: Keys, ghost update: Update<Params>, ghost from: Params, j: nat, b: bool)
      requires j < 10 && Generated(ks, update, from, j) && WithinLimits(from)
      requires AllPlain(ks) && AllShort(ks) && UpdatesBy(update, ks) && UpdatesOwnFields(update, ks)
      requires PrintedValue(values, j) == PrintBool(b)
      modifies this, buffer
      ensures Generated(ks, update, from, j + 1)
    {
      var word := Literal(PrintBool(b));
      GenerateNext(ks, update, from, j, word);
    }

    /**
     * iscsi_connection_parameter_create on the text a[base..base + size]: every '=' is overwritten by NUL while the
     * pair around it is read, and put back.
     */
    method Create(ks: Keys, ghost update: Update<Params>, a: array<byte>, base: nat, size: nat)
      requires Valid() && a != buffer && base + size <= a.Length && AllPlain(ks) && UpdatesBy(update, ks)
      requires size > 0 ==> a[base + Min(size, PARAMETER_BUFFER_SIZE) - 1] == NUL
      modifies this, buffer, a
      ensures Valid() && a[..] == old(a[..])
      ensures Text() == old(a[base..base + Min(size, PARAMETER_BUFFER_SIZE)])
      ensures values == Scan(update, DEFAULTS, Text(), length)
    {
      var n := if size > PARAMETER_BUFFER_SIZE then PARAMETER_BUFFER_SIZE else size;
      Store(a[base..base + n]);
      values := DEFAULTS;
      ScanText(ks, update, a, base, n);
    }

    method Store(text: seq<byte>)
      requires Valid() && |text| <= PARAMETER_BUFFER_SIZE
      modifies this`length, buffer
      ensures Valid() && Text() == text && length == |text|
    {
      Copy(buffer, 0, |text|, 0, text);
      length := |text|;
      assert buffer[..length] == buffer[0..length];
    }

    /** The loop over the text. */
    method ScanText(ks: Keys, ghost update: Update<Params>, a: array<byte>, base: nat, n: nat)
      requires a != buffer && base + n <= a.Length && AllPlain(ks) && UpdatesBy(update, ks)
      requires n > 0 ==> a[base + n - 1] == NUL
      modifies this`values, a
      ensures a[..] == old(a[..]) && values == Scan(update, old(values), a[base..base + n], n)
    {
      ghost var text := a[base..base + n];
      ghost var was := a[..];
      var key := 0;
      var i := 1;
      while i < n
        invariant 1 <= i && (n > 0 ==> i <= n && key == KeyStart(text, i - 1)) && a[..] == was
        invariant n > 0 ==> values == Scan(update, old(values), text, i)
        invariant n == 0 ==> values == old(values)
      {
        WindowOfAll(a, base, n);
        assert a[base..base + n] == text;
        key := ScanAt(ks, update, a, base, n, text, key, i);
        ScanNext(update, old(values), text, i);
        i := i + 1;
      }
      WindowOfAll(a, base, n);
    }

    /** One round of the loop. */
    method ScanAt(ks: Keys, ghost update: Update<Params>,
                  a: array<byte>, base: nat, n: nat, ghost text: seq<byte>, key: nat, i: nat) returns (next: nat)
      requires base + n <= a.Length && text == a[base..base + n] && 1 <= i < n && key == KeyStart(text, i - 1)
      requires text[n - 1] == NUL && a != buffer && AllPlain(ks) && UpdatesBy(update, ks)
      modifies this`values, a
      ensures a[..] == old(a[..]) && next == KeyStart(text, i)
      ensures values == if text[i] == EQUALS then update(old(values), text[next..i], CString(text, i + 1))
                        else old(values)
    {
      next := key;
      if a[base + i - 1] == NUL {
        next := i;
      }
      if a[base + i] == EQUALS {
        ReadPair(ks, update, a, base, n, text, next, i);
      }
    }

    /** The body of the loop at an '='. */
    method ReadPair(ks: Keys, ghost update: Update<Params>,
                    a: array<byte>, base: nat, n: nat, ghost text: seq<byte>, key: nat, i: nat)
      requires base + n <= a.Length && text == a[base..base + n] && 1 <= i < n && key == KeyStart(text, i)
      requires text[i] == EQUALS && text[n - 1] == NUL && a != buffer && AllPlain(ks) && UpdatesBy(update, ks)
      modifies this`values, a
      ensures a[..] == old(a[..]) && values == update(old(values), text[key..i], CString(text, i + 1))
    {
      ghost var was := a[..];
      WindowOfAll(a, base, n);
      StringsAround(text, was, was[base + i := NUL], base, key, i);
      ReadBetween(ks, update, a, base + i, base + key, base + i + 1,
                  was[base + i := NUL], text[key..i], CString(text, i + 1));
    }

    /** data[i] = 0, update_information, data[i] = '='. */
    method ReadBetween(ks: Keys, ghost update: Update<Params>, a: array<byte>, at: nat, kAt: nat, vAt: nat,
                       ghost m: seq<byte>, ghost k: seq<byte>, ghost v: seq<byte>)
      requires at < a.Length && a[at] == EQUALS && m == a[..][at := NUL] && AllPlain(ks) && UpdatesBy(update, ks)
      requires kAt <= |m| && Terminated(m, kAt) && k == CString(m, kAt)
      requires vAt <= |m| && Terminated(m, vAt) && v == CString(m, vAt)
      modifies this`values, a
      ensures a[..] == old(a[..]) && values == update(old(values), k, v)
    {
      ghost var was := a[..];
      Overwrite(a, at, NUL);
      UpdateAt(ks, update, a, kAt, vAt, k, v);
      Overwrite(a, at, EQUALS);
      PutBack(was, at);
    }

    method UpdateAt(ks: Keys, ghost update: Update<Params>, a: array<byte>, kAt: nat, vAt: nat,
                    ghost k: seq<byte>, ghost v: seq<byte>)
      requires kAt <= a.Length && Terminated(a[..], kAt) && k == CString(a[..], kAt)
      requires vAt <= a.Length && Terminated(a[..], vAt) && v == CString(a[..], vAt)
      requires AllPlain(ks) && UpdatesBy(update, ks)
      modifies this`values
      ensures values == update(old(values), k, v)
    {
      values := UpdateInformation(ks, update, values, a, kAt, a, vAt);
    }
  }

  /** With the '=' at i overwritten, memory holds the key and the value of the text as C strings. */
  lemma StringsAround(text: seq<byte>, was: seq<byte>, m: seq<byte>, base: nat, key: nat, i: nat)
    requires base + |text| <= |was| && text == was[base..base + |text|]
    requires 1 <= i < |text| && key == KeyStart(text, i) && text[i] == EQUALS && text[|text| - 1] == NUL
    requires m == was[base + i := NUL]
    ensures Terminated(m, base + key) && CString(m, base + key) == text[key..i]
    ensures Terminated(m, base + i + 1) && CString(m, base + i + 1) == CString(text, i + 1)
  {
    var end := NulFrom(text, i + 1);
    assert end < |text|;
    forall k | 0 <= k < |text| && k != i ensures m[base + k] == text[k] {
    }
    CStringInWindow(m, base, text, key, i);
    CStringInWindow(m, base, text, i + 1, end);
  }

  lemma PutBack(was: seq<byte>, i: nat)
    requires i < |was| && was[i] == EQUALS
    ensures was[i := NUL][i := EQUALS] == was
  {
  }
}
