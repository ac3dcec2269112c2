/**
 * Operational parameters: the in-place text scan, its limits, and the printed answer (iscsi_connection_parameter.c).
 */
module Negotiation {
  import opened Bytes
  import opened Decimals
  import opened Lookup

  const PARAMETER_BUFFER_SIZE: nat := 0x10_0000  // ISCSI_CONNECTION_PARAMETER_BUFFER_SIZE

  datatype Params = Params(
    maxReceive: int, maxConnections: int, initialR2t: bool, immediateData: bool,
    maxBurst: int, firstBurst: int, pduInOrder: bool, sequenceInOrder: bool,
    time2Wait: int, time2Retain: int, maxOutstandingR2t: int)

  const DEFAULTS := Params(PARAMETER_BUFFER_SIZE, 1, true, true, 8192, 8192, true, true, 10, 10, 10)

  function Ascii(s: string): (b: seq<byte>)
    requires forall i :: 0 <= i < |s| ==> s[i] as int < 128
    ensures |b| == |s| && forall i :: 0 <= i < |s| ==> b[i] as int == s[i] as int
  {
    seq(|s|, i requires 0 <= i < |s| => s[i] as int)
  }

  /** The names the target knows, and the word for true. */
  datatype Keys = Keys(
    maxConnections: seq<byte>, initialR2t: seq<byte>, immediateData: seq<byte>, maxBurst: seq<byte>,
    firstBurst: seq<byte>,
    pduInOrder: seq<byte>, sequenceInOrder: seq<byte>, time2Wait: seq<byte>, time2Retain: seq<byte>,
    maxOutstandingR2t: seq<byte>, maxReceive: seq<byte>, yes: seq<byte>)
  {
    function Name(j: nat): seq<byte>
    {
      match j
      case 0 => maxConnections
      case 1 => initialR2t
      case 2 => immediateData
      case 3 => maxBurst
      case 4 => firstBurst
      case 5 => pduInOrder
      case 6 => sequenceInOrder
      case 7 => time2Wait
      case 8 => time2Retain
      case 9 => maxOutstandingR2t
      case _ => maxReceive
    }

    /** No name starts another one. */
    predicate PrefixFree() {
      forall i: nat, j: nat :: i < 11 && j < 11 && Name(i) <= Name(j) ==> i == j
    }
  }

  const KEYS := Keys(
    Ascii("MaxConnections"), Ascii("InitialR2T"), Ascii("ImmediateData"), Ascii("MaxBurstLength"),
    Ascii("FirstBurstLength"),
    Ascii("DataPDUInOrder"), Ascii("DataSequenceInOrder"), Ascii("DefaultTime2Wait"), Ascii("DefaultTime2Retain"),
    Ascii("MaxOutstandingR2T"), Ascii("MaxRecvDataSegmentLength"), Ascii("Yes"))

  /** Bytes 0, 3 and 4 of the names; byte 12 tells the last two apart. */
  function Mark(j: nat): (byte, byte, byte)
  {
    match j
    case 0 => ('M' as int, 'C' as int, 'o' as int)
    case 1 => ('I' as int, 't' as int, 'i' as int)
    case 2 => ('I' as int, 'e' as int, 'd' as int)
    case 3 => ('M' as int, 'B' as int, 'u' as int)
    case 4 => ('F' as int, 's' as int, 't' as int)
    case 5 => ('D' as int, 'a' as int, 'P' as int)
    case 6 => ('D' as int, 'a' as int, 'S' as int)
    case 9 => ('M' as int, 'O' as int, 'u' as int)
    case 10 => ('M' as int, 'R' as int, 'e' as int)
    case _ => ('D' as int, 'a' as int, 'u' as int)
  }

  lemma NameMarked(j: nat)
    requires j < 11
    ensures var a := KEYS.Name(j); |a| > 4 && (a[0], a[3], a[4]) == Mark(j)
  {
  }

  lemma TimesApart()
    ensures !(KEYS.Name(7) <= KEYS.Name(8)) && !(KEYS.Name(8) <= KEYS.Name(7))
  {
    assert KEYS.Name(7)[12] == 'W' as int && KEYS.Name(8)[12] == 'R' as int;
  }

  lemma KeysPrefixFree()
    ensures KEYS.PrefixFree()
  {
    forall i: nat, j: nat | i < 11 && j < 11 && KEYS.Name(i) <= KEYS.Name(j) ensures i == j {
      NameMarked(i);
      NameMarked(j);
      TimesApart();
      assert Mark(i) == Mark(j);
    }
  }

  /** update_information, on the text of the key and of the value. A key counts when a known name starts it. */
  function UpdatedBy(ks: Keys, p: Params, key: seq<byte>, value: seq<byte>): Params
  {
    var n := ParseInt(value);
    Params(
      if ks.maxReceive <= key then Min(n, PARAMETER_BUFFER_SIZE - 1000) else p.maxReceive,
      if ks.maxConnections <= key then Min(n, 1) else p.maxConnections,
      if ks.initialR2t <= key then ks.yes <= value || true else p.initialR2t,
      if ks.immediateData <= key then ks.yes <= value || true else p.immediateData,
      if ks.maxBurst <= key then Min(n, 8192) else p.maxBurst,
      if ks.firstBurst <= key then Min(n, 8192) else p.firstBurst,
      if ks.pduInOrder <= key then ks.yes <= value || true else p.pduInOrder,
      if ks.sequenceInOrder <= key then ks.yes <= value || true else p.sequenceInOrder,
      if ks.time2Wait <= key then Max(n, 10) else p.time2Wait,
      if ks.time2Retain <= key then Max(n, 10) else p.time2Retain,
      if ks.maxOutstandingR2t <= key then Min(n, 10) else p.maxOutstandingR2t)
  }

  function Updated(p: Params, key: seq<byte>, value: seq<byte>): Params
  {
    UpdatedBy(KEYS, p, key, value)
  }

  /** The target's own limits, which no initiator can move. */
  predicate WithinLimits(p: Params)
  {
    && p.maxReceive <= PARAMETER_BUFFER_SIZE && p.maxConnections <= 1
    && p.maxBurst <= 8192 && p.firstBurst <= 8192 && p.maxOutstandingR2t <= 10
    && p.time2Wait >= 10 && p.time2Retain >= 10
    && p.initialR2t && p.immediateData && p.pduInOrder && p.sequenceInOrder
    && p.time2Wait <= INT_MAX && p.time2Retain <= INT_MAX
  }

  // The scan of a whole text.

  function KeyStart(text: seq<byte>, i: nat): (k: nat)
    requires i <= |text|
    ensures k <= i && (k > 0 ==> text[k - 1] == NUL)
    ensures forall x :: k <= x < i ==> text[x] != NUL
  {
    if i == 0 || text[i - 1] == NUL then i else KeyStart(text, i - 1)
  }

  type Update<!P> = (P, seq<byte>, seq<byte>) -> P

  /** What is left of `init` after an update at each '=' of positions 1 to n - 1. */
  function Scan<P>(update: Update<P>, init: P, text: seq<byte>, n: nat): P
    requires n <= |text|
  {
    if n <= 1 then init
    else if text[n - 1] == EQUALS then
      update(Scan(update, init, text, n - 1), text[KeyStart(text, n - 1)..n - 1], CString(text, n))
    else Scan(update, init, text, n - 1)
  }

  lemma ScanNext<P>(update: Update<P>, init: P, text: seq<byte>, i: nat)
    requires 1 <= i < |text|
    ensures Scan(update, init, text, i + 1)
            == if text[i] == EQUALS then
                 update(Scan(update, init, text, i), text[KeyStart(text, i)..i], CString(text, i + 1))
               else Scan(update, init, text, i)
  {
  }

  function Fold<P>(update: Update<P>, init: P, kvs: seq<Pair>): P
    decreases |kvs|
  {
    if kvs == [] then init else Fold(update, update(init, kvs[0].key, kvs[0].value), kvs[1..])
  }

  /** `update` is the update by the names ks. */
  ghost predicate UpdatesBy(update: Update<Params>, ks: Keys)
  {
    forall p: Params, key: seq<byte>, value: seq<byte> :: update(p, key, value) == UpdatedBy(ks, p, key, value)
  }

  /** The parameters a text negotiates. */
  function Negotiated(text: seq<byte>): Params
  {
    Scan(Updated, DEFAULTS, text, |text|)
  }

  lemma UpdatedWithinLimits(ks: Keys, p: Params, key: seq<byte>, value: seq<byte>)
    requires WithinLimits(p)
    ensures WithinLimits(UpdatedBy(ks, p, key, value))
  {
    var n := ParseInt(value);
  }

  /** Whatever the text says, the outcome stays within the target's limits. */
  lemma {:induction false} ScanWithinLimits(text: seq<byte>, n: nat)
    requires n <= |text|
    ensures WithinLimits(Scan(Updated, DEFAULTS, text, n))
  {
    if n > 1 {
      ScanWithinLimits(text, n - 1);
      if text[n - 1] == EQUALS {
        var p := Scan(Updated, DEFAULTS, text, n - 1);
        UpdatedWithinLimits(KEYS, p, text[KeyStart(text, n - 1)..n - 1], CString(text, n));
      }
    }
  }

  predicate Scannable(kv: Pair)
  {
    && kv.key != [] && (forall i :: 0 <= i < |kv.key| ==> kv.key[i] != EQUALS && kv.key[i] != NUL)
    && forall i :: 0 <= i < |kv.value| ==> kv.value[i] != EQUALS && kv.value[i] != NUL
  }

  lemma {:induction false} ScanSkips<P>(update: Update<P>, init: P, text: seq<byte>, i: nat, j: nat)
    requires i <= j <= |text| && forall x :: i <= x < j ==> text[x] != EQUALS
    ensures Scan(update, init, text, i) == Scan(update, init, text, j)
  {
    if i < j {
      ScanSkips(update, init, text, i, j - 1);
    }
  }

  lemma {:induction false} KeyStartIs(text: seq<byte>, at: nat, i: nat)
    requires at <= i <= |text| && (at > 0 ==> text[at - 1] == NUL)
    requires forall x :: at <= x < i ==> text[x] != NUL
    ensures KeyStart(text, i) == at
  {
    if at < i {
      KeyStartIs(text, at, i - 1);
    }
  }

  lemma NoSpecialBytes(text: seq<byte>, at: nat, t: seq<byte>)
    requires at + |t| <= |text| && text[at..at + |t|] == t
    requires forall i :: 0 <= i < |t| ==> t[i] != EQUALS && t[i] != NUL
    ensures forall x :: at <= x < at + |t| ==> text[x] != EQUALS && text[x] != NUL
  {
    forall x | at <= x < at + |t| ensures text[x] != EQUALS && text[x] != NUL {
      assert text[x] == t[x - at];
    }
  }

  /** What the scan meets at a printed pair. */
  lemma PairScanned(text: seq<byte>, at: nat, kv: Pair, eq: nat, end: nat)
    requires PairAt(text, at, kv) && Scannable(kv) && (at > 0 ==> text[at - 1] == NUL)
    requires eq == at + |kv.key| && end == eq + 1 + |kv.value|
    ensures end < |text| && text[eq] == EQUALS && text[end] == NUL
    ensures forall x :: at <= x <= end && x != eq ==> text[x] != EQUALS
    ensures KeyStart(text, eq) == at && text[at..eq] == kv.key && CString(text, eq + 1) == kv.value
  {
    NoSpecialBytes(text, at, kv.key);
    NoSpecialBytes(text, eq + 1, kv.value);
    KeyStartIs(text, at, eq);
    NulFromUnique(text, eq + 1, end);
  }

  lemma ScanPair<P>(update: Update<P>, init: P, text: seq<byte>, at: nat, kv: Pair)
    requires PairAt(text, at, kv) && Scannable(kv) && (at > 0 ==> text[at - 1] == NUL)
    ensures Scan(update, init, text, After(at, kv)) == update(Scan(update, init, text, at), kv.key, kv.value)
  {
    var eq := at + |kv.key|;
    var end := eq + 1 + |kv.value|;
    PairScanned(text, at, kv, eq, end);
    ScanThrough(update, init, text, at, eq, end);
  }

  /** From one NUL to the next, with a single '=' between them. */
  lemma ScanThrough<P>(update: Update<P>, init: P, text: seq<byte>, at: nat, eq: nat, end: nat)
    requires at < eq <= end < |text| && text[eq] == EQUALS && KeyStart(text, eq) == at
    requires forall x :: at <= x <= end && x != eq ==> text[x] != EQUALS
    ensures Scan(update, init, text, end + 1)
            == update(Scan(update, init, text, at), text[at..eq], CString(text, eq + 1))
  {
    ScanSkips(update, init, text, at, eq);
    ScanNext(update, init, text, eq);
    ScanSkips(update, init, text, eq + 1, end + 1);
  }

  /** On the wire image of a list of pairs the scan is a left fold over the pairs, whatever the update. */
  lemma {:induction false} ScanIsFold<P>(update: Update<P>, init: P, text: seq<byte>, at: nat, kvs: seq<Pair>)
    requires at <= |text| && text[at..] == Wire(kvs) && (at > 0 ==> text[at - 1] == NUL)
    requires forall i :: 0 <= i < |kvs| ==> Scannable(kvs[i])
    ensures Scan(update, init, text, |text|) == Fold(update, Scan(update, init, text, at), kvs)
    decreases |kvs|
  {
    if kvs == [] {
      assert at == |text|;
    } else {
      WirePairAt(text, at, kvs);
      ScanPair(update, init, text, at, kvs[0]);
      ScanIsFold(update, init, text, After(at, kvs[0]), kvs[1..]);
    }
  }
}
