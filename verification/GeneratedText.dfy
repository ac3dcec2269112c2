/** The text the target answers with, and what reading it again gives (iscsi_connection_parameter.c:97-109, 142-148). */
module GeneratedText {
  import opened Bytes
  import opened Decimals
  import opened Lookup
  import opened Negotiation

  function PrintBool(b: bool): seq<byte>
  {
    if b then Ascii("YES") else Ascii("NO")
  }

  function PrintedValue(p: Params, j: nat): seq<byte>
    requires j < 10
  {
    match j
    case 0 => PrintInt(p.maxConnections)
    case 1 => PrintBool(p.initialR2t)
    case 2 => PrintBool(p.immediateData)
    case 3 => PrintInt(p.maxBurst)
    case 4 => PrintInt(p.firstBurst)
    case 5 => PrintBool(p.pduInOrder)
    case 6 => PrintBool(p.sequenceInOrder)
    case 7 => PrintInt(p.time2Wait)
    case 8 => PrintInt(p.time2Retain)
    case _ => PrintInt(p.maxOutstandingR2t)
  }

  function PrintedPair(ks: Keys, p: Params, j: nat): Pair
    requires j < 10
  {
    Pair(ks.Name(j), PrintedValue(p, j))
  }

  function PrintedPairs(ks: Keys, p: Params, j: nat): (kvs: seq<Pair>)
    requires j <= 10
    ensures |kvs| == j && forall i :: 0 <= i < j ==> kvs[i] == PrintedPair(ks, p, i)
  {
    seq(j, i requires 0 <= i < j => PrintedPair(ks, p, i))
  }

  /** `p` with only the j-th printed field set from a text value. */
  function WithField(p: Params, j: nat, value: seq<byte>): Params
    requires j < 10
  {
    var n := ParseInt(value);
    match j
    case 0 => p.(maxConnections := Min(n, 1))
    case 1 => p.(initialR2t := true)
    case 2 => p.(immediateData := true)
    case 3 => p.(maxBurst := Min(n, 8192))
    case 4 => p.(firstBurst := Min(n, 8192))
    case 5 => p.(pduInOrder := true)
    case 6 => p.(sequenceInOrder := true)
    case 7 => p.(time2Wait := Max(n, 10))
    case 8 => p.(time2Retain := Max(n, 10))
    case _ => p.(maxOutstandingR2t := Min(n, 10))
  }

  /** Which of the eleven names start this key. */
  function Hits(ks: Keys, key: seq<byte>): (h: seq<bool>)
    ensures |h| == 11
  {
    seq(11, i requires 0 <= i < 11 => ks.Name(i) <= key)
  }

  lemma OwnHitOnly(ks: Keys, j: nat, i: nat)
    requires j < 11 && i < 11 && ks.PrefixFree()
    ensures Hits(ks, ks.Name(j))[i] == (i == j)
  {
    assert ks.Name(i) <= ks.Name(j) ==> i == j;
  }

  lemma OwnHitsOnly(ks: Keys, j: nat)
    requires j < 11 && ks.PrefixFree()
    ensures Hits(ks, ks.Name(j)) == seq(11, i => i == j)
  {
    forall i: nat | i < 11 ensures Hits(ks, ks.Name(j))[i] == (i == j) {
      OwnHitOnly(ks, j, i);
    }
  }

  /** A printed name updates its own field and no other. */
  lemma UpdatedOwnField(ks: Keys, p: Params, j: nat, value: seq<byte>)
    requires j < 10 && ks.PrefixFree()
    ensures UpdatedBy(ks, p, ks.Name(j), value) == WithField(p, j, value)
  {
    OwnHitsOnly(ks, j);
    UpdatedFromHits(ks, p, ks.Name(j), j, value);
  }

  lemma UpdatedFromHits(ks: Keys, p: Params, key: seq<byte>, j: nat, value: seq<byte>)
    requires j < 10 && Hits(ks, key) == seq(11, i => i == j)
    ensures UpdatedBy(ks, p, key, value) == WithField(p, j, value)
  {
    if j < 5 {
      UpdatedFromEarlyHit(ks, p, key, j, value);
    } else {
      UpdatedFromLateHit(ks, p, key, j, value);
    }
  }

  lemma UpdatedFromEarlyHit(ks: Keys, p: Params, key: seq<byte>, j: nat, value: seq<byte>)
    requires j < 5 && Hits(ks, key) == seq(11, i => i == j)
    ensures UpdatedBy(ks, p, key, value) == WithField(p, j, value)
  {
    var h := Hits(ks, key);
    assert h[0] == (j == 0) && h[1] == (j == 1) && h[2] == (j == 2) && h[3] == (j == 3) && h[4] == (j == 4);
    assert !h[5] && !h[6] && !h[7] && !h[8] && !h[9] && !h[10];
  }

  lemma UpdatedFromLateHit(ks: Keys, p: Params, key: seq<byte>, j: nat, value: seq<byte>)
    requires 5 <= j < 10 && Hits(ks, key) == seq(11, i => i == j)
    ensures UpdatedBy(ks, p, key, value) == WithField(p, j, value)
  {
    var h := Hits(ks, key);
    assert !h[0] && !h[1] && !h[2] && !h[3] && !h[4] && !h[10];
    assert h[5] == (j == 5) && h[6] == (j == 6) && h[7] == (j == 7) && h[8] == (j == 8) && h[9] == (j == 9);
  }

  function Reread(n: int): int
  {
    ParseInt(PrintInt(n))
  }

  /** `p` with the first j printed fields taken over from the printed form of `from`. */
  function Copied(p: Params, from: Params, j: nat): Params
  {
    Params(
      p.maxReceive,
      if j > 0 then Min(Reread(from.maxConnections), 1) else p.maxConnections,
      if j > 1 then true else p.initialR2t,
      if j > 2 then true else p.immediateData,
      if j > 3 then Min(Reread(from.maxBurst), 8192) else p.maxBurst,
      if j > 4 then Min(Reread(from.firstBurst), 8192) else p.firstBurst,
      if j > 5 then true else p.pduInOrder,
      if j > 6 then true else p.sequenceInOrder,
      if j > 7 then Max(Reread(from.time2Wait), 10) else p.time2Wait,
      if j > 8 then Max(Reread(from.time2Retain), 10) else p.time2Retain,
      if j > 9 then Min(Reread(from.maxOutstandingR2t), 10) else p.maxOutstandingR2t)
  }

  lemma {:induction false} FoldLast<P>(update: Update<P>, init: P, kvs: seq<Pair>, kv: Pair)
    ensures Fold(update, init, kvs + [kv]) == update(Fold(update, init, kvs), kv.key, kv.value)
    decreases |kvs|
  {
    if kvs != [] {
      assert (kvs + [kv])[1..] == kvs[1..] + [kv];
      FoldLast(update, update(init, kvs[0].key, kvs[0].value), kvs[1..], kv);
    } else {
      assert (kvs + [kv])[1..] == [];
    }
  }

  ghost predicate UpdatesOwnFields(update: Update<Params>, ks: Keys)
  {
    forall q: Params, i: nat, v: seq<byte> :: i < 10 ==> update(q, ks.Name(i), v) == WithField(q, i, v)
  }

  lemma UpdatedUpdatesOwnFields()
    ensures UpdatesOwnFields(Updated, KEYS)
  {
    KeysPrefixFree();
    forall q: Params, i: nat, v: seq<byte> | i < 10 ensures Updated(q, KEYS.Name(i), v) == WithField(q, i, v) {
      UpdatedOwnField(KEYS, q, i, v);
    }
  }

  lemma CopiedNumber(p: Params, from: Params, j: nat)
    requires j in {0, 3, 4, 7, 8, 9}
    ensures WithField(Copied(p, from, j), j, PrintedValue(from, j)) == Copied(p, from, j + 1)
  {
  }

  lemma CopiedNext(p: Params, from: Params, j: nat)
    requires j < 10
    ensures WithField(Copied(p, from, j), j, PrintedValue(from, j)) == Copied(p, from, j + 1)
  {
    if j in {0, 3, 4, 7, 8, 9} {
      CopiedNumber(p, from, j);
    }
  }

  lemma FoldNextPrinted(update: Update<Params>, ks: Keys, p: Params, from: Params, j: nat)
    requires j < 10 && UpdatesOwnFields(update, ks)
    ensures Fold(update, p, PrintedPairs(ks, from, j + 1))
            == WithField(Fold(update, p, PrintedPairs(ks, from, j)), j, PrintedValue(from, j))
  {
    assert PrintedPairs(ks, from, j + 1) == PrintedPairs(ks, from, j) + [PrintedPair(ks, from, j)];
    FoldLast(update, p, PrintedPairs(ks, from, j), PrintedPair(ks, from, j));
  }

  lemma {:induction false} FoldOfPrinted(update: Update<Params>, ks: Keys, p: Params, from: Params, j: nat)
    requires j <= 10 && UpdatesOwnFields(update, ks)
    ensures Fold(update, p, PrintedPairs(ks, from, j)) == Copied(p, from, j)
  {
    if j == 0 {
      assert PrintedPairs(ks, from, 0) == [];
    } else {
      FoldOfPrinted(update, ks, p, from, j - 1);
      FoldNextPrinted(update, ks, p, from, j - 1);
      CopiedNext(p, from, j - 1);
    }
  }

  /** No printed number is negative; what a caller can check before answering. */
  predicate Printable(p: Params)
  {
    p.maxConnections >= 0 && p.maxBurst >= 0 && p.firstBurst >= 0 && p.maxOutstandingR2t >= 0
  }

  lemma FieldReread(n: int)
    requires n <= INT_MAX
    ensures Reread(n) == Max(n, 0)
  {
    if n >= 0 {
      PrintParse(n);
    }
  }

  /** Writing the printed fields of `from` over any parameters within the limits. */
  lemma AllFields(p: Params, from: Params)
    requires WithinLimits(p) && WithinLimits(from)
    ensures Copied(p, from, 10) == from.(
              maxReceive := p.maxReceive, maxConnections := Max(from.maxConnections, 0),
              maxBurst := Max(from.maxBurst, 0),
              firstBurst := Max(from.firstBurst, 0), maxOutstandingR2t := Max(from.maxOutstandingR2t, 0))
  {
    FieldReread(from.maxConnections);
    FieldReread(from.maxBurst);
    FieldReread(from.firstBurst);
    FieldReread(from.time2Wait);
    FieldReread(from.time2Retain);
    FieldReread(from.maxOutstandingR2t);
  }

  /** Generating the answer leaves the eleven parameters alone exactly when no printed number is negative. */
  lemma GeneratingIsFixedPoint(p: Params)
    requires WithinLimits(p)
    ensures Fold(Updated, p, PrintedPairs(KEYS, p, 10)) == p <==> Printable(p)
  {
    UpdatedUpdatesOwnFields();
    FoldOfPrinted(Updated, KEYS, p, p, 10);
    AllFields(p, p);
  }

  lemma AnswerFolded(update: Update<Params>, ks: Keys, p: Params)
    requires WithinLimits(p) && AllPlain(ks)
    ensures var kvs := PrintedPairs(ks, p, 10);
            Scan(update, DEFAULTS, Wire(kvs), |Wire(kvs)|) == Fold(update, DEFAULTS, kvs)
  {
    var kvs := PrintedPairs(ks, p, 10);
    forall i: nat | i < 10 ensures Scannable(PrintedPair(ks, p, i)) {
      PrintedPlain(ks, p, i);
    }
    assert Wire(kvs)[0..] == Wire(kvs);
    ScanIsFold(update, DEFAULTS, Wire(kvs), 0, kvs);
  }

  lemma AnswerScanned(update: Update<Params>, ks: Keys, p: Params)
    requires WithinLimits(p) && UpdatesOwnFields(update, ks) && AllPlain(ks)
    ensures var answer := Wire(PrintedPairs(ks, p, 10));
            Scan(update, DEFAULTS, answer, |answer|) == p.(maxReceive := DEFAULTS.maxReceive) <==> Printable(p)
  {
    AnswerFolded(update, ks, p);
    FoldOfPrinted(update, ks, DEFAULTS, p, 10);
    AllFields(DEFAULTS, p);
  }

  /**
   * The answer to parameters `p`, negotiated afresh, gives the ten printed parameters of `p` again exactly when no
   * printed number is negative.
   */
  lemma AnswerRereads(p: Params)
    requires WithinLimits(p)
    ensures Negotiated(Wire(PrintedPairs(KEYS, p, 10))) == p.(maxReceive := DEFAULTS.maxReceive) <==> Printable(p)
  {
    UpdatedUpdatesOwnFields();
    KeysPlain();
    AnswerScanned(Updated, KEYS, p);
  }

  /** Free of every byte the text format gives a meaning to. */
  predicate Plain(s: seq<byte>)
  {
    forall k :: 0 <= k < |s| ==> s[k] != EQUALS && !Delimiter(s[k])
  }

  predicate PlainText(s: string)
  {
    forall i :: 0 <= i < |s| ==> '0' <= s[i] < 128 as char && s[i] != '='
  }

  lemma AsciiPlain(s: string)
    requires PlainText(s)
    ensures Plain(Ascii(s))
  {
  }

  predicate AllPlain(ks: Keys)
  {
    && (forall j: nat :: j < 11 ==> Plain(ks.Name(j)) && ks.Name(j) != [])
    && Plain(ks.yes)
  }

  lemma KeysPlain()
    ensures AllPlain(KEYS)
  {
    forall j: nat | j < 11 ensures Plain(KEYS.Name(j)) && KEYS.Name(j) != [] {
      if j < 5 {
        EarlyNamePlain(j);
      } else if j < 8 {
        MiddleNamePlain(j);
      } else {
        LateNamePlain(j);
      }
    }
    AsciiPlain("Yes");
  }

  lemma EarlyNamePlain(j: nat)
    requires j < 5
    ensures Plain(KEYS.Name(j)) && KEYS.Name(j) != []
  {
    match j
    case 0 => AsciiPlain("MaxConnections");
    case 1 => AsciiPlain("InitialR2T");
    case 2 => AsciiPlain("ImmediateData");
    case 3 => AsciiPlain("MaxBurstLength");
    case 4 => AsciiPlain("FirstBurstLength");
  }

  lemma MiddleNamePlain(j: nat)
    requires 5 <= j < 8
    ensures Plain(KEYS.Name(j)) && KEYS.Name(j) != []
  {
    match j
    case 5 => AsciiPlain("DataPDUInOrder");
    case 6 => AsciiPlain("DataSequenceInOrder");
    case 7 => AsciiPlain("DefaultTime2Wait");
  }

  lemma LateNamePlain(j: nat)
    requires 8 <= j < 11
    ensures Plain(KEYS.Name(j)) && KEYS.Name(j) != []
  {
    match j
    case 8 => AsciiPlain("DefaultTime2Retain");
    case 9 => AsciiPlain("MaxOutstandingR2T");
    case 10 => AsciiPlain("MaxRecvDataSegmentLength");
  }

  lemma DigitsPlain(s: seq<byte>)
    requires IsDigits(s)
    ensures Plain(s)
  {
  }

  lemma PrintIntPlain(n: int)
    requires n <= INT_MAX
    ensures Plain(PrintInt(n)) && |PrintInt(n)| <= 10
  {
    if n >= 0 {
      PrintParse(n);
      DigitsPlain(PrintInt(n));
    }
  }

  lemma PrintedPlain(ks: Keys, p: Params, j: nat)
    requires WithinLimits(p) && j < 10 && AllPlain(ks)
    ensures Scannable(PrintedPair(ks, p, j)) && Searchable(PrintedPair(ks, p, j))
    ensures |PrintedValue(p, j)| <= 10
  {
    PrintIntPlain(p.maxConnections);
    PrintIntPlain(p.maxBurst);
    PrintIntPlain(p.firstBurst);
    PrintIntPlain(p.time2Wait);
    PrintIntPlain(p.time2Retain);
    PrintIntPlain(p.maxOutstandingR2t);
    assert Plain(PrintedValue(p, j));
  }

  lemma PrintedKeysFound(ks: Keys, p: Params, j: nat)
    requires WithinLimits(p) && j < 10 && AllPlain(ks) && ks.PrefixFree()
    ensures var text := Wire(PrintedPairs(ks, p, 10));
            FindsValue(text, Find(text, ks.Name(j)), PrintedValue(p, j))
  {
    var kvs := PrintedPairs(ks, p, 10);
    forall i: nat | i < 10 ensures Searchable(kvs[i]) {
      PrintedPlain(ks, p, i);
    }
    forall i, k | 0 <= i < 10 && 0 <= k < 10 && kvs[i].key <= kvs[k].key ensures i == k {
      assert kvs[i].key == ks.Name(i) && kvs[k].key == ks.Name(k);
    }
    EveryKeyIsFound(kvs, j);
  }

  /** The initiator finds each of the ten keys of the answer, with its own value. */
  lemma AnswerKeysFound(p: Params, j: nat)
    requires WithinLimits(p) && j < 10
    ensures var text := Wire(PrintedPairs(KEYS, p, 10));
            FindsValue(text, Find(text, KEYS.Name(j)), PrintedValue(p, j))
  {
    KeysPlain();
    KeysPrefixFree();
    PrintedKeysFound(KEYS, p, j);
  }

  // Texts that negotiate printable parameters.

  /** The key of a number the target prints with an upper limit only. */
  predicate Capped(ks: Keys, key: seq<byte>)
  {
    ks.maxConnections <= key || ks.maxBurst <= key || ks.firstBurst <= key || ks.maxOutstandingR2t <= key
  }

  /** If the pair sets such a number, its value is not read as a negative one. */
  predicate NotNegative(ks: Keys, kv: Pair)
  {
    Capped(ks, kv.key) ==> ParseInt(kv.value) >= 0
  }

  /** Pairs the scan reads one by one, none of which sets a negative number. */
  predicate Harmless(ks: Keys, kvs: seq<Pair>)
  {
    forall i :: 0 <= i < |kvs| ==> Scannable(kvs[i]) && NotNegative(ks, kvs[i])
  }

  lemma NumbersAreNotNegative(ks: Keys, kv: Pair)
    requires IsDigits(kv.value) && Value(kv.value) <= INT_MAX
    ensures NotNegative(ks, kv)
  {
    ParseIntIsValue(kv.value);
    DigitsValueNonNegative(kv.value);
    Int32Fixed(Value(kv.value));
  }

  lemma UpdatedPrintable(ks: Keys, p: Params, key: seq<byte>, value: seq<byte>)
    requires Printable(p) && NotNegative(ks, Pair(key, value))
    ensures Printable(UpdatedBy(ks, p, key, value))
  {
    var n := ParseInt(value);
  }

  lemma {:induction false} FoldPrintable(update: Update<Params>, ks: Keys, p: Params, kvs: seq<Pair>)
    requires UpdatesBy(update, ks) && Printable(p) && forall i :: 0 <= i < |kvs| ==> NotNegative(ks, kvs[i])
    ensures Printable(Fold(update, p, kvs))
    decreases |kvs|
  {
    if kvs != [] {
      assert kvs[0] == Pair(kvs[0].key, kvs[0].value);
      UpdatedPrintable(ks, p, kvs[0].key, kvs[0].value);
      FoldPrintable(update, ks, update(p, kvs[0].key, kvs[0].value), kvs[1..]);
    }
  }

  lemma NegotiatedPrintable(update: Update<Params>, ks: Keys, kvs: seq<Pair>)
    requires UpdatesBy(update, ks) && Harmless(ks, kvs)
    ensures Printable(Scan(update, DEFAULTS, Wire(kvs), |Wire(kvs)|))
  {
    assert Wire(kvs)[0..] == Wire(kvs);
    ScanIsFold(update, DEFAULTS, Wire(kvs), 0, kvs);
    FoldPrintable(update, ks, DEFAULTS, kvs);
  }

  lemma UpdatedUpdatesByKeys()
    ensures UpdatesBy(Updated, KEYS)
  {
  }

  /**
   * The whole negotiation: pairs that set no negative number negotiate parameters within the target's limits;
   * answering leaves them as they are; and the answer negotiates the ten printed ones again.
   */
  lemma NegotiationIsStable(kvs: seq<Pair>)
    requires Harmless(KEYS, kvs)
    ensures var p := Negotiated(Wire(kvs));
            && p == Fold(Updated, DEFAULTS, kvs) && WithinLimits(p)
            && Fold(Updated, p, PrintedPairs(KEYS, p, 10)) == p
            && Negotiated(Wire(PrintedPairs(KEYS, p, 10))) == p.(maxReceive := DEFAULTS.maxReceive)
  {
    UpdatedUpdatesByKeys();
    NegotiatedPrintable(Updated, KEYS, kvs);
    ScanWithinLimits(Wire(kvs), |Wire(kvs)|);
    assert Wire(kvs)[0..] == Wire(kvs);
    ScanIsFold(Updated, DEFAULTS, Wire(kvs), 0, kvs);
    GeneratingIsFixedPoint(Negotiated(Wire(kvs)));
    AnswerRereads(Negotiated(Wire(kvs)));
  }
}
