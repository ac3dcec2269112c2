/**
 * What each of the eleven names negotiates, and what the answer tells the initiator, number by number
 * (iscsi_connection_parameter.c:7-17, 61-109; iscsi_define.h:26-36).
 */
module NegotiatedValues {
  import opened Bytes
  import opened Decimals
  import opened Lookup
  import opened Pdus
  import opened Negotiation
  import opened GeneratedText
  import opened LoginEndToEnd
  import opened Model
  import opened Runs

  /** The names, as an initiator writes them. */
  function ParameterName(j: nat): seq<byte>
  {
    match j
    case 0 => Ascii("MaxConnections")
    case 1 => Ascii("InitialR2T")
    case 2 => Ascii("ImmediateData")
    case 3 => Ascii("MaxBurstLength")
    case 4 => Ascii("FirstBurstLength")
    case 5 => Ascii("DataPDUInOrder")
    case 6 => Ascii("DataSequenceInOrder")
    case 7 => Ascii("DefaultTime2Wait")
    case 8 => Ascii("DefaultTime2Retain")
    case 9 => Ascii("MaxOutstandingR2T")
    case _ => Ascii("MaxRecvDataSegmentLength")
  }

  predicate IsNumber(j: nat)
  {
    j in {0, 3, 4, 7, 8, 9, 10}
  }

  predicate IsFlag(j: nat)
  {
    j in {1, 2, 5, 6}
  }

  function NumberIn(p: Params, j: nat): int
  {
    match j
    case 0 => p.maxConnections
    case 3 => p.maxBurst
    case 4 => p.firstBurst
    case 7 => p.time2Wait
    case 8 => p.time2Retain
    case 9 => p.maxOutstandingR2t
    case _ => p.maxReceive
  }

  predicate FlagIn(p: Params, j: nat)
  {
    match j
    case 1 => p.initialR2t
    case 2 => p.immediateData
    case 5 => p.pduInOrder
    case _ => p.sequenceInOrder
  }

  /** What the target makes of an offered number. */
  function Granted(j: nat, v: int): int
  {
    match j
    case 0 => Min(v, 1)
    case 3 => Min(v, 8192)
    case 4 => Min(v, 8192)
    case 7 => Max(v, 10)
    case 8 => Max(v, 10)
    case 9 => Min(v, 10)
    case _ => Min(v, 1047576)
  }

  function NumberByDefault(j: nat): int
  {
    match j
    case 0 => 1
    case 3 => 8192
    case 4 => 8192
    case 10 => 1048576
    case _ => 10
  }

  /** The value of the last pair whose key starts with the name. */
  function LastValue(kvs: seq<Pair>, name: seq<byte>): Option<seq<byte>>
  {
    if kvs == [] then None
    else if LastValue(kvs[1..], name).Some? then LastValue(kvs[1..], name)
    else if name <= kvs[0].key then Some(kvs[0].value)
    else None
  }

  lemma NameIs(j: nat)
    requires j < 11
    ensures KEYS.Name(j) == ParameterName(j)
  {
  }

  lemma UpdateGrants(ks: Keys, p: Params, key: seq<byte>, value: seq<byte>, j: nat)
    requires IsNumber(j)
    ensures NumberIn(UpdatedBy(ks, p, key, value), j)
            == if ks.Name(j) <= key then Granted(j, ParseInt(value)) else NumberIn(p, j)
  {
  }

  lemma {:induction false} FoldGrants(update: Update<Params>, ks: Keys, p: Params, kvs: seq<Pair>, j: nat)
    requires UpdatesBy(update, ks) && IsNumber(j)
    ensures NumberIn(Fold(update, p, kvs), j)
            == match LastValue(kvs, ks.Name(j))
               case None => NumberIn(p, j)
               case Some(v) => Granted(j, ParseInt(v))
    decreases |kvs|
  {
    if kvs != [] {
      UpdateGrants(ks, p, kvs[0].key, kvs[0].value, j);
      FoldGrants(update, ks, update(p, kvs[0].key, kvs[0].value), kvs[1..], j);
    }
  }

  lemma NegotiatedFold(kvs: seq<Pair>)
    requires forall i :: 0 <= i < |kvs| ==> Scannable(kvs[i])
    ensures Negotiated(Wire(kvs)) == Fold(Updated, DEFAULTS, kvs)
  {
    assert Wire(kvs)[0..] == Wire(kvs);
    ScanIsFold(Updated, DEFAULTS, Wire(kvs), 0, kvs);
  }

  lemma DigitsParse(v: seq<byte>)
    requires IsDigits(v) && Value(v) <= INT_MAX
    ensures ParseInt(v) == Value(v)
  {
    ParseIntIsValue(v);
    DigitsValueNonNegative(v);
    Int32Fixed(Value(v));
  }

  /**
   * Each of the seven numbers: of a list of pairs the last one with its name counts, up to the target's limit; without
   * one the number is its default.
   */
  lemma NumberNegotiated(kvs: seq<Pair>, j: nat)
    requires (forall i :: 0 <= i < |kvs| ==> Scannable(kvs[i])) && IsNumber(j)
    ensures var n, last := NumberIn(Negotiated(Wire(kvs)), j), LastValue(kvs, ParameterName(j));
            && (last.None? ==> n == NumberByDefault(j))
            && (last.Some? && IsDigits(last.value) && Value(last.value) <= INT_MAX ==>
                  n == Granted(j, Value(last.value)))
  {
    NameIs(j);
    UpdatedUpdatesByKeys();
    NegotiatedFold(kvs);
    FoldGrants(Updated, KEYS, DEFAULTS, kvs, j);
    var last := LastValue(kvs, ParameterName(j));
    if last.Some? && IsDigits(last.value) && Value(last.value) <= INT_MAX {
      DigitsParse(last.value);
    }
  }

  /** Each of the four flags is on, whatever any text says. */
  lemma FlagNegotiated(text: seq<byte>, j: nat)
    requires IsFlag(j)
    ensures FlagIn(Negotiated(text), j)
  {
    ScanWithinLimits(text, |text|);
  }

  // What the initiator is told.

  function FlagText(on: bool): seq<byte>
  {
    if on then Ascii("YES") else Ascii("NO")
  }

  /** The value found for the j-th name in a text is the j-th parameter of p, as people write it. */
  ghost predicate Told(text: seq<byte>, p: Params, j: nat)
  {
    var found := Find(text, ParameterName(j));
    && found.Some? && found.value <= |text|
    && var v := CString(text, found.value);
       if IsNumber(j) then Canonical(v) && Value(v) == NumberIn(p, j)
       else v == FlagText(FlagIn(p, j))
  }

  lemma PrintedIs(p: Params, j: nat)
    requires WithinLimits(p) && j < 10 && (IsNumber(j) ==> 0 <= NumberIn(p, j))
    ensures var v := PrintedValue(p, j);
            if IsNumber(j) then Canonical(v) && Value(v) == NumberIn(p, j)
            else v == FlagText(FlagIn(p, j))
  {
    if IsNumber(j) {
      PrintedNumber(NumberIn(p, j));
    }
  }

  lemma PrintedNumber(n: int)
    requires 0 <= n <= INT_MAX
    ensures Canonical(PrintInt(n)) && Value(PrintInt(n)) == n
  {
    PrintParse(n);
    if n == 0 {
      assert PrintInt(0)[..0] == [];
    } else {
      DigitsValue(n);
    }
  }

  lemma AnswerTells(p: Params, j: nat)
    requires WithinLimits(p) && j < 10 && (IsNumber(j) ==> 0 <= NumberIn(p, j))
    ensures Told(AnswerText(p), p, j)
  {
    NameIs(j);
    AnswerKeysFound(p, j);
    PrintedIs(p, j);
  }

  lemma HarmlessNumber(kvs: seq<Pair>, j: nat)
    requires Harmless(KEYS, kvs) && IsNumber(j) && j < 10
    ensures 0 <= NumberIn(Fold(Updated, DEFAULTS, kvs), j)
  {
    UpdatedUpdatesByKeys();
    FoldPrintable(Updated, KEYS, DEFAULTS, kvs);
    ScanWithinLimits(Wire(kvs), |Wire(kvs)|);
    NegotiationIsStable(kvs);
  }

  /**
   * An operational Login whose text is a list of pairs that sets no negative number, from the request to the response:
   * each number the target keeps is the last one offered, up to its limit, or the default; each flag is on; and the
   * response tells the initiator all of them but MaxRecvDataSegmentLength.
   */
  lemma LoginTells(st: State, e: Event, kvs: seq<Pair>, j: nat)
    requires StepOk(st, e) && !InFullFeature(st) && j < 11
    requires Opcode(e.request) == LOGIN && !Continue(e.request) && Csg(e.request) == 1 && SetUpSucceeds(st, e.request)
    requires LoginData(e.request) == Wire(kvs) && Harmless(KEYS, kvs)
    ensures var o := Step(st, e.request, e.reply);
            var p, last, f := o.state.conn.params, LastValue(kvs, ParameterName(j)), Appended(st, o.state);
            && (IsNumber(j) && last.None? ==> NumberIn(p, j) == NumberByDefault(j))
            && (IsNumber(j) && last.Some? && IsDigits(last.value) && Value(last.value) <= INT_MAX ==>
                  NumberIn(p, j) == Granted(j, Value(last.value)))
            && (!IsNumber(j) ==> FlagIn(p, j))
            && |f| >= HEADER && (j < 10 ==> Told(Segment(f), p, j))
  {
    var o := Step(st, e.request, e.reply);
    BothSidesAgree(st, e, kvs, o);
    NegotiationIsStable(kvs);
    if IsNumber(j) {
      NumberNegotiated(kvs, j);
    } else {
      FlagNegotiated(Wire(kvs), j);
    }
    ResponseText(st, e, kvs);
    if j < 10 {
      if IsNumber(j) {
        HarmlessNumber(kvs, j);
      }
      AnswerTells(o.state.conn.params, j);
    }
  }

  lemma ResponseText(st: State, e: Event, kvs: seq<Pair>)
    requires StepOk(st, e) && !InFullFeature(st)
    requires Opcode(e.request) == LOGIN && !Continue(e.request) && Csg(e.request) == 1 && SetUpSucceeds(st, e.request)
    requires LoginData(e.request) == Wire(kvs) && Harmless(KEYS, kvs)
    ensures var t := Step(st, e.request, e.reply).state;
            |Appended(st, t)| >= HEADER && Segment(Appended(st, t)) == AnswerText(Fold(Updated, DEFAULTS, kvs))
  {
    var s := LoggingIn(st, e.request);
    var p := Negotiated(Wire(kvs));
    LoginStep(st, e, s);
    NegotiatedWell(kvs, p);
    AnsweredText(s, e.request, p);
  }

  lemma AnsweredText(s: State, req: Header, p: Params)
    requires Csg(req) == 1 && req[4] == 0 && p == s.conn.params && AnsweredWell(p)
    requires IsInt(s.conn.statSn) && IsInt(s.conn.expCmdSn)
    ensures var t := FinalLogin(s, req).state;
            |Appended(s, t)| >= HEADER && Segment(Appended(s, t)) == AnswerText(p)
  {
    FinalOutcome(s, req, p, FinalLogin(s, req));
    FinalReplyReads(s.conn.(text := AnswerText(p)), s.session.tsih, req, StageStatus(req), AnswerText(p));
  }
}
