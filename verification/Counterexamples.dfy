/** The promises the code does not keep, each on a concrete input that a fresh process can be given. */
module Counterexamples {
  import opened Bytes
  import opened Decimals
  import opened Lookup
  import opened Pdus
  import opened Negotiation
  import opened GeneratedText
  import opened Model
  import opened Runs
  import opened ReadPath
  import opened Transfers
  import opened EndToEndWrite
  import opened WriteCompletes
  import opened StaleEntry
  import opened Tags
  import opened Origins
  import opened ImmediateData
  import opened ConcreteLogin
  import opened SessionSafety
  import opened UnsetSessions
  import opened LastLogin
  import opened Misframing
  import opened LoginEndToEnd

  /** A write command of `total` bytes with some of them as immediate data. */
  function WritePdu(total: int, immediate: seq<byte>): Pdu
  {
    Pdu(SCSI_CMD, 32, 0, 0, 0, total, 0, 0, 0, 0, 0, 0, immediate)
  }

  lemma WriteReads(total: int, immediate: seq<byte>, req: seq<byte>)
    requires |immediate| <= total <= MEMORY_SIZE && req == Encode(WritePdu(total, immediate))
    ensures IsFrame(req) && req[4] == 0 && Opcode(req) == SCSI_CMD && IsWrite(req) && !IsRead(req)
    ensures NeedsR2t(req) <==> |immediate| < total
    ensures ExpectedLength(req) == total && DataLength(req) == |immediate| && Segment(req) == immediate
  {
    var p := WritePdu(total, immediate);
    EncodeDecode(p);
    EncodedParts(p);
    HeaderFields(p, req);
    Nat24RoundTrip(req, 5, |immediate|);
  }

  /** The command starts in a session that has just logged in. */
  lemma WriteStartsAfterLogin(st: State, total: int, immediate: seq<byte>, data: seq<byte>, cmd: Event)
    requires Ready(st, 0) && Advance(st.session.transferTag, 1) != DEFAULT_TAG
    requires |immediate| < total <= MEMORY_SIZE && |data| == total
    requires cmd == Event(Encode(WritePdu(total, immediate)), Failed)
    ensures Starts(st, cmd, data, 0)
  {
    WriteReads(total, immediate, cmd.request);
  }

  lemma NothingMore()
    ensures AllSearchable([]) && Harmless(KEYS, []) && Fold(Updated, DEFAULTS, []) == DEFAULTS
    ensures |Wire(LoginPairs([]))| <= PARAMETER_BUFFER_SIZE
  {
    var kvs := LoginPairs([]);
    assert |kvs| == 3;
    assert |Wire(kvs[3..])| == 0;
    assert |Wire(kvs[2..])| <= 100 by { assert kvs[2..][1..] == kvs[3..]; }
    assert |Wire(kvs[1..])| <= 200 by { assert kvs[1..][1..] == kvs[2..]; }
  }

  /** What the device sees of a transfer of two bytes, one of them immediate, over a zero entry. */
  lemma SecondByteOnly(fires: seq<Execution>, w: Write, front: seq<byte>)
    requires w.total == 2 && w.data == [7, 9] && front == [0] && FiredOnce(fires, w, 1) && Sees(fires, front)
    ensures |fires| == 1 && [0, 9] <= fires[0].buffer
  {
    var b := fires[0].buffer;
    assert b[..1] == [0] && b[1..2] == w.data[1..2] == [9];
    assert b[..2] == b[..1] + b[1..2];
  }

  lemma ImmediateByteLost(st: State, cmd: Event, es: seq<Event>)
    requires LoggedIn(Init(DEFAULTS, []), st, DEFAULTS)
    requires Exchange(st, cmd, [7, 9], 0, es) && DataLength(cmd.request) == 1
    ensures |Executions(st, cmd, es)| == 1 && [0, 9] <= Executions(st, cmd, es)[0].buffer
  {
    assert DivideRoundUp(1, DEFAULTS.maxReceive) == 1;
    var m := WriteReachesTheDevice(st, cmd, [7, 9], 0, es);
    DeviceSeesStaleFront(st, cmd, [7, 9], 0, es);
    FrontOfZeros(st);
    SecondByteOnly(Executions(st, cmd, es), WriteOf(st, cmd, [7, 9], 0), Front(st, 1));
  }

  lemma FrontOfZeros(st: State)
    requires st.session.entry.data == Zeros(MEMORY_SIZE)
    ensures Front(st, 1) == [0]
  {
  }

  /**
   * ImmediateData is Yes, the initiator sends the first of two bytes with the command and the second when asked; the
   * device runs on a zero and the second.
   */
  lemma ImmediateByteIsLost() returns (login: Event, st: State, cmd: Event, es: seq<Event>)
    ensures Admissible(Init(DEFAULTS, []), [login]) && st == Run(Init(DEFAULTS, []), [login])
    ensures Exchange(st, cmd, [7, 9], 0, es) && Segment(cmd.request) == [7]
    ensures |Executions(st, cmd, es)| == 1 && [0, 9] <= Executions(st, cmd, es)[0].buffer
  {
    NothingMore();
    login, st := FreshLogin([]);
    cmd := Event(Encode(WritePdu(2, [7])), Failed);
    WriteReads(2, [7], cmd.request);
    WriteStartsAfterLogin(st, 2, [7], [7, 9], cmd);
    es := EveryWriteHasAnExchange(st, cmd, [7, 9], 0);
    ImmediateByteLost(st, cmd, es);
  }

  /** A write of one byte, brought by the command: the device runs on the zero it had. */
  lemma WholeWriteIsLost() returns (login: Event, st: State, cmd: Event)
    ensures Admissible(Init(DEFAULTS, []), [login]) && st == Run(Init(DEFAULTS, []), [login])
    ensures WriteCommand(st, cmd, [7], 0) && !NeedsR2t(cmd.request) && Segment(cmd.request) == [7]
    ensures Admissible(Started(st, cmd), []) && |Outcomes(st, cmd, [])| == 1 && [0] <= Outcomes(st, cmd, [])[0].buffer
  {
    NothingMore();
    login, st := FreshLogin([]);
    cmd := Event(Encode(WritePdu(1, [7])), Failed);
    WriteReads(1, [7], cmd.request);
    WholeOutcome(st, cmd, []);
    FirstOfZeros(st.target.buffer);
  }

  lemma FirstOfZeros(b: seq<byte>)
    requires b == Zeros(MEMORY_SIZE)
    ensures [0] <= b
  {
  }

  // A write that starves.

  lemma ReceiveOne(ks: Keys, p: Params, value: seq<byte>)
    requires ks.PrefixFree() && ParseInt(value) == 1
    ensures UpdatedBy(ks, p, ks.maxReceive, value) == p.(maxReceive := 1)
  {
    OwnHitsOnly(ks, 10);
    ReceiveFromHits(ks, p, ks.maxReceive, value);
  }

  lemma ReceiveFromHits(ks: Keys, p: Params, key: seq<byte>, value: seq<byte>)
    requires Hits(ks, key) == seq(11, i => i == 10) && ParseInt(value) == 1
    ensures UpdatedBy(ks, p, key, value) == p.(maxReceive := 1)
  {
    var h := Hits(ks, key);
    assert !h[0] && !h[1] && !h[2] && !h[3] && !h[4] && !h[5] && !h[6] && !h[7] && !h[8] && !h[9] && h[10];
  }

  lemma One()
    ensures ParseInt(Ascii("1")) == 1 && Plain(Ascii("1")) && |Ascii("1")| == 1
  {
    assert Ascii("1")[..0] == [];
  }

  /** MaxRecvDataSegmentLength=1 */
  function ReceiveOnePairs(): seq<Pair>
  {
    [Pair(KEYS.maxReceive, Ascii("1"))]
  }

  lemma ReceiveOneMore()
    ensures AllSearchable(ReceiveOnePairs()) && Harmless(KEYS, ReceiveOnePairs())
    ensures Fold(Updated, DEFAULTS, ReceiveOnePairs()) == DEFAULTS.(maxReceive := 1)
    ensures |Wire(LoginPairs(ReceiveOnePairs()))| <= PARAMETER_BUFFER_SIZE
  {
    One();
    KeysPlain();
    KeysPrefixFree();
    var kv := ReceiveOnePairs()[0];
    assert KEYS.Name(10) == kv.key && Plain(KEYS.Name(10));
    ReceiveOne(KEYS, DEFAULTS, kv.value);
    assert ReceiveOnePairs()[1..] == [];
    assert ParseInt(kv.value) >= 0;
  }

  lemma ElevenNotAllowed(st: State, cmd: Event)
    requires st.conn.params == DEFAULTS.(maxReceive := 1) && |cmd.request| >= HEADER
    requires ExpectedLength(cmd.request) == 11 && DataLength(cmd.request) == 0
    ensures !Allowed(st, cmd)
  {
    assert DivideRoundUp(11, 1) == 11;
  }

  /**
   * The initiator asks for PDUs of one byte and writes eleven: it answers the ten R2Ts it gets, and the command never
   * runs.
   */
  lemma ElevenBytesStarve() returns (login: Event, st: State, cmd: Event, es: seq<Event>)
    ensures Admissible(Init(DEFAULTS, []), [login]) && st == Run(Init(DEFAULTS, []), [login])
    ensures Exchange(st, cmd, Zeros(11), 0, es) && |es| == 10 && Executions(st, cmd, es) == []
  {
    ReceiveOneMore();
    login, st := FreshLogin(ReceiveOnePairs());
    cmd := Event(Encode(WritePdu(11, [])), Failed);
    WriteReads(11, [], cmd.request);
    WriteStartsAfterLogin(st, 11, [], Zeros(11), cmd);
    ElevenNotAllowed(st, cmd);
    es := EveryWriteHasAnExchange(st, cmd, Zeros(11), 0);
    assert DivideRoundUp(11, 1) == 11;
  }

  // The last Data-Out again.

  lemma {:induction false} LastCountMore(es: seq<Event>, e: Event, w: Write)
    ensures LastCount(es + [e], w) == LastCount(es, w) + if Last(e, w) then 1 else 0
  {
    if es == [] {
      assert [] + [e] == [e] && [e][1..] == [];
    } else {
      assert (es + [e])[1..] == es[1..] + [e];
      LastCountMore(es[1..], e, w);
    }
  }

  lemma {:induction false} AdmissibleMore(st: State, es: seq<Event>, e: Event)
    requires InFullFeature(st) && Admissible(st, es) && StepOk(Run(st, es), e)
    ensures Admissible(st, es + [e])
    decreases |es|
  {
    if es == [] {
      RunOfOne(st, e);
      assert [] + [e] == [e];
    } else {
      assert (es + [e])[0] == es[0] && (es + [e])[1..] == es[1..] + [e];
      StaysLoggedIn(st, es[0]);
      AdmissibleMore(Step(st, es[0].request, es[0].reply).state, es[1..], e);
    }
  }

  lemma RepeatOk(s: State, t: State, e: Event)
    requires StepOk(s, e) && Opcode(e.request) == SCSI_DATA_OUT && t.Valid()
    ensures StepOk(t, e)
  {
  }

  lemma RepeatAdmissible(t: State, w: Write, es: seq<Event>, e: Event, s: State)
    requires InProgress(t, w) && Admissible(t, es) && AllFit(es, w) && Last(e, w) && StepOk(s, e)
    ensures Admissible(t, es + [e])
  {
    AnswersFromZero(es, w);
    RunKeepsFront(t, w, es, 0);
    RepeatOk(s, Run(t, es), e);
    AdmissibleMore(t, es, e);
  }

  /** Sending the event that ends a transfer once more runs the command once more. */
  lemma RepeatFires(t: State, w: Write, es: seq<Event>, e: Event, s: State)
    requires InProgress(t, w) && Admissible(t, es) && AllFit(es, w) && Last(e, w) && StepOk(s, e)
    ensures Admissible(t, es + [e])
    ensures |Fires(Run(t, es + [e]).target.log, |t.target.log|, w.tag)|
            == |Fires(Run(t, es).target.log, |t.target.log|, w.tag)| + 1
  {
    RepeatAdmissible(t, w, es, e, s);
    EveryLastAnswerFires(t, w, es, |t.target.log|);
    EveryLastAnswerFires(t, w, es + [e], |t.target.log|);
    LastCountMore(es, e, w);
  }

  lemma LastIsOk(t: State, es: seq<Event>) returns (s: State)
    requires InFullFeature(t) && Admissible(t, es) && es != []
    ensures StepOk(s, es[|es| - 1])
  {
    SplitRun(t, es, |es| - 1);
    s := Run(t, es[..|es| - 1]);
    assert es[|es| - 1..][0] == es[|es| - 1];
  }

  lemma AnswersFromZero(es: seq<Event>, w: Write)
    ensures AnswersFrom(es, w, 0)
  {
  }

  /** For every write that may run: the exchange, and then its last Data-Out again, which runs the command again. */
  lemma EveryWriteCanFireTwice(st: State, cmd: Event, data: seq<byte>, sn: int) returns (es: seq<Event>, e: Event)
    requires Starts(st, cmd, data, sn) && IsInt(sn) && Allowed(st, cmd)
    ensures Exchange(st, cmd, data, sn, es) && es != [] && e == es[|es| - 1]
    ensures |es| == |PlanOf(st.conn.params, cmd.request)|
    ensures Admissible(Started(st, cmd), es + [e]) && |Executions(st, cmd, es + [e])| == 2
  {
    es := EveryWriteHasAnExchange(st, cmd, data, sn);
    var m := WriteReachesTheDevice(st, cmd, data, sn, es);
    e := es[|es| - 1];
    var t, w := Started(st, cmd), WriteOf(st, cmd, data, sn);
    ExchangeBegins(st, cmd, data, sn, es, t, w);
    assert Answer(e, w) && m == |es| - 1;
    var s := LastIsOk(t, es);
    RepeatFires(t, w, es, e, s);
    WriteRunsIff(st, cmd, data, sn, es);
  }

  lemma OneAllowed(st: State, cmd: Event)
    requires st.conn.params == DEFAULTS && |cmd.request| >= HEADER
    requires ExpectedLength(cmd.request) == 1 && DataLength(cmd.request) == 0
    ensures Allowed(st, cmd) && |PlanOf(st.conn.params, cmd.request)| == 1
  {
    assert DivideRoundUp(1, DEFAULTS.maxReceive) == 1;
  }

  /** One byte written, its only Data-Out sent twice: the device gets the command twice. */
  lemma OneByteTwice() returns (login: Event, st: State, cmd: Event, e: Event)
    ensures Admissible(Init(DEFAULTS, []), [login]) && st == Run(Init(DEFAULTS, []), [login])
    ensures StepOk(st, cmd) && Admissible(Started(st, cmd), [e, e]) && |Executions(st, cmd, [e, e])| == 2
  {
    NothingMore();
    login, st := FreshLogin([]);
    cmd := Event(Encode(WritePdu(1, [])), Failed);
    WriteReads(1, [], cmd.request);
    WriteStartsAfterLogin(st, 1, [], [9], cmd);
    e := OneByteFiresTwice(st, cmd);
  }

  lemma Twice(es: seq<Event>, e: Event)
    requires |es| == 1 && e == es[|es| - 1]
    ensures es + [e] == [e, e]
  {
  }

  lemma OneByteFiresTwice(st: State, cmd: Event) returns (e: Event)
    requires Starts(st, cmd, [9], 0) && st.conn.params == DEFAULTS
    requires ExpectedLength(cmd.request) == 1 && DataLength(cmd.request) == 0
    ensures Admissible(Started(st, cmd), [e, e]) && |Executions(st, cmd, [e, e])| == 2
  {
    OneAllowed(st, cmd);
    var es;
    es, e := EveryWriteCanFireTwice(st, cmd, [9], 0);
    Twice(es, e);
  }

  // A command nobody gave.

  /** A Data-Out for transfer 0, at offset 0, without data. */
  const StrayPdu := Pdu(SCSI_DATA_OUT, 128, 0, 0, 0, 0, 0, 0, 0, 0, 0, 0, [])

  lemma StrayReads(req: seq<byte>)
    requires req == Encode(StrayPdu)
    ensures IsFrame(req) && req[4] == 0 && Opcode(req) == SCSI_DATA_OUT && DataLength(req) == 0
    ensures TransferTag(req) == 0 && BufferOffset(req) == 0 && CmdSn(req) == 0
  {
    EncodeDecode(StrayPdu);
    EncodedParts(StrayPdu);
    HeaderFields(StrayPdu, req);
    Nat24RoundTrip(req, 5, 0);
  }

  /** No SCSI command at all, and the device is given one of sixteen zero bytes. */
  lemma StrayDataOutRuns() returns (login: Event, e: Event)
    ensures Admissible(Init(DEFAULTS, []), [login, e]) && CommandCount([login, e]) == 0
    ensures Run(Init(DEFAULTS, []), [login, e]).target.log
            == [Execution(Zeros(CDB_LENGTH), Zeros(MEMORY_SIZE), Some(0))]
  {
    var st;
    NothingMore();
    login, st := FreshLogin([]);
    e := Event(Encode(StrayPdu), Failed);
    StrayIsServed(st, e);
    StrayAfterLogin(Init(DEFAULTS, []), login, e, st);
    NoCommandInTwo(login, e);
  }

  lemma StrayIsServed(st: State, e: Event)
    requires Ready(st, 0) && e == Event(Encode(StrayPdu), Failed)
    ensures StepOk(st, e) && Stray(st, e) && !IsCommand(e)
  {
    StrayReads(e.request);
  }

  lemma NoCommandInTwo(e: Event, f: Event)
    requires CommandCount([e]) == 0 && !IsCommand(f)
    ensures CommandCount([e, f]) == 0
  {
    assert [e, f][1..] == [f] && [f][1..] == [] && [e][1..] == [];
  }

  lemma StrayAfterLogin(st: State, login: Event, e: Event, t: State)
    requires st == Init(DEFAULTS, []) && Admissible(st, [login]) && t == Run(st, [login])
    requires LoggedIn(st, t, DEFAULTS) && Ready(t, 0) && StepOk(t, e) && Stray(t, e)
    ensures Admissible(st, [login, e])
    ensures Run(st, [login, e]).target.log == [Execution(Zeros(CDB_LENGTH), Zeros(MEMORY_SIZE), Some(0))]
  {
    InitSound(DEFAULTS, []);
    RunKeepsSound(st, [login]);
    RunOfOne(st, login);
    StepKeepsSound(st, login);
    RunOfTwo(st, login, e, t);
    RunOfOne(t, e);
    StrayRuns(t, e, Step(t, e.request, e.reply).state);
  }

  // A read that fails.

  const ReadPdu := Pdu(SCSI_CMD, 64, 0, 0, 0, 1, 0, 0, 0, 0, 0, 0, [])

  lemma ReadReads(req: seq<byte>)
    requires req == Encode(ReadPdu)
    ensures IsFrame(req) && req[4] == 0 && Opcode(req) == SCSI_CMD && IsRead(req) && !IsWrite(req)
    ensures ExpectedLength(req) == 1 && DataLength(req) == 0
  {
    EncodeDecode(ReadPdu);
    EncodedParts(ReadPdu);
    HeaderFields(ReadPdu, req);
    Nat24RoundTrip(req, 5, 0);
  }

  /** The device does not execute the read of one byte; the initiator reads a zero, with status GOOD. */
  lemma FailedReadLooksGood() returns (login: Event, st: State, cmd: Event)
    ensures Admissible(Init(DEFAULTS, []), [login]) && st == Run(Init(DEFAULTS, []), [login])
    ensures StepOk(st, cmd) && IsRead(cmd.request) && cmd.reply == Failed
    ensures var ps := Parse(Appended(st, Step(st, cmd.request, cmd.reply).state));
            AllGood(ps, cmd.request) && !Honest(ps, cmd.reply) && PlaceAll([9], ps) == [0]
  {
    NothingMore();
    login, st := FreshLogin([]);
    cmd := Event(Encode(ReadPdu), Failed);
    ReadReads(cmd.request);
    FailedRead(st, cmd);
  }

  lemma FailedRead(st: State, cmd: Event)
    requires ReadCommand(st, cmd) && cmd.reply == Failed && ExpectedLength(cmd.request) == 1
    requires st.target.buffer == Zeros(MEMORY_SIZE)
    ensures var ps := Parse(Appended(st, Step(st, cmd.request, cmd.reply).state));
            AllGood(ps, cmd.request) && !Honest(ps, cmd.reply) && PlaceAll([9], ps) == [0]
  {
    ReadEndToEnd(st, cmd, [9]);
    ReadIsHonestIff(st, cmd, [9]);
    FirstOfZeros(st.target.buffer);
  }

  // A text that answers itself wrongly.

  /** MaxConnections=-5 */
  function MinusFive(): seq<Pair>
  {
    [Pair(KEYS.maxConnections, Ascii("-5"))]
  }

  lemma MinusFiveParsed()
    ensures ParseInt(Ascii("-5")) == -25 && Plain(Ascii("-5"))
  {
    var s := Ascii("-5");
    assert s[..1] == ['-' as int] && s[..1][..0] == [];
    assert ParseInt(s[..1]) == -3;
  }

  /**
   * '-' counts as the digit -3: the text negotiates -25 connections, is answered with an empty number, and reading the
   * answer gives 0.
   */
  lemma NegativeNumberIsNoFixedPoint()
    ensures var p := Negotiated(Wire(MinusFive()));
            && p == DEFAULTS.(maxConnections := -25) && !Printable(p)
            && PrintedValue(p, 0) == [] && Fold(Updated, p, PrintedPairs(KEYS, p, 10)) != p
            && Negotiated(Wire(PrintedPairs(KEYS, p, 10))) != p.(maxReceive := DEFAULTS.maxReceive)
  {
    var kvs := MinusFive();
    MinusFiveScanned();
    var p := Negotiated(Wire(kvs));
    GeneratingIsFixedPoint(p);
    AnswerRereads(p);
  }

  lemma MinusFiveScanned()
    ensures Negotiated(Wire(MinusFive())) == DEFAULTS.(maxConnections := -25)
  {
    var kvs := MinusFive();
    MinusFiveParsed();
    KeysPlain();
    KeysPrefixFree();
    assert KEYS.Name(0) == kvs[0].key && Plain(KEYS.Name(0));
    assert Wire(kvs)[0..] == Wire(kvs) && kvs[1..] == [];
    ScanIsFold(Updated, DEFAULTS, Wire(kvs), 0, kvs);
    UpdatedOwnField(KEYS, DEFAULTS, 0, kvs[0].value);
  }

  // A parameter that is forgotten.

  /** T = 0, C = 0, CSG = 1: the first of several Logins. */
  function FirstLoginPdu(): Pdu
  {
    StagePdu(4, Wire(LoginPairs(ReceiveOnePairs())))
  }

  lemma FirstLoginOk(st: State, e: Event)
    requires st == Init(DEFAULTS, []) && e == Event(Encode(FirstLoginPdu()), Failed)
    ensures StepOk(st, e) && Opcode(e.request) == LOGIN && !Continue(e.request) && Csg(e.request) == 1
    ensures !Completes(e.request) && Tsih(e.request) == 0
    ensures LoginData(e.request) == Wire(LoginPairs(ReceiveOnePairs()))
  {
    ReceiveOneMore();
    StageReads(4, Wire(LoginPairs(ReceiveOnePairs())), e.request);
    FirstLoginBits(e.request);
    PairsProcessed(ReceiveOnePairs());
    LoginStepOk(st, e, Wire(LoginPairs(ReceiveOnePairs())));
  }

  lemma FirstLoginBits(req: Header)
    requires req[1] == 4
    ensures !Continue(req) && !Completes(req) && Csg(req) == 1
  {
  }

  lemma FirstLoginKeepsOne(st: State, e: Event, o: Outcome)
    requires st == Init(DEFAULTS, []) && StepOk(st, e) && Opcode(e.request) == LOGIN && !Continue(e.request)
    requires Csg(e.request) == 1 && !Completes(e.request) && Tsih(e.request) == 0
    requires LoginData(e.request) == Wire(LoginPairs(ReceiveOnePairs())) && o == Step(st, e.request, e.reply)
    ensures !o.terminate && o.state.conn.attached && !o.state.session.fullFeature
    ensures o.state.conn.params == DEFAULTS.(maxReceive := 1)
  {
    var more := ReceiveOnePairs();
    ReceiveOneMore();
    LoginHarmless(more);
    FoldOfLogin(more);
    PairsProcessed(more);
    InitSound(DEFAULTS, []);
    FirstLogin(st, e, o);
    SetUpOk(Reparametrised(st, Negotiated(LoginData(e.request)), LoginData(e.request)), e.request);
    BothSidesAgree(st, e, LoginPairs(more), o);
  }

  /** MaxRecvDataSegmentLength=1 in a first Login, which keeps it; the second, without any key, loses it. */
  lemma SecondLoginForgets() returns (first: Event, second: Event)
    ensures Admissible(Init(DEFAULTS, []), [first]) && Admissible(Init(DEFAULTS, []), [first, second])
    ensures Run(Init(DEFAULTS, []), [first]).conn.params == DEFAULTS.(maxReceive := 1)
    ensures var st := Run(Init(DEFAULTS, []), [first, second]);
            st.session.fullFeature && st.conn.params == DEFAULTS
  {
    var st := Init(DEFAULTS, []);
    first := Event(Encode(FirstLoginPdu()), Failed);
    second := Event(Encode(LoginPdu([])), Failed);
    FirstLoginOk(st, first);
    var o := Step(st, first.request, first.reply);
    FirstLoginKeepsOne(st, first, o);
    InitSound(DEFAULTS, []);
    StepKeepsSound(st, first);
    NextLoginOk(o.state, second);
    RunOfOne(st, first);
    RunOfTwo(st, first, second, o.state);
    EmptyLoginEnters(o.state, second);
  }

  lemma EmptyLoginEnters(st: State, e: Event)
    requires Sound(st) && st.conn.attached && !st.session.fullFeature && StepOk(st, e)
    requires e == Event(Encode(LoginPdu([])), Failed)
    ensures Admissible(st, [e]) && Run(st, [e]).session.fullFeature && Run(st, [e]).conn.params == DEFAULTS
  {
    LoginReads([], e.request);
    var o := Step(st, e.request, e.reply);
    RunOfOne(st, e);
    LaterLogin(st, e, o);
    EnteringStep(st, e, o);
    assert LoginData(e.request) == Wire([]);
    NegotiationIsStable([]);
  }

  // A session that was never set up.

  lemma HalfTextOk()
    ensures var text := Wire(HalfPairs());
            && LoginText(text) && |text| <= PARAMETER_BUFFER_SIZE && !IsDiscovery(text)
            && Find(text, INITIATOR_NAME).Some? && Find(text, TARGET_NAME).None? && Find(text, SESSION_TYPE).Some?
  {
    AsciiPlain("Normal");
    KindTextOk(NORMAL);
    NormalIsNotDiscovery();
  }

  lemma EmptyTextOk()
    ensures LoginText([])
  {
  }

  lemma NextLoginOk(t: State, second: Event)
    requires t.Valid() && second == Event(Encode(LoginPdu([])), Failed)
    ensures StepOk(t, second)
  {
    LoginReads([], second.request);
    EmptyTextOk();
  }

  lemma RunOfTwo(st: State, e: Event, f: Event, t: State)
    requires StepOk(st, e) && !Step(st, e.request, e.reply).terminate && t == Step(st, e.request, e.reply).state
    requires StepOk(t, f)
    ensures Admissible(st, [e, f]) && Run(st, [e, f]) == Run(t, [f]) && Admissible(t, [f])
  {
    assert [e, f][1..] == [f];
    RunOfOne(t, f);
  }

  /** A Login without TargetName is refused; the next one, without any key, enters full-feature phase. */
  lemma UnsetSessionEnters() returns (first: Event, second: Event)
    ensures |first.request| >= HEADER && LoginData(first.request) == Wire(HalfPairs())
    ensures |second.request| >= HEADER && LoginData(second.request) == []
    ensures var es := [first, second];
            && Admissible(Init(DEFAULTS, []), es) && Run(Init(DEFAULTS, []), es).session.fullFeature
            && !SetUpInRun(Init(DEFAULTS, []), es)
  {
    first := Event(Encode(LoginPdu(Wire(HalfPairs()))), Failed);
    second := Event(Encode(LoginPdu([])), Failed);
    HalfLoginOk(first);
    LoginReads([], second.request);
    UnsetByTwo(Init(DEFAULTS, []), first, second);
  }

  // Responses that are not whole PDUs.

  lemma HalfTextLength()
    ensures |Wire(HalfPairs())| == 36
  {
    var kvs := HalfPairs();
    assert kvs[1..][1..] == [];
    assert |Wire(kvs[1..])| == 19;
  }

  /** The refusal of that Login is all there is to send, and is not sent: its header announces 36 bytes of data. */
  lemma RefusalIsHeldBack() returns (first: Event)
    ensures Admissible(Init(DEFAULTS, []), [first])
    ensures var out := Run(Init(DEFAULTS, []), [first]).out;
            |out| == HEADER && DataLength(out) == 36 && !Complete(out) && Frames(out) == []
  {
    first := Event(Encode(LoginPdu(Wire(HalfPairs()))), Failed);
    HalfLoginOk(first);
    HalfTextLength();
    LoginReads(Wire(HalfPairs()), first.request);
    HeldBack(Init(DEFAULTS, []), first);
  }

  lemma HeldBack(st: State, e: Event)
    requires st == Init(DEFAULTS, []) && StepOk(st, e) && HalfLogin(e) && DataLength(e.request) == 36
    ensures Admissible(st, [e])
    ensures var out := Run(st, [e]).out;
            |out| == HEADER && DataLength(out) == 36 && !Complete(out) && Frames(out) == []
  {
    var o := Step(st, e.request, e.reply);
    RunOfOne(st, e);
    RefusalSwallows(st, e, o, o.state);
    assert Appended(st, o.state) == o.state.out;
  }

  /** When the next Login is answered, the first 36 bytes of that answer are read as the data of the refusal. */
  lemma RefusalSwallowsAnswer() returns (first: Event, second: Event)
    ensures var es := [first, second];
            && Admissible(Init(DEFAULTS, []), es) && Admissible(Init(DEFAULTS, []), [first])
            && var out, refusal := Run(Init(DEFAULTS, []), es).out, Run(Init(DEFAULTS, []), [first]).out;
               && |refusal| == HEADER && refusal <= out && |out| >= HEADER + 36
               && Frames(out) != [] && Frames(out)[0] == out[..HEADER + 36]
               && Segment(Frames(out)[0]) == out[HEADER..HEADER + 36]
  {
    first := Event(Encode(LoginPdu(Wire(HalfPairs()))), Failed);
    second := Event(Encode(LoginPdu([])), Failed);
    HalfLoginOk(first);
    HalfTextLength();
    LoginReads(Wire(HalfPairs()), first.request);
    HeldBack(Init(DEFAULTS, []), first);
    SwallowsAnswer(Init(DEFAULTS, []), first, second);
  }

  lemma SwallowsAnswer(st: State, e: Event, f: Event)
    requires st == Init(DEFAULTS, []) && StepOk(st, e) && HalfLogin(e) && DataLength(e.request) == 36
    requires f == Event(Encode(LoginPdu([])), Failed)
    ensures Admissible(st, [e, f]) && Admissible(st, [e])
    ensures var out := Run(st, [e, f]).out;
            && Run(st, [e]).out <= out && |out| >= HEADER + 36 && Frames(out) != []
            && Frames(out)[0] == out[..HEADER + 36] && Segment(Frames(out)[0]) == out[HEADER..HEADER + 36]
  {
    var o := Step(st, e.request, e.reply);
    HalfLoginIsRefused(st, e, o);
    StepKeepsSound(st, e);
    NextLoginOk(o.state, f);
    RunOfOne(st, e);
    RunOfTwo(st, e, f, o.state);
    RunOfOne(o.state, f);
    LoginReads([], f.request);
    AnswerIsLong(o.state, f, Step(o.state, f.request, f.reply));
    RefusalSwallows(st, e, o, Run(st, [e, f]));
    SwallowedBytes(st, Run(st, [e, f]), Appended(st, o.state));
  }

  lemma SwallowedBytes(s: State, t: State, f: seq<byte>)
    requires s.out == [] && |f| == HEADER && DataLength(f) == 36 && ReadShort(s, t, f, 36) && |t.out| >= HEADER + 36
    ensures Frames(t.out) != [] && Frames(t.out)[0] == t.out[..HEADER + 36]
    ensures Segment(Frames(t.out)[0]) == t.out[HEADER..HEADER + 36]
  {
    var all := Appended(s, t);
    assert all == t.out && all[..HEADER] == f;
    SameHead(f, all[HEADER..][..36]);
    assert f + all[HEADER..][..36] == all[..HEADER + 36];
  }

  /** The answer to a final Login in the operational stage has at least a header. */
  lemma AnswerIsLong(st: State, e: Event, o: Outcome)
    requires StepOk(st, e) && st.conn.attached && !st.session.fullFeature && Opcode(e.request) == LOGIN
    requires !Continue(e.request) && Csg(e.request) == 1 && o == Step(st, e.request, e.reply)
    ensures st.out <= o.state.out && |o.state.out| >= |st.out| + HEADER
  {
    var s := LoggingIn(st, e.request);
    LoginStep(st, e, s);
    FinalAnswerIsLong(s, e.request);
  }

  lemma FinalAnswerIsLong(s: State, req: Header)
    requires Csg(req) == 1
    ensures s.out <= FinalLogin(s, req).state.out && |FinalLogin(s, req).state.out| >= |s.out| + HEADER
  {
  }

  const PingPdu := Pdu(NOP_OUT, 128, 0, 0, 0, DEFAULT_TAG, 0, 0, 0, 0, 0, 0, [5])

  lemma PingReads(req: seq<byte>)
    requires req == Encode(PingPdu)
    ensures IsFrame(req) && req[4] == 0 && Opcode(req) == NOP_OUT && DataLength(req) == 1
  {
    EncodeDecode(PingPdu);
    EncodedParts(PingPdu);
    HeaderFields(PingPdu, req);
    Nat24RoundTrip(req, 5, 1);
  }

  /** A NOP-Out of one byte: its echo of 49 bytes is not sent, since three bytes of padding are missing. */
  lemma EchoIsHeldBack() returns (login: Event, st: State, ping: Event)
    ensures Admissible(Init(DEFAULTS, []), [login]) && st == Run(Init(DEFAULTS, []), [login])
    ensures StepOk(st, ping) && Opcode(ping.request) == NOP_OUT
    ensures var echo := Appended(st, Step(st, ping.request, ping.reply).state);
            |echo| == HEADER + 1 && !Complete(echo) && Frames(echo) == []
  {
    NothingMore();
    login, st := FreshLogin([]);
    ping := Event(Encode(PingPdu), Failed);
    PingReads(ping.request);
    var t := Step(st, ping.request, ping.reply).state;
    EchoSwallows(st, ping, t, t);
  }

  lemma HalfLoginOk(e: Event)
    requires e == Event(Encode(LoginPdu(Wire(HalfPairs()))), Failed)
    ensures StepOk(Init(DEFAULTS, []), e) && HalfLogin(e) && LoginData(e.request) == Wire(HalfPairs())
  {
    HalfTextOk();
    LoginReads(Wire(HalfPairs()), e.request);
    LoginStepOk(Init(DEFAULTS, []), e, Wire(HalfPairs()));
    HalfLoginText(e, Wire(HalfPairs()));
  }

  lemma HalfLoginText(e: Event, text: seq<byte>)
    requires |e.request| >= HEADER && Opcode(e.request) == LOGIN && !Continue(e.request) && Tsih(e.request) == 0
    requires LoginData(e.request) == text && !IsDiscovery(text)
    requires Find(text, INITIATOR_NAME).Some? && Find(text, TARGET_NAME).None?
    ensures HalfLogin(e)
  {
  }

  lemma UnsetByTwo(st: State, first: Event, second: Event)
    requires st == Init(DEFAULTS, []) && StepOk(st, first) && HalfLogin(first)
    requires second == Event(Encode(LoginPdu([])), Failed)
    ensures var es := [first, second];
            Admissible(st, es) && Run(st, es).session.fullFeature && !SetUpInRun(st, es)
  {
    LoginReads([], second.request);
    var o := Step(st, first.request, first.reply);
    HalfLoginIsRefused(st, first, o);
    StepKeepsSound(st, first);
    NextLoginOk(o.state, second);
    RunOfTwo(st, first, second, o.state);
    UnsetRun(st, first, second, o.state);
  }

  lemma UnsetRun(st: State, e: Event, f: Event, t: State)
    requires Sound(st) && !st.conn.attached && StepOk(st, e) && t == Step(st, e.request, e.reply).state
    requires !Step(st, e.request, e.reply).terminate && StepOk(t, f) && HalfLogin(e) && CompletingLogin(f)
    requires Admissible(st, [e, f])
    ensures Run(st, [e, f]).session.fullFeature && !SetUpInRun(st, [e, f])
  {
    assert [e, f][1..] == [f];
    EnteredWithoutSetUpIff(st, [e, f]);
  }
}
