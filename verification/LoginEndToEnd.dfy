/** An operational Login from its text to what the initiator reads back (request/login.c:166-237, 268-294). */
module LoginEndToEnd {
  import opened Bytes
  import opened Lookup
  import opened Pdus
  import opened Negotiation
  import opened GeneratedText
  import opened Model
  import opened ParameterObject
  import opened Runs

  /** A final Login response as the initiator reads it. */
  predicate ReadsAs(f: seq<byte>, c: Conn, tsih: int, status: int)
  {
    && IsFrame(f) && Opcode(f) == LOGIN_RES && Final(f) && !BitSet(f[0], 1)
    && Int32At(f, 24) == c.statSn && Int32At(f, 28) == c.expCmdSn && Int32At(f, 32) == c.expCmdSn
    && f[36..38] == Int16Bytes(status) && f[14..16] == Int16Bytes(tsih)
    && |Segment(f)| == DataLength(f)
  }

  lemma FinalHeaderFields(c: Conn, tsih: int, req: Header, status: int)
    requires req[4] == 0
    ensures var h := FinalHeader(c, tsih, req, status);
            && h[0] == WithOpcode(WithBit(req[0], 1, false), LOGIN_RES) && h[1] == WithBit(req[1], 0, true) && h[4] == 0
            && h[24..36] == Numbers(c) && h[36..38] == Int16Bytes(status) && h[14..16] == Int16Bytes(tsih)
  {
  }

  lemma OpcodeKeepsTop(b: byte, opcode: byte)
    requires opcode < 64
    ensures WithOpcode(b, opcode) % 64 == opcode && WithOpcode(b, opcode) / 64 == b / 64
  {
  }

  lemma OpcodeBits(b: byte)
    ensures WithOpcode(WithBit(b, 1, false), LOGIN_RES) % 64 == LOGIN_RES
    ensures !BitSet(WithOpcode(WithBit(b, 1, false), LOGIN_RES), 1)
  {
    var r := WithBit(b, 1, false);
    assert BitsOf(r)[1] == false;
    OpcodeKeepsTop(r, LOGIN_RES);
  }

  lemma PayloadIsFrame(h: seq<byte>, data: seq<byte>)
    requires |h| == HEADER && h[4] == 0 && |data| < 0x100_0000
    ensures var f := Payload(h, data);
            && IsFrame(f) && DataLength(f) == |data| && Segment(f) == data
            && forall i :: 0 <= i < HEADER && !(5 <= i < 8) ==> f[i] == h[i]
  {
    var f := Payload(h, data);
    assert f[5..8] == Int24Bytes(|data|);
    Nat24RoundTrip(f, 5, |data|);
    assert f[4] == 0;
    assert f[HEADER..HEADER + |data|] == data;
  }

  lemma PayloadParts(h: seq<byte>, data: seq<byte>)
    requires |h| == HEADER && h[4] == 0 && |data| < 0x100_0000
    ensures var f := Payload(h, data);
            && IsFrame(f) && DataLength(f) == |data| && Segment(f) == data
            && f[0] == h[0] && f[1] == h[1] && f[14..16] == h[14..16] && f[24..36] == h[24..36]
            && f[36..38] == h[36..38]
  {
    PayloadIsFrame(h, data);
    var f := Payload(h, data);
    assert f[14..16] == h[14..16] && f[24..36] == h[24..36] && f[36..38] == h[36..38];
  }

  lemma WindowOf(f: seq<byte>, lo: nat, hi: nat, i: nat)
    requires lo + i + 4 <= hi <= |f|
    ensures f[lo..hi][i..i + 4] == f[lo + i..lo + i + 4]
  {
    var a, b := f[lo..hi][i..i + 4], f[lo + i..lo + i + 4];
    assert a[0] == b[0] && a[1] == b[1] && a[2] == b[2] && a[3] == b[3];
  }

  lemma NumbersRead(f: seq<byte>, c: Conn)
    requires |f| >= 36 && f[24..36] == Numbers(c) && IsInt(c.statSn) && IsInt(c.expCmdSn)
    ensures Int32At(f, 24) == c.statSn && Int32At(f, 28) == c.expCmdSn && Int32At(f, 32) == c.expCmdSn
  {
    var n := Numbers(c);
    assert n[0..4] == Int32Bytes(c.statSn) && n[4..8] == n[8..12] == Int32Bytes(c.expCmdSn);
    WindowOf(f, 24, 36, 0);
    WindowOf(f, 24, 36, 4);
    WindowOf(f, 24, 36, 8);
    DecodeWord(f, 24, c.statSn);
    DecodeWord(f, 28, c.expCmdSn);
    DecodeWord(f, 32, c.expCmdSn);
  }

  /** Unlike the responses that keep the request's data length, the final response is one whole PDU with its own. */
  lemma FinalReplyReads(c: Conn, tsih: int, req: Header, status: int, text: seq<byte>)
    requires req[4] == 0 && |text| < 0x100_0000 && IsInt(c.statSn) && IsInt(c.expCmdSn)
    ensures ReadsAs(FinalReply(c, tsih, req, status, text), c, tsih, status)
    ensures Segment(FinalReply(c, tsih, req, status, text)) == text
  {
    var h := FinalHeader(c, tsih, req, status);
    FinalHeaderFields(c, tsih, req, status);
    OpcodeBits(req[0]);
    PayloadParts(h, text);
    NumbersRead(Payload(h, text), c);
  }

  lemma {:induction false} AnswerFits(ks: Keys, p: Params, j: nat)
    requires WithinLimits(p) && j <= 10 && AllPlain(ks) && AllShort(ks)
    ensures |Wire(PrintedPairs(ks, p, j))| <= 64 * j
  {
    if j > 0 {
      AnswerFits(ks, p, j - 1);
      PrintedPlain(ks, p, j - 1);
      assert PrintedPairs(ks, p, j) == PrintedPairs(ks, p, j - 1) + [PrintedPair(ks, p, j - 1)];
      WireLast(PrintedPairs(ks, p, j - 1), PrintedPair(ks, p, j - 1));
    }
  }

  /** The state in which the final response is built: the parameters read, the session set up. */
  function LoggingIn(st: State, req: Header): State
    requires LoginReadable(st.conn.attached, LoginData(req), req) && !Continue(req)
  {
    var s := Reparametrised(st, Negotiated(LoginData(req)), LoginData(req));
    if st.conn.attached then s else SetUp(s, req).0
  }

  /** The session can be set up, if it is not. */
  predicate SetUpSucceeds(st: State, req: Header)
    requires LoginReadable(st.conn.attached, LoginData(req), req) && !Continue(req)
  {
    st.conn.attached || SetUp(Reparametrised(st, Negotiated(LoginData(req)), LoginData(req)), req).1 == SUCCESS
  }

  lemma LoginStep(st: State, e: Event, s: State)
    requires StepOk(st, e) && !InFullFeature(st) && Opcode(e.request) == LOGIN && !Continue(e.request)
    requires s == LoggingIn(st, e.request) && SetUpSucceeds(st, e.request)
    ensures Step(st, e.request, e.reply) == FinalLogin(s, e.request)
    ensures s.out == st.out && s.conn.params == Negotiated(LoginData(e.request))
    ensures s.conn.statSn == st.conn.statSn && s.conn.expCmdSn == st.conn.expCmdSn
    ensures s.session.fullFeature == st.session.fullFeature
  {
  }

  /** The outcome o of an operational Login at s: the target keeps p, and the response tells the initiator so. */
  predicate Agreed(s: State, o: Outcome, req: Header, p: Params)
  {
    var f := Appended(s, o.state);
    && !o.terminate && o.state.conn.params == p
    && ReadsAs(f, s.conn, o.state.session.tsih, StageStatus(req))
    && Negotiated(Segment(f)) == p.(maxReceive := DEFAULTS.maxReceive)
    && (o.state.session.fullFeature <==> s.session.fullFeature || Completes(req))
  }

  /** The target's answer to parameters p. */
  function AnswerText(p: Params): seq<byte>
  {
    Wire(PrintedPairs(KEYS, p, 10))
  }

  /** Answering keeps p, the answer is short, and it negotiates p again. */
  predicate AnsweredWell(p: Params)
  {
    && |AnswerText(p)| <= 640 && Fold(Updated, p, PrintedPairs(KEYS, p, 10)) == p
    && Negotiated(AnswerText(p)) == p.(maxReceive := DEFAULTS.maxReceive)
  }

  lemma AnswerIsShort(p: Params)
    requires WithinLimits(p)
    ensures |AnswerText(p)| <= 640
  {
    KeysPlain();
    KeysShort();
    AnswerFits(KEYS, p, 10);
  }

  lemma NegotiatedWell(kvs: seq<Pair>, p: Params)
    requires p == Negotiated(Wire(kvs)) && Harmless(KEYS, kvs)
    ensures p == Fold(Updated, DEFAULTS, kvs) && WithinLimits(p) && AnsweredWell(p)
  {
    NegotiationIsStable(kvs);
    AnswerIsShort(p);
  }

  lemma FinalOutcome(s: State, req: Header, p: Params, o: Outcome)
    requires Csg(req) == 1 && p == s.conn.params && AnsweredWell(p) && o == FinalLogin(s, req)
    ensures !o.terminate && o.state.conn.params == p && o.state.session.tsih == s.session.tsih
    ensures o.state.session.fullFeature <==> s.session.fullFeature || Completes(req)
    ensures Appended(s, o.state)
            == FinalReply(s.conn.(text := AnswerText(p)), s.session.tsih, req, StageStatus(req), AnswerText(p))
  {
  }

  /** A final response in the operational stage. */
  lemma OperationalAnswer(s: State, req: Header, p: Params, o: Outcome)
    requires IsInt(s.conn.statSn) && IsInt(s.conn.expCmdSn) && req[4] == 0 && Csg(req) == 1
    requires p == s.conn.params && AnsweredWell(p) && o == FinalLogin(s, req)
    ensures Agreed(s, o, req, p)
  {
    FinalOutcome(s, req, p, o);
    FinalReplyReads(s.conn.(text := AnswerText(p)), s.session.tsih, req, StageStatus(req), AnswerText(p));
  }

  lemma AgreedFrom(st: State, s: State, o: Outcome, req: Header, p: Params)
    requires Agreed(s, o, req, p) && s.out == st.out && s.session.fullFeature == st.session.fullFeature
    requires s.conn.statSn == st.conn.statSn && s.conn.expCmdSn == st.conn.expCmdSn
    ensures Agreed(st, o, req, p)
  {
  }

  lemma AgreedAt(s: State, req: Header, kvs: seq<Pair>, o: Outcome)
    requires IsInt(s.conn.statSn) && IsInt(s.conn.expCmdSn) && req[4] == 0 && Csg(req) == 1
    requires s.conn.params == Negotiated(Wire(kvs)) && Harmless(KEYS, kvs) && o == FinalLogin(s, req)
    ensures Agreed(s, o, req, Fold(Updated, DEFAULTS, kvs)) && WithinLimits(o.state.conn.params)
  {
    NegotiatedWell(kvs, s.conn.params);
    OperationalAnswer(s, req, s.conn.params, o);
  }

  /**
   * Both sides agree. A final Login in the operational stage whose text is a list of pairs that sets no negative
   * number: the target's parameters are the fold of the pairs, within its limits; the response is one whole PDU that
   * carries the connection's numbers; reading its text gives the initiator the target's ten printed parameters; and
   * the session is in full-feature phase afterwards exactly if it was before or the Login asked for it.
   */
  lemma BothSidesAgree(st: State, e: Event, kvs: seq<Pair>, o: Outcome)
    requires StepOk(st, e) && !InFullFeature(st) && o == Step(st, e.request, e.reply)
    requires Opcode(e.request) == LOGIN && !Continue(e.request) && Csg(e.request) == 1 && SetUpSucceeds(st, e.request)
    requires LoginData(e.request) == Wire(kvs) && Harmless(KEYS, kvs)
    ensures Agreed(st, o, e.request, Fold(Updated, DEFAULTS, kvs)) && WithinLimits(o.state.conn.params)
  {
    var s := LoggingIn(st, e.request);
    LoginStep(st, e, s);
    AgreedAt(s, e.request, kvs, o);
    AgreedFrom(st, s, o, e.request, Fold(Updated, DEFAULTS, kvs));
  }
}
