/** What is answered before full-feature phase, byte by byte (request/login.c:90-294, iscsi_server.c:58-67). */
module LoginAnswers {
  import opened Bytes
  import opened Lookup
  import opened Pdus
  import opened Negotiation
  import opened LoginEndToEnd
  import opened Model
  import opened Runs
  import opened SessionSafety
  import opened UnsetSessions
  import opened Discovery
  import opened OtherAnswers

  // Requests other than a Login.

  /** Without a session, the socket is closed and nothing is sent. */
  lemma StrangerIsDropped(st: State, e: Event)
    requires StepOk(st, e) && !st.conn.attached && Opcode(e.request) != 0x03
    ensures Step(st, e.request, e.reply) == Outcome(st, true)
  {
  }

  /** With one, a bare Login response with the TSIH is sent, and nothing else changes but the gate. */
  lemma EarlyRequestIsRefused(st: State, e: Event)
    requires Sound(st) && StepOk(st, e) && st.conn.attached && !st.session.fullFeature
    requires Opcode(e.request) != 0x03 && Passes(st, e.request)
    ensures var o := Step(st, e.request, e.reply);
            && !o.terminate && o.state.conn == st.conn && o.state.target == st.target
            && o.state.session == st.session.(expCmdSn := o.state.session.expCmdSn,
                                              numberingStarted := o.state.session.numberingStarted)
            && o.state.out == st.out + [0x23] + Zeros(13) + [0, 1] + Zeros(32)
  {
    PassesGate(st, e.request);
    GateFrame(st, e.request);
    BareHeader();
    assert st.out + ([0x23] + Zeros(13) + [0, 1] + Zeros(32)) == st.out + [0x23] + Zeros(13) + [0, 1] + Zeros(32);
  }

  lemma BareHeader()
    ensures LoginRejectBytes(1) == [0x23] + Zeros(13) + [0, 1] + Zeros(32)
  {
  }

  // Logins.

  /** The request's header as a Login response: what every answer to a Login keeps of it. */
  predicate LoginAnswer(f: seq<byte>, req: Header, status: (byte, byte))
  {
    && |f| >= 48 && f[0] % 64 == 0x23 && f[2..5] == req[2..5] && f[8..14] == req[8..14]
    && f[16..24] == req[16..24] && f[36..38] == [status.0, status.1] && f[38..48] == req[38..48]
  }

  /** StatSN, ExpCmdSN and MaxCmdSN are the connection's. */
  predicate CarriesNumbers(f: seq<byte>, c: Conn)
  {
    |f| >= 36 && Int32At(f, 24) == c.statSn && Int32At(f, 28) == c.expCmdSn && Int32At(f, 32) == c.expCmdSn
  }

  /** A Login with more text to come: its header comes back numbered, and refused if it asks for a transition. */
  lemma PartialLoginIsAnswered(st: State, e: Event)
    requires StepOk(st, e) && !InFullFeature(st) && Opcode(e.request) == 0x03 && e.request[1] / 64 % 2 == 1
    ensures var o, req := Step(st, e.request, e.reply), e.request;
            var f := Appended(st, o.state);
            && !o.terminate && st.out <= o.state.out && o.state.session == st.session && o.state.target == st.target
            && o.state.conn.attached == st.conn.attached && o.state.conn.statSn == Advance(st.conn.statSn, 1)
            && |f| == 48 && LoginAnswer(f, req, if req[1] >= 128 then (2, 0) else (0, 0)) && CarriesNumbers(f, st.conn)
            && f[0] / 64 == req[0] / 64 && f[1] == req[1] % 128 && f[4..8] == req[4..8]
  {
    var c := Read(st, e.request).conn;
    ContinueBit(e.request[1]);
    PartialBytes(c, e.request);
    assert Appended(st, Step(st, e.request, e.reply).state) == PartialReply(c, e.request);
  }

  lemma PartialBytes(c: Conn, req: Header)
    requires IsInt(c.statSn) && IsInt(c.expCmdSn)
    ensures var f := PartialReply(c, req);
            && |f| == 48 && LoginAnswer(f, req, if req[1] >= 128 then (2, 0) else (0, 0)) && CarriesNumbers(f, c)
            && f[0] / 64 == req[0] / 64 && f[1] == req[1] % 128 && f[4..8] == req[4..8]
  {
    var f := PartialReply(c, req);
    PartialPatched(c, req, f);
    NumbersRead(f, c);
    SameSlice(f, req, 2, 5);
    SameSlice(f, req, 4, 8);
    SameSlice(f, req, 8, 14);
    SameSlice(f, req, 16, 24);
    SameSlice(f, req, 38, 48);
  }

  lemma PartialPatched(c: Conn, req: Header, f: seq<byte>)
    requires f == PartialReply(c, req)
    ensures |f| == 48 && f[24..36] == Numbers(c)
    ensures f[0] % 64 == 0x23 && f[0] / 64 == req[0] / 64 && f[1] == req[1] % 128
    ensures f[36..38] == if req[1] >= 128 then [2, 0] else [0, 0]
    ensures forall i :: 2 <= i < 24 || 38 <= i < 48 ==> f[i] == req[i]
  {
    TopBitOn(req[1]);
    OpcodeKeepsTop(req[0], LOGIN_RES);
    TopBit(req[1]);
  }

  /** A first Login that the set-up refuses. */
  predicate Unwelcome(req: Header)
  {
    var text := LoginData(req);
    || Find(text, Ascii("InitiatorName")).None? || (req[14], req[15]) != (0, 0)
    || (!NamesDiscovery(text) && Find(text, Ascii("TargetName")).None?)
  }

  /** The low byte of the status: too many connections for a Login that gives a name and a session, else an error. */
  function Detail(req: Header): byte
  {
    if Find(LoginData(req), Ascii("InitiatorName")).Some? && (req[14], req[15]) != (0, 0) then 6 else 0
  }

  /** Its header comes back with the status. */
  lemma UnwelcomeLoginIsRefused(st: State, e: Event)
    requires Sound(st) && StepOk(st, e) && !st.conn.attached && Opcode(e.request) == 0x03
    requires e.request[1] / 64 % 2 == 0 && Unwelcome(e.request)
    ensures var o, req := Step(st, e.request, e.reply), e.request;
            && !o.terminate && !o.state.session.fullFeature && o.state.conn.statSn == st.conn.statSn
            && o.state.out == st.out + RefusalBytes(req, Detail(req))
  {
    var s := Read(st, e.request);
    var o := Step(st, e.request, e.reply);
    ContinueBit(e.request[1]);
    FinalLoginStep(st, e, o);
    UnwelcomeOutcome(s, e.request, o);
  }

  lemma UnwelcomeOutcome(s: State, req: Header, o: Outcome)
    requires Sound(s) && !s.conn.attached && LoginReadable(false, s.conn.text, req) && !Continue(req)
    requires s.conn.text == LoginData(req) && Unwelcome(req) && o == LoginFinished(s, req)
    ensures !o.terminate && !o.state.session.fullFeature && o.state.conn.statSn == s.conn.statSn
    ensures o.state.out == s.out + RefusalBytes(req, Detail(req))
  {
    SetUpStatus(s, req);
    FirstFinalLogin(s, req, o);
    SetUpCases(s, req);
    RefusedWith(s, SetUp(s, req).0, SetUp(s, req).1, req, o);
  }

  lemma RefusedWith(s: State, t: State, status: int, req: Header, o: Outcome)
    requires status == 0x0200 + Detail(req) && t.out == s.out && t.conn.statSn == s.conn.statSn
    requires o == Outcome(Emit(t, StatusReply(CopiedHeader(req, LOGIN_RES), status)), false)
    requires !t.session.fullFeature
    ensures !o.terminate && !o.state.session.fullFeature && o.state.conn.statSn == s.conn.statSn
    ensures o.state.out == s.out + RefusalBytes(req, Detail(req))
  {
    RefusalIs(req, status);
  }

  lemma TsihIsZero(req: Header)
    ensures Tsih(req) == 0 <==> (req[14], req[15]) == (0, 0)
  {
  }

  lemma SetUpWorksIff(s: State, req: Header)
    requires Sound(s) && !s.conn.attached && KindReadable(s.conn.text, req) && s.conn.text == LoginData(req)
    ensures SetUp(s, req).1 == SUCCESS <==> !Unwelcome(req)
  {
    TsihIsZero(req);
    SetUpCases(s, req);
    KindIs(s.conn.text);
  }

  lemma KindIs(text: seq<byte>)
    ensures IsDiscovery(text) <==> NamesDiscovery(text)
  {
  }

  lemma SetUpStatus(s: State, req: Header)
    requires Sound(s) && !s.conn.attached && KindReadable(s.conn.text, req) && s.conn.text == LoginData(req)
    ensures SetUp(s, req).1 == SUCCESS <==> !Unwelcome(req)
    ensures Unwelcome(req) ==> SetUp(s, req).1 == 0x0200 + Detail(req)
    ensures SetUp(s, req).0.conn.statSn == s.conn.statSn
  {
    SetUpWorksIff(s, req);
    TsihIsZero(req);
    SetUpCases(s, req);
    RefusalStatus(s, req);
  }

  lemma RefusalStatus(s: State, req: Header)
    requires Sound(s) && !s.conn.attached && KindReadable(s.conn.text, req)
    ensures var (t, status) := SetUp(s, req);
            && t.conn.statSn == s.conn.statSn
            && (status != SUCCESS ==>
                  status == if Find(s.conn.text, INITIATOR_NAME).Some? && Tsih(req) != 0 then 0x0206 else 0x0200)
  {
  }

  /** In a session with room, which no unattached connection of a fresh process finds, such a Login joins it. */
  lemma JoiningLogin(st: State, e: Event)
    requires StepOk(st, e) && !st.conn.attached && Opcode(e.request) == 0x03 && e.request[1] / 64 % 2 == 0
    requires Find(LoginData(e.request), Ascii("InitiatorName")).Some? && (e.request[14], e.request[15]) != (0, 0)
    requires st.session.connections < st.session.maxConnections
    ensures var t := Step(st, e.request, e.reply).state;
            && t.conn.attached && t.conn.connectionId == e.request[20] as int * 256 + e.request[21]
            && t.session == st.session.(fullFeature := t.session.fullFeature)
  {
    ContinueBit(e.request[1]);
    TsihIsZero(e.request);
    var s := Read(st, e.request);
    FinalLoginStep(st, e, Step(st, e.request, e.reply));
    FinalLoginKeepsKind(SetUp(s, e.request).0, e.request);
  }

  /** The request's header as a Login response with status 2 and this detail. */
  function RefusalBytes(req: Header, detail: byte): (f: seq<byte>)
    ensures |f| == 48
  {
    [0x23 + req[0] / 64 * 64] + req[1..36] + [2, detail] + req[38..48]
  }

  lemma RefusalIs(req: Header, status: int)
    requires status == 0x0200 || status == 0x0206
    ensures StatusReply(CopiedHeader(req, LOGIN_RES), status) == RefusalBytes(req, status - 0x0200)
  {
    OpcodeKeepsTop(req[0], LOGIN_RES);
  }

  const NoAuthentication := Ascii("AuthMethod=None")

  /** The answer to a Login that is not to be continued, of a connection that has or gets its session. */
  predicate FinalAnswer(f: seq<byte>, c: Conn, req: Header)
  {
    && IsFrame(f) && LoginAnswer(f, req, if req[1] >= 128 && req[1] % 4 != 3 then (2, 0) else (0, 0))
    && f[0] / 64 == req[0] / 128 * 2 && f[1] == 128 + req[1] % 128 && f[14..16] == [0, 1] && CarriesNumbers(f, c)
    && (req[1] / 4 % 4 == 0 ==> Segment(f) == NoAuthentication)
  }

  lemma FinalBytes(c: Conn, req: Header, status: int, text: seq<byte>)
    requires IsInt(c.statSn) && IsInt(c.expCmdSn) && req[4] == 0 && |text| < 0x100_0000
    requires status == if req[1] >= 128 && req[1] % 4 != 3 then 0x0200 else 0
    requires req[1] / 4 % 4 == 0 ==> text == NoAuthentication
    ensures FinalAnswer(FinalReply(c, 1, req, status, text), c, req)
  {
    FinalHead(c, req, status, FinalHeader(c, 1, req, status));
    FinalFrame(FinalHeader(c, 1, req, status), FinalReply(c, 1, req, status, text), c, req,
               if status == 0 then (0, 0) else (2, 0), text);
  }

  lemma FinalHead(c: Conn, req: Header, status: int, h: seq<byte>)
    requires h == FinalHeader(c, 1, req, status) && (status == 0 || status == 0x0200)
    requires IsInt(c.statSn) && IsInt(c.expCmdSn) && req[4] == 0
    ensures |h| == 48 && LoginAnswer(h, req, if status == 0 then (0, 0) else (2, 0)) && CarriesNumbers(h, c)
    ensures h[4] == req[4] && h[14..16] == [0, 1] && h[0] / 64 == req[0] / 128 * 2 && h[1] == 128 + req[1] % 128
  {
    FinalFlags(c, req, status, h);
    FinalCopied(c, req, status, h);
    NumbersRead(h, c);
  }

  lemma FinalFrame(h: seq<byte>, f: seq<byte>, c: Conn, req: Header, status: (byte, byte), text: seq<byte>)
    requires |h| == HEADER && f == Payload(h, text) && h[4] == 0 && |text| < 0x100_0000
    requires LoginAnswer(h, req, status) && CarriesNumbers(h, c) && h[14..16] == [0, 1]
    requires h[0] / 64 == req[0] / 128 * 2 && h[1] == 128 + req[1] % 128
    requires status == if req[1] >= 128 && req[1] % 4 != 3 then (2, 0) else (0, 0)
    requires req[1] / 4 % 4 == 0 ==> text == NoAuthentication
    ensures FinalAnswer(f, c, req)
  {
    PayloadIsFrame(h, text);
    SameHeadAnswers(h, f, c, req, status);
    FinalOf(h, f, c, req, text);
  }

  lemma FinalFlags(c: Conn, req: Header, status: int, h: seq<byte>)
    requires h == FinalHeader(c, 1, req, status)
    ensures |h| == 48 && h[0] % 64 == 0x23 && h[0] / 64 == req[0] / 128 * 2 && h[1] == 128 + req[1] % 128
    ensures h[4] == req[4] && h[24..36] == Numbers(c)
  {
    OpcodeKeepsTop(WithBit(req[0], 1, false), LOGIN_RES);
    SecondBitOff(req[0]);
    TopBitOn(req[1]);
  }

  lemma FinalCopied(c: Conn, req: Header, status: int, h: seq<byte>)
    requires h == FinalHeader(c, 1, req, status) && (status == 0 || status == 0x0200) && req[4] == 0
    ensures |h| == 48 && h[2..5] == req[2..5] && h[8..14] == req[8..14] && h[14..16] == [0, 1]
    ensures h[16..24] == req[16..24] && h[36..38] == [status / 256, 0] && h[38..48] == req[38..48]
  {
    FinalHeaderFields(c, 1, req, status);
    TwoBytes(status);
    FinalUntouched(c, req, status, h);
    SameSlice(h, req, 2, 5);
    SameSlice(h, req, 8, 14);
    SameSlice(h, req, 16, 24);
    SameSlice(h, req, 38, 48);
  }

  lemma TwoBytes(status: int)
    requires status == 0 || status == 0x0200
    ensures Int16Bytes(1) == [0, 1] && Int16Bytes(status) == [status / 256, 0]
  {
  }

  lemma FinalUntouched(c: Conn, req: Header, status: int, h: seq<byte>)
    requires h == FinalHeader(c, 1, req, status)
    ensures forall i :: 2 <= i < 14 || 16 <= i < 24 || 38 <= i < 48 ==> h[i] == req[i]
  {
  }

  lemma SameSlice(a: seq<byte>, b: seq<byte>, lo: nat, hi: nat)
    requires lo <= hi <= |a| && hi <= |b| && forall i :: lo <= i < hi ==> a[i] == b[i]
    ensures a[lo..hi] == b[lo..hi]
  {
  }

  lemma FinalOf(h: seq<byte>, f: seq<byte>, c: Conn, req: Header, text: seq<byte>)
    requires |h| == 48 <= |f| && h[0] / 64 == req[0] / 128 * 2 && h[1] == 128 + req[1] % 128 && f[14..16] == [0, 1]
    requires f[0] == h[0] && f[1] == h[1] && IsFrame(f) && Segment(f) == text && CarriesNumbers(f, c)
    requires LoginAnswer(f, req, if req[1] >= 128 && req[1] % 4 != 3 then (2, 0) else (0, 0))
    requires req[1] / 4 % 4 == 0 ==> text == NoAuthentication
    ensures FinalAnswer(f, c, req)
  {
  }

  lemma SecondBitOff(b: byte)
    ensures WithBit(b, 1, false) / 64 == b / 128 * 2
  {
    var r := WithBit(b, 1, false);
    assert BitsOf(r)[0] == BitsOf(b)[0] && BitsOf(r)[1] == false;
    TopTwo(r);
    TopTwo(b);
  }

  lemma TopTwo(b: byte)
    ensures b / 64 == 2 * Digit(BitSet(b, 0)) + Digit(BitSet(b, 1)) && b / 128 == Digit(BitSet(b, 0))
  {
    assert b / 128 == b / 64 / 2;
  }

  lemma SameHeadAnswers(h: seq<byte>, f: seq<byte>, c: Conn, req: Header, status: (byte, byte))
    requires |h| == 48 <= |f| && LoginAnswer(h, req, status) && CarriesNumbers(h, c)
    requires forall i :: 0 <= i < HEADER && !(5 <= i < 8) ==> f[i] == h[i]
    ensures LoginAnswer(f, req, status) && CarriesNumbers(f, c) && f[14..16] == h[14..16]
  {
    SameHeadFields(h, f);
    SameHeadNumbers(h, f, c);
  }

  lemma SameHeadNumbers(h: seq<byte>, f: seq<byte>, c: Conn)
    requires |h| == 48 <= |f| && CarriesNumbers(h, c) && forall i :: 24 <= i < 36 ==> f[i] == h[i]
    ensures CarriesNumbers(f, c)
  {
  }

  lemma SameHeadFields(h: seq<byte>, f: seq<byte>)
    requires |h| == 48 <= |f| && forall i :: 0 <= i < HEADER && !(5 <= i < 8) ==> f[i] == h[i]
    ensures f[0] == h[0] && f[2..5] == h[2..5] && f[8..14] == h[8..14] && f[14..16] == h[14..16]
    ensures f[16..24] == h[16..24] && f[36..38] == h[36..38] && f[38..48] == h[38..48]
  {
    SameSlice(f, h, 2, 5);
    SameSlice(f, h, 8, 14);
    SameSlice(f, h, 14, 16);
    SameSlice(f, h, 16, 24);
    SameSlice(f, h, 36, 38);
    SameSlice(f, h, 38, 48);
  }

  /** What the stage of a final Login does; stage 2 does not exist, and closes the socket. */
  predicate StageAnswer(st: State, o: Outcome, req: Header)
  {
    match req[1] / 4 % 4
    case 2 => o.terminate && o.state.out == st.out && !o.state.session.fullFeature
    case 3 =>
      && !o.terminate && !o.state.session.fullFeature && o.state.conn.statSn == st.conn.statSn
      && o.state.out == st.out + RefusalBytes(req, 0)
    case _ =>
      && !o.terminate && st.out <= o.state.out && FinalAnswer(Appended(st, o.state), st.conn, req)
      && o.state.conn.statSn == Advance(st.conn.statSn, 1)
      && (o.state.session.fullFeature <==> req[1] >= 128 && req[1] % 4 == 3)
  }

  /** A Login that is not to be continued, of a connection with a session or one that is given one. */
  lemma FinalLoginIsAnswered(st: State, e: Event)
    requires Sound(st) && StepOk(st, e) && !st.session.fullFeature && Opcode(e.request) == 0x03
    requires e.request[1] / 64 % 2 == 0 && (st.conn.attached || !Unwelcome(e.request))
    ensures var o := Step(st, e.request, e.reply);
            o.state.conn.attached && StageAnswer(st, o, e.request)
  {
    var req := e.request;
    ContinueBit(req[1]);
    SetUpGoesThrough(st, e);
    var s := LoggingIn(st, req);
    LoginStep(st, e, s);
    LoggedInSession(st, e, s);
    ScanWithinLimits(LoginData(req), |LoginData(req)|);
    FinalByStage(s, req, FinalLogin(s, req));
    StageOf(st, s, FinalLogin(s, req), req);
  }

  lemma SetUpGoesThrough(st: State, e: Event)
    requires Sound(st) && StepOk(st, e) && !st.session.fullFeature && Opcode(e.request) == LOGIN
    requires !Continue(e.request) && (st.conn.attached || !Unwelcome(e.request))
    ensures SetUpSucceeds(st, e.request)
  {
    if !st.conn.attached {
      SetUpStatus(Read(st, e.request), e.request);
    }
  }

  lemma LoggedInSession(st: State, e: Event, s: State)
    requires Sound(st) && StepOk(st, e) && !st.session.fullFeature && Opcode(e.request) == LOGIN
    requires !Continue(e.request) && SetUpSucceeds(st, e.request) && s == LoggingIn(st, e.request)
    ensures s.conn.attached && s.session.tsih == 1 && !s.session.fullFeature
  {
    if !st.conn.attached {
      SetUpEffect(Read(st, e.request), e.request);
    }
  }

  lemma StageBits(req: Header)
    ensures Csg(req) == req[1] / 4 % 4
    ensures Completes(req) <==> req[1] >= 128 && req[1] % 4 == 3
    ensures StageStatus(req) == if req[1] >= 128 && req[1] % 4 != 3 then 0x0200 else 0
  {
    TopBit(req[1]);
  }

  lemma FinalByStage(s: State, req: Header, o: Outcome)
    requires o == FinalLogin(s, req) && s.conn.attached && s.session.tsih == 1 && !s.session.fullFeature
    requires IsInt(s.conn.statSn) && IsInt(s.conn.expCmdSn) && req[4] == 0 && WithinLimits(s.conn.params)
    ensures o.state.conn.attached && StageAnswer(s, o, req)
  {
    StageBits(req);
    if Csg(req) == 0 {
      SecurityStage(s, req, o);
    } else if Csg(req) == 1 {
      OperationalStage(s, req, o);
    } else if Csg(req) == 3 {
      RefusalIs(req, INITIATOR_ERROR);
    }
  }

  lemma SecurityStage(s: State, req: Header, o: Outcome)
    requires o == FinalLogin(s, req) && s.session.tsih == 1 && !s.session.fullFeature && Csg(req) == 0
    requires IsInt(s.conn.statSn) && IsInt(s.conn.expCmdSn) && req[4] == 0
    ensures o.state.conn.attached == s.conn.attached && StageAnswer(s, o, req)
  {
    StageBits(req);
    FinalBytes(s.conn, req, StageStatus(req), AUTH_METHOD_NONE);
    assert Appended(s, o.state) == FinalReply(s.conn, 1, req, StageStatus(req), AUTH_METHOD_NONE);
  }

  lemma OperationalStage(s: State, req: Header, o: Outcome)
    requires o == FinalLogin(s, req) && s.session.tsih == 1 && !s.session.fullFeature && Csg(req) == 1
    requires IsInt(s.conn.statSn) && IsInt(s.conn.expCmdSn) && req[4] == 0 && WithinLimits(s.conn.params)
    ensures o.state.conn.attached == s.conn.attached && StageAnswer(s, o, req)
  {
    var p := s.conn.params;
    var c := s.conn.(params := o.state.conn.params, text := AnswerText(p));
    StageBits(req);
    AnswerIsShort(p);
    FinalBytes(c, req, StageStatus(req), AnswerText(p));
    assert Appended(s, o.state) == FinalReply(c, 1, req, StageStatus(req), AnswerText(p));
    SameNumbers(Appended(s, o.state), c, s.conn, req);
  }

  lemma SameNumbers(f: seq<byte>, c: Conn, d: Conn, req: Header)
    requires FinalAnswer(f, c, req) && c.statSn == d.statSn && c.expCmdSn == d.expCmdSn
    ensures FinalAnswer(f, d, req)
  {
  }

  lemma StageOf(st: State, s: State, o: Outcome, req: Header)
    requires StageAnswer(s, o, req) && s.out == st.out
    requires s.conn.statSn == st.conn.statSn && s.conn.expCmdSn == st.conn.expCmdSn
    ensures StageAnswer(st, o, req)
  {
    if req[1] / 4 % 4 < 2 {
      SameNumbers(Appended(st, o.state), s.conn, st.conn, req);
    }
  }
}
