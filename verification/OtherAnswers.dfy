/** What each remaining request is answered with, byte by byte (iscsi_server.c:44-95 and the handlers it calls). */
module OtherAnswers {
  import opened Bytes
  import opened Lookup
  import opened Pdus
  import opened Negotiation
  import opened LoginEndToEnd
  import opened Model
  import opened Runs
  import opened SessionSafety
  import opened Tags
  import opened Reporting
  import opened Discovery

  /** Only the connection's StatSN, by n, and the output differ. */
  predicate OnlySends(s: State, t: State, n: nat)
  {
    && t.session == s.session && t.target == s.target && s.out <= t.out
    && t.conn == s.conn.(statSn := Advance(s.conn.statSn, n))
  }

  // Full-feature phase.

  /** A Logout is answered by one Logout response, which carries no task tag, and ends nothing. */
  lemma LogoutIsAnswered(st: State, e: Event)
    requires Sound(st) && StepOk(st, e) && st.session.fullFeature && Opcode(e.request) == 0x06
    ensures var o := Step(st, e.request, e.reply);
            var bytes := Appended(st, o.state);
            && !o.terminate && OnlySends(st, o.state, 1) && Rest(bytes) == [] && |Parse(bytes)| == 1
            && var p := Parse(bytes)[0];
               && p.opcode == 0x26 && p.flags == 0x80 && p.byte2 == 0 && p.byte3 == 0 && p.data == []
               && p.taskTag == 0 && p.word40 == 0
  {
    OneSent(st, LogoutPdu);
  }

  /** A normal session rejects another Login as a protocol error, and what it does not know as not supported. */
  lemma RestIsRejected(st: State, e: Event)
    requires Normal(st) && StepOk(st, e) && Passes(st, e.request)
    requires Opcode(e.request) !in {0x00, 0x01, 0x04, 0x05, 0x06}
    ensures OneReject(st, Step(st, e.request, e.reply).state, if Opcode(e.request) == 0x03 then 0x04 else 0x05)
  {
    PassesGate(st, e.request);
    GateFrame(st, e.request);
    var g := st.(session := Gate(st, e.request).1);
    RejectedIsOne(g, PROTOCOL_ERROR);
    RejectedIsOne(g, CMD_NOT_SUPPORTED);
  }

  /** The echo of n bytes of data. */
  predicate EchoOf(f: seq<byte>, c: Conn, req: Header, n: nat)
  {
    && |req| >= 48 + n && |f| == 48 + n && f[48..] == req[48..48 + n] && DataLength(f) == n
    && f[0] == 0x20 && f[1] == 0x80 && f[16..24] == req[16..24]
    && Int32At(f, 24) == c.statSn && Int32At(f, 28) == c.expCmdSn
  }

  /** A NOP-Out is answered by its data, cut to the negotiated length, under its own tags. */
  lemma NopIsEchoed(st: State, e: Event)
    requires Normal(st) && StepOk(st, e) && Opcode(e.request) == 0x00
    ensures var o := Step(st, e.request, e.reply);
            && !o.terminate && OnlySends(st, o.state, 1)
            && EchoOf(Appended(st, o.state), st.conn, e.request,
                      Min(st.conn.params.maxReceive, DataLength(e.request)))
  {
    EchoedBytes(st.conn, e.request, Min(st.conn.params.maxReceive, DataLength(e.request)));
    assert Appended(st, Step(st, e.request, e.reply).state) == NopReply(st.conn, e.request);
  }

  lemma EchoedBytes(c: Conn, req: seq<byte>, n: nat)
    requires IsFrame(req) && req[4] == 0 && n == Min(c.params.maxReceive, DataLength(req))
    requires IsInt(c.statSn) && IsInt(c.expCmdSn)
    ensures EchoOf(NopReply(c, req), c, req, n)
  {
    var p := NopPdu(c.params.maxReceive, req).(statSn := c.statSn, expCmdSn := c.expCmdSn, maxCmdSn := c.expCmdSn);
    var f := NopReply(c, req);
    assert p.data == req[48..48 + n];
    EchoedHeader(p, f, c, req);
    DecodeWord(f, 24, c.statSn);
    DecodeWord(f, 28, c.expCmdSn);
  }

  lemma EchoedHeader(p: Pdu, f: seq<byte>, c: Conn, req: Header)
    requires |f| >= HEADER && f[..HEADER] == HeaderBytes(p) && |p.data| < 0x100_0000
    requires p.taskTag == TaskTag(req) && p.transferTag == TransferTag(req)
    requires p.statSn == c.statSn && p.expCmdSn == c.expCmdSn
    ensures f[0] == p.opcode && f[1] == p.flags && f[16..24] == req[16..24] && DataLength(f) == |p.data|
    ensures f[24..28] == Int32Bytes(c.statSn) && f[28..32] == Int32Bytes(c.expCmdSn)
  {
    HeaderFields(p, f);
    Nat24RoundTrip(f, 5, |p.data|);
    TagBytes(f, req, 16);
    TagBytes(f, req, 20);
    assert f[16..24] == f[16..20] + f[20..24] && req[16..24] == req[16..20] + req[20..24];
  }

  /** Four bytes written from an int read from four bytes are those bytes. */
  lemma TagBytes(f: seq<byte>, req: seq<byte>, at: nat)
    requires at + 4 <= |f| && at + 4 <= |req| && f[at..at + 4] == Int32Bytes(Int32At(req, at))
    ensures f[at..at + 4] == req[at..at + 4]
  {
    FourBytes(req[at], req[at + 1], req[at + 2], req[at + 3]);
    assert req[at..at + 4] == [req[at], req[at + 1], req[at + 2], req[at + 3]];
  }

  lemma FourBytes(a: byte, b: byte, c: byte, d: byte)
    ensures Int32Bytes(Int32(((a as int * 256 + b) * 256 + c) * 256 + d)) == [a, b, c, d]
  {
    var two := a as int * 256 + b;
    var three := two * 256 + c;
    WrapKeepsBytes(three * 256 + d);
    OneByteOff(three, d);
    OneByteOff(two, c);
    OneByteOff(a as int, b);
    BytesOf(three * 256 + d, three, two, a, b, c, d);
  }

  lemma WrapKeepsBytes(v: nat)
    requires v < TWO32
    ensures v % TWO32 == v && Int32Bytes(Int32(v)) == Int32Bytes(v)
  {
    assert Int32(v) % TWO32 == v;
  }

  lemma BytesOf(v: nat, three: nat, two: nat, a: byte, b: byte, c: byte, d: byte)
    requires v % TWO32 == v && v / 256 == three && v % 256 == d && three / 256 == two && three % 256 == c
    requires two / 256 == a && two % 256 == b
    ensures Int32Bytes(v) == [a, b, c, d]
  {
  }

  lemma OneByteOff(n: nat, d: byte)
    ensures (n * 256 + d) / 256 == n && (n * 256 + d) % 256 == d
  {
  }

  /** The header a Text response starts with: the request's, as a response, final. */
  predicate TextAnswerHeader(f: seq<byte>, req: Header)
  {
    && |f| >= 48 && f[0] % 64 == 0x24 && f[0] / 64 == req[0] / 64 && f[1] == 128 + req[1] % 128
    && f[2..4] == req[2..4] && f[8..48] == req[8..48]
  }

  const OnlyTarget := Ascii("TargetName=iqn.2019-10.chula") + Ascii(".ac.th:iscsi-disk.sn.12345") + [0]

  /** The answer to a Text request. */
  predicate TextAnswer(f: seq<byte>, req: Header)
  {
    if req[2] / 64 % 2 == 1 then |f| == 48 && TextAnswerHeader(f, req) && f[4..8] == req[4..8]
    else if Find(Segment(req), Ascii("SendTargets")).Some? then
      IsFrame(f) && TextAnswerHeader(f, req) && Segment(f) == OnlyTarget
    else f == []
  }

  /**
   * Text: with bit 1 of byte 2 set the header comes back; else SendTargets is answered by a whole PDU with the one
   * target's name, and any other text by nothing. No number is written and none counted.
   */
  lemma TextIsAnswered(st: State, e: Event)
    requires Sound(st) && StepOk(st, e) && st.session.fullFeature && Opcode(e.request) == 0x04
    ensures var o := Step(st, e.request, e.reply);
            !o.terminate && OnlySends(st, o.state, 0) && TextAnswer(Appended(st, o.state), e.request)
  {
    AdvanceZero(st.conn.statSn);
    TextReplyIs(e.request);
    assert Appended(st, Step(st, e.request, e.reply).state) == TextReply(e.request);
  }

  lemma TextReplyIs(req: Header)
    requires req[4] == 0
    ensures TextAnswer(TextReply(req), req)
  {
    ContinueBit(req[2]);
    TextHeaderBytes(req);
    PayloadIsFrame(TextHeader(req), TARGETS_TEXT);
    assert forall i :: 8 <= i < HEADER ==> Payload(TextHeader(req), TARGETS_TEXT)[i] == TextHeader(req)[i];
  }

  lemma ContinueBit(b: byte)
    ensures BitSet(b, 1) <==> b / 64 % 2 == 1
  {
  }

  lemma TextHeaderBytes(req: Header)
    ensures TextAnswerHeader(TextHeader(req), req) && TextHeader(req)[4..8] == req[4..8]
  {
    var f := TextHeader(req);
    TopBitOn(req[1]);
    OpcodeKeepsTop(req[0], TEXT_RES);
    assert f[0] == WithOpcode(req[0], TEXT_RES) && f[1] == WithBit(req[1], 0, true);
    assert forall i :: 2 <= i < HEADER ==> f[i] == req[i];
  }

  lemma TopBitOn(b: byte)
    ensures WithBit(b, 0, true) == 128 + b % 128 && WithBit(b, 0, false) == b % 128
  {
    TopBitIs(b, true);
    TopBitIs(b, false);
  }

  lemma TopBitIs(b: byte, on: bool)
    ensures WithBit(b, 0, on) == 128 * Digit(on) + b % 128
  {
    var r := WithBit(b, 0, on);
    var c, d := BitsOf(r), BitsOf(b);
    BitSum(r);
    BitSum(b);
    assert c == d[0 := on];
    assert c[0] == on && c[1] == d[1] && c[2] == d[2] && c[3] == d[3];
    assert c[4] == d[4] && c[5] == d[5] && c[6] == d[6] && c[7] == d[7];
    LowSeven(b);
  }

  lemma LowSeven(b: byte)
    ensures b == 128 * Digit(BitSet(b, 0)) + b % 128
  {
    assert b / 128 <= 1;
  }
}
