/** The target as a state machine over whole requests: what each handler of the server does to the state. */
module Model {
  import opened Bytes
  import opened Decimals
  import opened Lookup
  import opened Pdus
  import opened Negotiation
  import opened GeneratedText

  const MEMORY_SIZE: nat := 0x40_0000  // ISCSI_TARGET_MEMORY_SIZE and ISCSI_TRANSFER_ENTRY_SIZE
  const CDB_LENGTH: nat := 16
  const DEFAULT_TAG := -1              // 0xFFFFFFFF read as an int

  // The device: executing a command is an event whose outcome the model takes as given.

  datatype Reply = Failed | Done(buffer: seq<byte>, resid: int, status: byte, sense: seq<byte>)
  {
    predicate Valid() {
      Done? ==> |buffer| == MEMORY_SIZE && 0 <= resid <= MEMORY_SIZE && |sense| <= 32
    }
  }

  /** One command handed to the device, with the buffer it saw and the transfer it completes, if any. */
  datatype Execution = Execution(cdb: seq<byte>, buffer: seq<byte>, transfer: Option<int>)

  datatype Target = Target(
    buffer: seq<byte>, response: byte, status: byte, resid: int, sense: seq<byte>, log: seq<Execution>)

  datatype Entry = Entry(
    data: seq<byte>, cdb: seq<byte>, total: int, offset: int, r2tSn: int, totalR2tSn: int, tag: int)

  datatype Session = Session(
    connections: int, maxConnections: int, tsih: int, expCmdSn: int, numberingStarted: bool,
    fullFeature: bool, discovery: bool, transferTag: int, hasTarget: bool, entry: Entry)

  datatype Conn = Conn(
    attached: bool, connectionId: int, params: Params, text: seq<byte>, statSn: int, expCmdSn: int)

  datatype State = State(conn: Conn, session: Session, target: Target, out: seq<byte>)
  {
    predicate Valid() {
      && |target.buffer| == MEMORY_SIZE && |target.sense| <= 32 && 0 <= target.resid <= MEMORY_SIZE
      && |session.entry.data| == MEMORY_SIZE && |session.entry.cdb| == CDB_LENGTH
      && 0 <= session.entry.total <= MEMORY_SIZE
      && IsInt(conn.statSn) && IsInt(conn.expCmdSn) && IsInt(session.expCmdSn) && IsInt(session.transferTag)
      && (session.fullFeature ==> WithinLimits(conn.params) && conn.params.maxReceive >= 1)
    }
  }

  /** A fresh process: the globals are zero, the connection is unattached, its parameters are whatever malloc left. */
  function Init(params: Params, text: seq<byte>): State
  {
    State(
      Conn(false, 0, params, text, 0, 0),
      Session(0, 0, 0, 0, false, false, false, 0, false, Entry(Zeros(MEMORY_SIZE), Zeros(CDB_LENGTH), 0, 0, 0, 0, 0)),
      Target(Zeros(MEMORY_SIZE), 0, 0, 0, [], []), [])
  }

  // Requests.

  function Segment(req: Header): seq<byte>
  {
    if HEADER + DataLength(req) <= |req| then req[HEADER..HEADER + DataLength(req)] else []
  }

  predicate IsRead(req: Header) { BitSet(req[1], 1) }

  predicate IsWrite(req: Header) { BitSet(req[1], 2) }

  function ExpectedLength(req: Header): int { Int32At(req, 20) }

  function Cdb(req: Header): (c: seq<byte>)
    ensures |c| == CDB_LENGTH
  {
    req[32..48]
  }

  function BufferOffset(req: Header): int { Int32At(req, 40) }

  const INITIATOR_NAME := Ascii("InitiatorName")
  const SESSION_TYPE := Ascii("SessionType")
  const TARGET_NAME := Ascii("TargetName")
  const SEND_TARGETS := Ascii("SendTargets")
  const DISCOVERY := Ascii("Discovery")

  /** The part of the data segment iscsi_connection_parameter_create reads. */
  function LoginData(req: Header): seq<byte>
  {
    var s := Segment(req);
    if |s| <= PARAMETER_BUFFER_SIZE then s else s[..PARAMETER_BUFFER_SIZE]
  }

  /** A login text the C code can process: NUL-terminated, with a positive segment length. */
  predicate LoginText(text: seq<byte>)
  {
    (text != [] ==> text[|text| - 1] == NUL) && Negotiated(text).maxReceive >= 1
  }

  /** setup_session finds the SessionType where it reads it unchecked: in a named Login without a TSIH. */
  predicate KindReadable(text: seq<byte>, req: Header)
  {
    Tsih(req) == 0 && Find(text, INITIATOR_NAME).Some? ==> Find(text, SESSION_TYPE).Some?
  }

  /** A Login the C code can process; only an unattached connection is set up, and only when no more text follows. */
  predicate LoginReadable(attached: bool, text: seq<byte>, req: Header)
  {
    LoginText(text) && (!attached && !Continue(req) ==> KindReadable(text, req))
  }

  /** The session is logged in. */
  predicate InFullFeature(st: State)
  {
    st.conn.attached && st.session.fullFeature
  }

  predicate NeedsR2t(req: Header)
  {
    IsWrite(req) && DataLength(req) < ExpectedLength(req)
  }

  /** A write with R2Ts fits the transfer entry; a read does not ask for a negative length. */
  predicate LengthInRange(req: Header)
  {
    if NeedsR2t(req) then ExpectedLength(req) <= MEMORY_SIZE else IsRead(req) ==> 0 <= ExpectedLength(req)
  }

  /** The echo is not cut, or by a multiple of four: any other cut pads in front of the echo (request/nop.c:33). */
  predicate EchoPadsNothing(max: int, req: Header)
  {
    DataLength(req) <= max || (DataLength(req) - max) % 4 == 0
  }

  /** The requests the model speaks about: whole frames, no additional header segments, lengths in range. */
  predicate Acceptable(st: State, req: seq<byte>)
  {
    && IsFrame(req) && req[4] == 0
    && (Opcode(req) == SCSI_CMD ==> LengthInRange(req))
    && (Opcode(req) == SCSI_DATA_OUT ==> 0 <= BufferOffset(req) && BufferOffset(req) + DataLength(req) <= MEMORY_SIZE)
    && (Opcode(req) == LOGIN && !InFullFeature(st) ==> LoginReadable(st.conn.attached, LoginData(req), req))
    && (Opcode(req) == NOP_OUT && InFullFeature(st) ==> EchoPadsNothing(st.conn.params.maxReceive, req))
  }

  // Responses in the common layout.

  /** iscsi_pdu_set_response_header on the i-th of several responses in a row. */
  function Stamp(c: Conn, p: Pdu, i: nat): Pdu
  {
    p.(statSn := Advance(c.statSn, i), expCmdSn := c.expCmdSn, maxCmdSn := c.expCmdSn)
  }

  function Stamped(c: Conn, ps: seq<Pdu>): (qs: seq<Pdu>)
    ensures |qs| == |ps|
  {
    seq(|ps|, i requires 0 <= i < |ps| => Stamp(c, ps[i], i))
  }

  function Sent(st: State, ps: seq<Pdu>): State
  {
    st.(out := st.out + EncodeAll(Stamped(st.conn, ps)),
        conn := st.conn.(statSn := Advance(st.conn.statSn, |ps|)))
  }

  /** One R2T: sequence number, buffer offset, desired length. */
  datatype Range = Range(sn: int, offset: int, length: int)

  function Plan(k: nat, start: int, max: int, total: int): (rs: seq<Range>)
    ensures |rs| == k
  {
    seq(k, i requires 0 <= i < k => Range(i, start + i * max, Min(max, total - (start + i * max))))
  }

  function R2tPdu(taskTag: int, tag: int, r: Range): Pdu
  {
    Pdu(R2T, 128, 0, 0, taskTag, tag, 0, 0, 0, r.sn, r.offset, r.length, [])
  }

  function R2tPdus(taskTag: int, tag: int, rs: seq<Range>): (ps: seq<Pdu>)
    ensures |ps| == |rs|
  {
    seq(|rs|, i requires 0 <= i < |rs| => R2tPdu(taskTag, tag, rs[i]))
  }

  function Slice(s: seq<byte>, lo: int, hi: int): seq<byte>
  {
    if 0 <= lo <= hi <= |s| then s[lo..hi] else []
  }

  function DataInPdu(taskTag: int, sn: int, offset: int, data: seq<byte>, final: bool): Pdu
  {
    Pdu(SCSI_DATA_IN, if final then 129 else 1, 0, 0, taskTag, DEFAULT_TAG, 0, 0, 0, sn, offset, 0, data)
  }

  /** How many Data-In PDUs carry n bytes: at least one, however short the transfer. */
  function SegmentCount(n: nat, max: int): (k: nat)
    requires max > 0
    ensures k >= 1
  {
    Max(1, DivideRoundUp(n, max))
  }

  function DataIn(taskTag: int, data: seq<byte>, n: nat, max: int, i: nat): Pdu
    requires max > 0
  {
    var offset := i * max;
    DataInPdu(taskTag, i, offset, Slice(data, offset, Min(n, offset + max)), offset + max >= n)
  }

  function DataIns(taskTag: int, data: seq<byte>, n: nat, max: int): (ps: seq<Pdu>)
    requires max > 0
    ensures |ps| == SegmentCount(n, max)
  {
    seq(SegmentCount(n, max), i requires 0 <= i < SegmentCount(n, max) => DataIn(taskTag, data, n, max, i))
  }

  function CmdResponse(taskTag: int, t: Target): Pdu
  {
    Pdu(SCSI_CMD_RES, 128, t.response, t.status, taskTag, 0, 0, 0, 0, 0, 0, 0, Int16Bytes(|t.sense|) + t.sense)
  }

  const PROTOCOL_ERROR: byte := 0x04
  const CMD_NOT_SUPPORTED: byte := 0x05

  function RejectPdu(reason: byte, data: seq<byte>): Pdu
  {
    Pdu(REJECT, 128, reason, 0, -1, 0, 0, 0, 0, 0, 0, 0, data)
  }

  const LogoutPdu := Pdu(LOGOUT_RES, 128, 0, 0, 0, 0, 0, 0, 0, 0, 0, 0, [])

  // Handlers.

  function Executed(t: Target, cdb: seq<byte>, transfer: Option<int>, reply: Reply): Target
  {
    var log := t.log + [Execution(cdb, t.buffer, transfer)];
    match reply
    case Failed => Target(t.buffer, 1, 0, 0, [], log)
    case Done(buffer, resid, status, sense) => Target(buffer, 0, status, resid, sense, log)
  }

  /** The state in which iscsi_request_cmd_process does its work: one more command counted, one more tag used. */
  function Counted(st: State): State
  {
    st.(conn := st.conn.(expCmdSn := Advance(st.conn.expCmdSn, 1)),
        session := st.session.(transferTag := Advance(st.session.transferTag, 1)))
  }

  /** Bytes the initiator sends unasked besides the immediate data: some only when InitialR2T is off. */
  function Unsolicited(p: Params, req: Header): int
  {
    if p.initialR2t then 0 else Min(p.firstBurst, ExpectedLength(req)) - DataLength(req)
  }

  function R2tCount(p: Params, req: Header): nat
    requires p.maxReceive >= 1
  {
    var left := ExpectedLength(req) - DataLength(req) - Unsolicited(p, req);
    Max(0, Min(p.maxOutstandingR2t, DivideRoundUp(left, p.maxReceive)))
  }

  function PlanOf(p: Params, req: Header): seq<Range>
    requires p.maxReceive >= 1
  {
    Plan(R2tCount(p, req), DataLength(req) + Unsolicited(p, req), p.maxReceive, ExpectedLength(req))
  }

  /** The entry a write sets up, and its R2Ts; the tag has been taken. */
  function WriteBegun(c: State, req: Header): State
    requires c.conn.params.maxReceive >= 1
  {
    var tag := c.session.transferTag;
    var e := c.session.entry.(cdb := Cdb(req), total := ExpectedLength(req), tag := tag);
    Sent(c.(session := c.session.(entry := e)), R2tPdus(TaskTag(req), tag, PlanOf(c.conn.params, req)))
  }

  /** How much a read command returns: what was asked for, cut to what the device left. */
  function ReadLength(req: Header, t: Target): int
  {
    Min(ExpectedLength(req), MEMORY_SIZE - t.resid)
  }

  /** The Data-Ins or the response of a command that has run. */
  function Reported(c: State, req: Header): State
    requires c.conn.params.maxReceive >= 1 && c.target.resid <= MEMORY_SIZE
    requires IsRead(req) ==> 0 <= ExpectedLength(req)
  {
    if IsRead(req) then
      Sent(c, DataIns(TaskTag(req), c.target.buffer, ReadLength(req, c.target), c.conn.params.maxReceive))
    else
      Sent(c, [CmdResponse(TaskTag(req), c.target)])
  }

  function StartWrite(st: State, req: Header): State
    requires st.conn.params.maxReceive >= 1
  {
    WriteBegun(Counted(st), req)
  }

  function RunCommand(st: State, req: Header, reply: Reply): State
    requires st.conn.params.maxReceive >= 1 && (IsRead(req) ==> 0 <= ExpectedLength(req)) && reply.Valid()
  {
    Reported(Counted(st).(target := Executed(st.target, Cdb(req), None, reply)), req)
  }

  /** iscsi_request_cmd_process. */
  function Cmd(st: State, req: Header, reply: Reply): State
    requires st.conn.params.maxReceive >= 1 && LengthInRange(req) && reply.Valid()
  {
    if NeedsR2t(req) then StartWrite(st, req) else RunCommand(st, req, reply)
  }

  /** The transfer entry a Data-Out belongs to, if its tag is the current one. */
  predicate Addressed(st: State, req: Header)
  {
    TransferTag(req) != DEFAULT_TAG && TransferTag(req) == st.session.entry.tag
  }

  /** The Data-Out ends where the transfer ends. */
  predicate Ends(e: Entry, req: Header)
  {
    BufferOffset(req) + DataLength(req) == e.total
  }

  function Stored(e: Entry, req: Header): Entry
    requires 0 <= BufferOffset(req) && BufferOffset(req) + |Segment(req)| <= |e.data|
  {
    e.(data := Patch(e.data, BufferOffset(req), Segment(req)))
  }

  /** iscsi_session_execute_transfer_entry: the whole entry goes into the target's buffer, then the command runs. */
  function ExecutedEntry(t: Target, e: Entry, reply: Reply): Target
    requires 0 <= e.total <= |e.data| && e.total <= |t.buffer|
  {
    Executed(t.(buffer := Patch(t.buffer, 0, e.data[..e.total])), e.cdb, Some(e.tag), reply)
  }

  predicate FollowUp(e: Entry, req: Header)
  {
    Final(req) && e.r2tSn < e.totalR2tSn
  }

  /** The transfer is complete: the command runs and its response goes out. */
  function Completed(s: State, req: Header, reply: Reply): State
    requires s.Valid()
  {
    var t := ExecutedEntry(s.target, s.session.entry, reply);
    Sent(s.(target := t), [CmdResponse(TaskTag(req), t)])
  }

  /** One more R2T. */
  function FollowedUp(s: State, req: Header): State
  {
    var e := s.session.entry;
    var next := Int32(e.offset * e.r2tSn);
    var r := Range(e.r2tSn, next, Min(s.conn.params.maxReceive, e.total - next));
    var t := Sent(s, [R2tPdu(TaskTag(req), TransferTag(req), r)]);
    t.(session := t.session.(entry := e.(r2tSn := Advance(e.r2tSn, 1))))
  }

  function AfterStored(s: State, req: Header, reply: Reply): State
    requires s.Valid()
  {
    if Ends(s.session.entry, req) then Completed(s, req, reply)
    else if FollowUp(s.session.entry, req) then FollowedUp(s, req)
    else s
  }

  /** iscsi_request_data_out_process. */
  function DataOut(st: State, req: Header, reply: Reply): State
    requires st.Valid() && 0 <= BufferOffset(req) && BufferOffset(req) + |Segment(req)| <= MEMORY_SIZE
  {
    if !Addressed(st, req) then st
    else AfterStored(st.(session := st.session.(entry := Stored(st.session.entry, req))), req, reply)
  }

  function Rejected(st: State, reason: byte): State
  {
    Sent(st, [RejectPdu(reason, [])])
  }

  function LoggedOut(st: State): State
  {
    Sent(st, [LogoutPdu])
  }

  // Responses that copy the request's header, and NOP-In: bytes outside the common layout.

  function WithOpcode(b: byte, opcode: byte): byte
  {
    opcode % 64 + b / 64 * 64
  }

  function Emit(st: State, bytes: seq<byte>): State
  {
    st.(out := st.out + bytes)
  }

  function Advanced(st: State): State
  {
    st.(conn := st.conn.(statSn := Advance(st.conn.statSn, 1)))
  }

  /** The numbers iscsi_pdu_set_response_header writes: StatSN, ExpCmdSN, MaxCmdSN. */
  function NumberBytes(statSn: int, expCmdSn: int): (s: seq<byte>)
    ensures |s| == 12
  {
    Int32Bytes(statSn) + Int32Bytes(expCmdSn) + Int32Bytes(expCmdSn)
  }

  function Numbers(c: Conn): seq<byte>
  {
    NumberBytes(c.statSn, c.expCmdSn)
  }

  /** The data of a NOP-Out, cut to the negotiated length. */
  function EchoData(max: int, req: Header): seq<byte>
  {
    var s := Segment(req);
    if 0 <= max <= |s| then s[..max] else s
  }

  function NopPdu(max: int, req: Header): Pdu
  {
    Pdu(NOP_IN, 128, 0, 0, TaskTag(req), TransferTag(req), 0, 0, 0, 0, 0, 0, EchoData(max, req))
  }

  /** iscsi_request_nop_out_process: the echo is not padded. */
  function NopReply(c: Conn, req: Header): seq<byte>
  {
    var p := NopPdu(c.params.maxReceive, req).(statSn := c.statSn, expCmdSn := c.expCmdSn, maxCmdSn := c.expCmdSn);
    HeaderBytes(p) + p.data
  }

  function CopiedHeader(req: Header, opcode: byte): (s: seq<byte>)
    ensures |s| == HEADER
  {
    Patch(req[..HEADER], 0, [WithOpcode(req[0], opcode)])
  }

  const TARGETS_TEXT := Ascii("TargetName=iqn.2019-10.chula") + Ascii(".ac.th:iscsi-disk.sn.12345") + [NUL]

  function Payload(header: seq<byte>, data: seq<byte>): seq<byte>
    requires |header| == HEADER
  {
    Patch(header, 5, Int24Bytes(|data|)) + data + Zeros(Padded(HEADER + |data|) - HEADER - |data|)
  }

  function TextHeader(req: Header): (s: seq<byte>)
    ensures |s| == HEADER
  {
    Patch(CopiedHeader(req, TEXT_RES), 1, [WithBit(req[1], 0, true)])
  }

  /** iscsi_request_text_process. */
  function TextReply(req: Header): seq<byte>
  {
    if BitSet(req[2], 1) then TextHeader(req)
    else if Find(Segment(req), SEND_TARGETS).Some? then Payload(TextHeader(req), TARGETS_TEXT)
    else []
  }

  // Login.

  const SUCCESS := 0x0000
  const INITIATOR_ERROR := 0x0200
  const TOO_MANY_CONNECTION := 0x0206

  predicate Transit(req: Header) { BitSet(req[1], 0) }

  predicate Continue(req: Header) { BitSet(req[1], 1) }

  function Csg(req: Header): byte { req[1] / 4 % 4 }

  function Nsg(req: Header): byte { req[1] % 4 }

  function Tsih(req: Header): int { req[14] as int * 256 + req[15] }

  function Cid(req: Header): int { req[20] as int * 256 + req[21] }

  function Created(s: Session): Session
  {
    s.(connections := 0, maxConnections := 4, tsih := 1, expCmdSn := 0, transferTag := 0, hasTarget := true)
  }

  function AttachedOld(st: State, req: Header): State
  {
    st.(conn := st.conn.(attached := true, connectionId := Cid(req)))
  }

  /** The connection attached to a session created for it. */
  function AttachedNew(st: State, req: Header): State
  {
    AttachedOld(st.(session := Created(st.session).(expCmdSn := Int32At(req, 28))), req)
  }

  function OfKind(st: State, discovery: bool): State
  {
    st.(session := st.session.(discovery := discovery, hasTarget := st.session.hasTarget || !discovery))
  }

  function KindChosen(st: State): (State, int)
  {
    if IsDiscovery(st.conn.text) then (OfKind(st, true), SUCCESS)
    else if Find(st.conn.text, TARGET_NAME).Some? then (OfKind(st, false), SUCCESS)
    else (st, INITIATOR_ERROR)
  }

  /** setup_session: the state and the login status it leaves. */
  function SetUp(st: State, req: Header): (State, int)
    requires KindReadable(st.conn.text, req)
  {
    var text := st.conn.text;
    if Find(text, INITIATOR_NAME).None? then (st, INITIATOR_ERROR)
    else if Tsih(req) == 0 then
      KindChosen(AttachedNew(st, req))
    else if st.session.connections >= st.session.maxConnections then (st, TOO_MANY_CONNECTION)
    else (AttachedOld(st, req), SUCCESS)
  }

  predicate IsDiscovery(text: seq<byte>)
  {
    var at := Find(text, SESSION_TYPE);
    at.Some? && at.value <= |text| && CString(text, at.value) == DISCOVERY
  }

  function StatusReply(header: seq<byte>, status: int): seq<byte>
    requires |header| == HEADER
  {
    Patch(header, 36, Int16Bytes(status))
  }

  /** response_partial_login. */
  function PartialReply(c: Conn, req: Header): seq<byte>
  {
    var h := Patch(req[..HEADER], 24, Numbers(c));
    var h := Patch(h, 0, [WithOpcode(req[0], LOGIN_RES)]);
    var h := Patch(h, 1, [WithBit(req[1], 0, false)]);
    StatusReply(h, if Transit(req) then INITIATOR_ERROR else SUCCESS)
  }

  function FinalHeader(c: Conn, tsih: int, req: Header, status: int): (s: seq<byte>)
    ensures |s| == HEADER
  {
    var h := Patch(req[..HEADER], 24, Numbers(c));
    var h := Patch(h, 0, [WithOpcode(WithBit(req[0], 1, false), LOGIN_RES)]);
    var h := Patch(h, 1, [WithBit(req[1], 0, true)]);
    Patch(StatusReply(h, status), 14, Int16Bytes(tsih))
  }

  /** response_final_with_parameters. */
  function FinalReply(c: Conn, tsih: int, req: Header, status: int, payload: seq<byte>): seq<byte>
  {
    Payload(FinalHeader(c, tsih, req, status), payload)
  }

  const AUTH_METHOD_NONE := Ascii("AuthMethod=None")

  /** Login with the final stage bits: enters full-feature phase. */
  predicate Completes(req: Header)
  {
    Transit(req) && Nsg(req) == 3
  }

  function Entered(st: State, enters: bool): State
  {
    st.(session := st.session.(fullFeature := st.session.fullFeature || enters))
  }

  function StageStatus(req: Header): int
  {
    if Transit(req) && Nsg(req) != 3 then INITIATOR_ERROR else SUCCESS
  }

  /** The parameters and their text, replaced. */
  function Reparametrised(st: State, p: Params, text: seq<byte>): State
  {
    st.(conn := st.conn.(params := p, text := text))
  }

  function FinallySent(st: State, req: Header, payload: seq<byte>): State
  {
    Advanced(Emit(st, FinalReply(st.conn, st.session.tsih, req, StageStatus(req), payload)))
  }

  /** A request's effect, and whether the receiver thread then closes the socket (SOCKET_TERMINATE). */
  datatype Outcome = Outcome(state: State, terminate: bool)

  /** response_final_login. Stage 2 does not exist; its result -1 is read as SOCKET_TERMINATE. */
  function FinalLogin(st: State, req: Header): Outcome
  {
    var e := Entered(st, Completes(req));
    if Csg(req) == 0 then Outcome(FinallySent(e, req, AUTH_METHOD_NONE), false)
    else if Csg(req) == 1 then
      var kvs := PrintedPairs(KEYS, st.conn.params, 10);
      Outcome(FinallySent(Reparametrised(e, Fold(Updated, st.conn.params, kvs), Wire(kvs)), req, Wire(kvs)), false)
    else if Csg(req) == 3 then
      Outcome(Emit(st, StatusReply(CopiedHeader(req, LOGIN_RES), INITIATOR_ERROR)), false)
    else Outcome(st, true)
  }

  /** A Login that is not to be continued, its parameters read. */
  function LoginFinished(st: State, req: Header): Outcome
    requires LoginReadable(st.conn.attached, st.conn.text, req) && !Continue(req)
  {
    if st.conn.attached then FinalLogin(st, req)
    else
      var (t, status) := SetUp(st, req);
      if status != SUCCESS then Outcome(Emit(t, StatusReply(CopiedHeader(req, LOGIN_RES), status)), false)
      else FinalLogin(t, req)
  }

  /** iscsi_request_login_process. */
  function Login(st: State, req: Header): Outcome
    requires LoginReadable(st.conn.attached, LoginData(req), req)
  {
    var text := LoginData(req);
    LoginAnswered(Reparametrised(st, Negotiated(text), text), req)
  }

  /** A Login, its parameters read. */
  function LoginAnswered(st: State, req: Header): Outcome
    requires LoginReadable(st.conn.attached, st.conn.text, req)
  {
    if Continue(req) then Outcome(Advanced(Emit(st, PartialReply(st.conn, req))), false)
    else LoginFinished(st, req)
  }

  function LoginRejectBytes(tsih: int): seq<byte>
  {
    Patch(Patch(Zeros(HEADER), 0, [LOGIN_RES]), 14, Int16Bytes(tsih))
  }

  /** iscsi_request_login_reject with a session attached. */
  function LoginRejected(st: State): State
  {
    Emit(st, LoginRejectBytes(st.session.tsih))
  }

  // Dispatch.

  /** iscsi_pdu_has_cmdSN. */
  predicate HasCmdSn(req: Header)
  {
    Opcode(req) in {NOP_OUT, SCSI_CMD, LOGIN, TEXT, LOGOUT}
  }

  /** valid_command_numbering: whether the request passes, and the session it leaves. */
  function Gate(st: State, req: Header): (bool, Session)
  {
    var s := st.session;
    if !st.conn.attached || HasCmdSn(req) then (true, s)
    else if s.numberingStarted && CmdSn(req) != s.expCmdSn then (false, s)
    else
      var s := s.(expCmdSn := CmdSn(req), numberingStarted := true);
      (true, if Opcode(req) == REJECT && !Immediate(req) then s.(expCmdSn := Advance(s.expCmdSn, 1)) else s)
  }

  /** A request in full-feature phase, past the gate. */
  function FullFeature(st: State, req: Header, reply: Reply): State
    requires st.Valid() && Acceptable(st, req) && reply.Valid() && st.session.fullFeature
  {
    if Opcode(req) == LOGOUT then LoggedOut(st)
    else if Opcode(req) == TEXT then Emit(st, TextReply(req))
    else if st.session.discovery then Rejected(st, PROTOCOL_ERROR)
    else if Opcode(req) == NOP_OUT then Advanced(Emit(st, NopReply(st.conn, req)))
    else if Opcode(req) == SCSI_DATA_OUT then DataOut(st, req, reply)
    else if Opcode(req) == SCSI_CMD then Cmd(st, req, reply)
    else if Opcode(req) == LOGIN then Rejected(st, PROTOCOL_ERROR)
    else Rejected(st, CMD_NOT_SUPPORTED)
  }

  /** iscsi_server_process. */
  function Step(st: State, req: seq<byte>, reply: Reply): Outcome
    requires st.Valid() && Acceptable(st, req) && reply.Valid()
  {
    var (pass, s) := Gate(st, req);
    if !pass then Outcome(st, false)
    else
      Dispatched(st.(session := s), req, reply)
  }

  /** A request past the gate. */
  function Dispatched(st: State, req: Header, reply: Reply): Outcome
    requires st.Valid() && Acceptable(st, req) && reply.Valid()
  {
    if InFullFeature(st) then Outcome(FullFeature(st, req, reply), false) else Early(st, req)
  }

  /** A request before full-feature phase, past the gate. */
  function Early(st: State, req: Header): Outcome
    requires Opcode(req) == LOGIN ==> LoginReadable(st.conn.attached, LoginData(req), req)
  {
    if Opcode(req) == LOGIN then Login(st, req)
    else if !st.conn.attached then Outcome(st, true)
    else Outcome(LoginRejected(st), false)
  }
}
