/** The dispatcher and the receiver thread on the objects (iscsi_server.c, iscsi_connection.c:30-51, main.c:92-123). */
module Server {
  import opened Bytes
  import opened Pdus
  import opened Buffers
  import opened Negotiation
  import opened Model
  import opened Runs
  import opened Fields
  import opened Objects
  import opened Responses
  import opened Handlers
  import opened CopiedReplies
  import opened LoginHandler

  method FillNop(a: array<byte>, base: nat, n: nat, statSn: int, expCmdSn: int, taskTag: int, tag: int, data: seq<byte>,
                 ghost r: Pdu)
    requires n == HEADER + |data| && Holds(a, base, n, BLANK)
    requires r == WithNumbers(Pdu(NOP_IN, 128, 0, 0, taskTag, tag, 0, 0, 0, 0, 0, 0, data), statSn, expCmdSn)
    modifies a
    ensures base + n <= a.Length && a[base..base + n] == HeaderBytes(r) + r.data && a[..base] == old(a[..base])
  {
    ghost var p := SetOpcode(a, base, n, BLANK, NOP_IN);
    p := SetFlag(a, base, n, p, 0, true);
    p := SetWord(a, base, n, p, 0, taskTag);
    p := SetWord(a, base, n, p, 1, tag);
    p := SetNumbers(a, base, n, p, statSn, expCmdSn);
    p := SetDataSegment(a, base, n, p, data);
    assert p == r;
    assert Image(p, n) == HeaderBytes(r) + r.data;
  }

  /** iscsi_request_nop_out_process: the data is cut to the negotiated length, and not padded. */
  method NopOutProcess(c: Connection, req: seq<byte>)
    requires c.Valid() && |req| >= HEADER
    requires |req| >= HEADER + DataLength(req) && 0 <= c.parameter.values.maxReceive <= PARAMETER_BUFFER_SIZE
    requires EchoPadsNothing(c.parameter.values.maxReceive, req)
    modifies c`statSn, c.response, c.response.data
    ensures c.Valid() && c.View() == Advanced(Emit(old(c.View()), NopReply(old(c.View()).conn, req)))
  {
    var data := req[HEADER..HEADER + Min(c.parameter.values.maxReceive, DataLength(req))];
    assert data == EchoData(c.parameter.values.maxReceive, req);
    var n := HEADER + |data|;
    ghost var bytes := NopReply(c.ConnView(), req);
    var base := Reserve(c, n);
    FillNop(c.response.data, base, n, c.statSn, c.expCmdSn, TaskTag(req), TransferTag(req), data,
            WithNumbers(NopPdu(c.parameter.values.maxReceive, req), c.statSn, c.expCmdSn));
    PublishBytes(c, base, n, bytes);
    AdvanceStatSn(c);
  }

  /** valid_command_numbering. */
  method ValidCommandNumbering(c: Connection, req: seq<byte>) returns (pass: bool)
    requires c.Valid() && |req| >= HEADER
    modifies c.session`expCmdSn, c.session`numberingStarted
    ensures c.Valid() && c.View() == old(c.View()).(session := c.View().session)
    ensures (pass, c.View().session) == Gate(old(c.View()), req)
  {
    var s := c.session;
    if !c.attached || HasCmdSn(req) {
      return true;
    }
    var cmdSn := CmdSn(req);
    if s.numberingStarted {
      if cmdSn != s.expCmdSn {
        return false;
      }
    } else {
      s.expCmdSn := cmdSn;
      s.numberingStarted := true;
    }
    var opcode := Opcode(req);
    if opcode == LOGOUT || opcode == TEXT || opcode == SCSI_CMD || opcode == REJECT {
      if !Immediate(req) {
        s.expCmdSn := Advance(s.expCmdSn, 1);
      }
    }
    return true;
  }

  method RejectRequest(c: Connection, reason: byte)
    requires c.Valid() && IsInt(c.statSn)
    modifies c`statSn, c.response, c.response.data
    ensures c.Valid() && c.View() == Rejected(old(c.View()), reason)
  {
    SentSingle(c.View(), RejectPdu(reason, []));
    Reject(c, reason, []);
  }

  method LogoutRequest(c: Connection)
    requires c.Valid() && IsInt(c.statSn)
    modifies c`statSn, c.response, c.response.data
    ensures c.Valid() && c.View() == LoggedOut(old(c.View()))
  {
    SentSingle(c.View(), LogoutPdu);
    Logout(c);
  }

  /** The requests of full-feature phase. */
  method FullFeatureProcess(c: Connection, req: seq<byte>, reply: Reply)
    requires c.Valid() && c.View().Valid() && Acceptable(c.View(), req) && reply.Valid() && InFullFeature(c.View())
    modifies c`statSn, c`expCmdSn, c.response, c.response.data, c.session`transferTag
    modifies c.session.entry, c.session.entry.data, c.session.target, c.session.target.buffer
    ensures c.Valid() && c.View() == FullFeature(old(c.View()), req, reply)
  {
    var opcode := Opcode(req);
    if opcode == LOGOUT {
      LogoutRequest(c);
    } else if opcode == TEXT {
      TextProcess(c, req);
    } else if c.session.discovery {
      RejectRequest(c, PROTOCOL_ERROR);
    } else if opcode == NOP_OUT {
      NopOutProcess(c, req);
    } else if opcode == SCSI_DATA_OUT {
      DataOutProcess(c, req, reply);
    } else if opcode == SCSI_CMD {
      CmdProcess(c, req, reply);
    } else if opcode == LOGIN {
      RejectRequest(c, PROTOCOL_ERROR);
    } else {
      RejectRequest(c, CMD_NOT_SUPPORTED);
    }
  }

  /** iscsi_server_process on the request at the head of the receive buffer. */
  method Process(c: Connection, req: seq<byte>, reply: Reply) returns (terminate: bool)
    requires c.Valid() && AtHead(c, req) && c.View().Valid() && Acceptable(c.View(), req) && reply.Valid()
    modifies c, c.session, c.session.entry, c.session.entry.data, c.session.target, c.session.target.buffer
    modifies c.parameter, c.parameter.buffer, c.receive.data, c.digits, c.response, c.response.data
    ensures c.Valid() && c.receive.data[..] == old(c.receive.data[..])
    ensures Outcome(c.View(), terminate) == Step(old(c.View()), req, reply)
  {
    GateFrame(c.View(), req);
    var pass := ValidCommandNumbering(c, req);
    if !pass {
      return false;
    }
    terminate := Dispatch(c, req, reply);
  }

  /** A request past the gate. */
  method Dispatch(c: Connection, req: seq<byte>, reply: Reply) returns (terminate: bool)
    requires c.Valid() && AtHead(c, req) && c.View().Valid() && Acceptable(c.View(), req) && reply.Valid()
    modifies c, c.session, c.session.entry, c.session.entry.data, c.session.target, c.session.target.buffer
    modifies c.parameter, c.parameter.buffer, c.receive.data, c.digits, c.response, c.response.data
    ensures c.Valid() && c.receive.data[..] == old(c.receive.data[..])
    ensures Outcome(c.View(), terminate) == Dispatched(old(c.View()), req, reply)
  {
    if c.attached && c.session.fullFeature {
      FullFeatureProcess(c, req, reply);
      return false;
    }
    terminate := EarlyProcess(c, req);
  }

  /** The requests before full-feature phase. */
  method EarlyProcess(c: Connection, req: seq<byte>) returns (terminate: bool)
    requires c.Valid() && AtHead(c, req) && IsFrame(req)
    requires Opcode(req) == LOGIN ==> LoginReadable(c.attached, LoginData(req), req)
    modifies c`attached, c`connectionId, c`statSn, c.session, c.parameter, c.parameter.buffer, c.receive.data
    modifies c.digits, c.response, c.response.data
    ensures c.Valid() && c.receive.data[..] == old(c.receive.data[..])
    ensures Outcome(c.View(), terminate) == Early(old(c.View()), req)
  {
    if Opcode(req) == LOGIN {
      terminate := LoginProcess(c, req);
      return;
    }
    if !c.attached {
      return true;
    }
    LoginReject(c);
    return false;
  }

  /** Blocked: the call waits for room that only the waiting thread could make. */
  datatype Status = Incomplete | Processed | Terminate | Blocked

  /**
   * incoming_request on the objects: the chunk joins the receive buffer, and the PDU at its head, if whole, is served.
   * The error -1 of a chunk longer than the buffer is the value of SOCKET_TERMINATE.
   */
  method IncomingRequest(c: Connection, chunk: seq<byte>, reply: Reply) returns (status: Status)
    requires c.Valid() && c.View().Valid() && reply.Valid()
    requires var b := c.receive.Contents() + chunk;
             |b| <= BUFFER_SIZE && Complete(b) ==> Acceptable(c.View(), b[..FrameLength(b)])
    modifies c, c.session, c.session.entry, c.session.entry.data, c.session.target, c.session.target.buffer
    modifies c.parameter, c.parameter.buffer, c.receive, c.receive.data, c.digits, c.response, c.response.data
    ensures c.Valid() && c.View().Valid()
    ensures var b := old(c.receive.Contents()) + chunk;
            if |b| > BUFFER_SIZE then
              && status == (if |chunk| > BUFFER_SIZE then Terminate else Blocked) && c.View() == old(c.View())
              && c.receive.Contents() == old(c.receive.Contents()) && c.receive.drained == old(c.receive.drained)
            else if Complete(b) then
              var n := FrameLength(b);
              && (status.Processed? || status.Terminate?)
              && Outcome(c.View(), status.Terminate?) == Step(old(c.View()), b[..n], reply)
              && c.receive.Contents() == b[n..] && c.receive.drained == old(c.receive.drained) + b[..n]
            else
              && status.Incomplete? && c.View() == old(c.View())
              && c.receive.Contents() == b && c.receive.drained == old(c.receive.drained)
  {
    ghost var b := c.receive.Contents() + chunk;
    if |chunk| <= BUFFER_SIZE && BUFFER_SIZE - c.receive.length < |chunk| {
      return Blocked;
    }
    var error := c.receive.Receive(chunk);
    if error != 0 {
      return Terminate;
    }
    status := ServeHead(c, b, reply);
  }

  /** The PDU at the head of the receive buffer, if it is whole. */
  method ServeHead(c: Connection, ghost b: seq<byte>, reply: Reply) returns (status: Status)
    requires c.Valid() && c.View().Valid() && reply.Valid() && c.receive.Contents() == b
    requires Complete(b) ==> Acceptable(c.View(), b[..FrameLength(b)])
    modifies c, c.session, c.session.entry, c.session.entry.data, c.session.target, c.session.target.buffer
    modifies c.parameter, c.parameter.buffer, c.receive, c.receive.data, c.digits, c.response, c.response.data
    ensures c.Valid() && c.View().Valid()
    ensures if Complete(b) then
              var n := FrameLength(b);
              && (status.Processed? || status.Terminate?)
              && Outcome(c.View(), status.Terminate?) == Step(old(c.View()), b[..n], reply)
              && c.receive.Contents() == b[n..] && c.receive.drained == old(c.receive.drained) + b[..n]
            else
              && status.Incomplete? && c.View() == old(c.View())
              && c.receive.Contents() == b && c.receive.drained == old(c.receive.drained)
  {
    assert c.receive.data[..c.receive.length] == b;
    if c.receive.length < HEADER || FrameLength(c.receive.data[..c.receive.length]) > c.receive.length {
      return Incomplete;
    }
    var n := FrameLength(c.receive.data[..c.receive.length]);
    var req := c.receive.data[..n];
    assert req == b[..n];
    StepKeepsValid(c.View(), Event(req, reply));
    var terminate := Process(c, req, reply);
    FlushServed(c, b, n);
    return if terminate then Terminate else Processed;
  }

  /** The served PDU leaves the buffer; its length is read again, from the same bytes. */
  method FlushServed(c: Connection, ghost b: seq<byte>, ghost n: nat)
    requires c.Valid() && c.receive.Contents() == b && Complete(b) && n == FrameLength(b)
    modifies c.receive, c.receive.data
    ensures c.Valid() && c.View() == old(c.View())
    ensures c.receive.Contents() == b[n..] && c.receive.drained == old(c.receive.drained) + b[..n]
  {
    c.receive.Flush(FrameLength(c.receive.data[..c.receive.length]));
  }
}
