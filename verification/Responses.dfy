/** The response builders: a region of the response buffer is reserved, filled in place and published. */
module Responses {
  import opened Bytes
  import opened Pdus
  import opened Buffers
  import opened Model
  import opened Fields
  import opened Objects

  /** Reserves a cleared region. How much the transmitter drains meanwhile is its own business. */
  method Reserve(c: Connection, n: nat) returns (base: nat)
    requires c.Valid() && HEADER <= n <= BUFFER_SIZE
    modifies c.response, c.response.data
    ensures c.Valid() && c.View() == old(c.View())
    ensures base == c.response.length && base + n <= BUFFER_SIZE && Holds(c.response.data, base, n, BLANK)
  {
    var length := c.response.length;
    var drain: nat :| drain <= length && length - drain + n <= BUFFER_SIZE;
    base := c.response.AcquireLockForLength(n, drain);
    BlankImage(n);
  }

  /** One response in the common layout, numbered. */
  function SentOne(st: State, p: Pdu): State
  {
    st.(out := st.out + Encode(WithNumbers(p, st.conn.statSn, st.conn.expCmdSn)),
        conn := st.conn.(statSn := Advance(st.conn.statSn, 1)))
  }

  function WithNumbers(p: Pdu, statSn: int, expCmdSn: int): Pdu
  {
    p.(statSn := statSn, expCmdSn := expCmdSn, maxCmdSn := expCmdSn)
  }

  /** Publishes a filled region; the StatSN in it is used up. */
  method Publish(c: Connection, base: nat, n: nat, ghost p: Pdu)
    requires c.Valid() && base == c.response.length && base + n <= BUFFER_SIZE
    requires Holds(c.response.data, base, n, WithNumbers(p, c.statSn, c.expCmdSn)) && n == Padded(HEADER + |p.data|)
    modifies c`statSn, c.response
    ensures c.Valid() && c.View() == SentOne(old(c.View()), p)
  {
    ImageIsEncoding(WithNumbers(p, c.statSn, c.expCmdSn));
    c.response.ReleaseLock(n);
    c.statSn := Advance(c.statSn, 1);
  }

  /** iscsi_pdu_set_response_header, but for the step of StatSN, which Publish takes. */
  method SetNumbers(a: array<byte>, base: nat, ghost n: nat, ghost p: Pdu, statSn: int, expCmdSn: int)
    returns (ghost q: Pdu)
    requires Holds(a, base, n, p)
    modifies a
    ensures q == WithNumbers(p, statSn, expCmdSn) && Holds(a, base, n, q) && a[..base] == old(a[..base])
  {
    q := SetWord(a, base, n, p, 2, statSn);
    q := SetWord(a, base, n, q, 3, expCmdSn);
    q := SetWord(a, base, n, q, 4, expCmdSn);
  }

  method FillR2t(a: array<byte>, base: nat, statSn: int, expCmdSn: int,
                 taskTag: int, tag: int, sn: int, offset: int, length: int, ghost r: Pdu)
    requires Holds(a, base, HEADER, BLANK)
    requires r == WithNumbers(R2tPdu(taskTag, tag, Range(sn, offset, length)), statSn, expCmdSn)
    modifies a
    ensures Holds(a, base, HEADER, r)
    ensures a[..base] == old(a[..base])
  {
    ghost var p := SetOpcode(a, base, HEADER, BLANK, R2T);
    p := SetFlag(a, base, HEADER, p, 0, true);
    p := SetDataSegment(a, base, HEADER, p, []);
    p := SetWord(a, base, HEADER, p, 0, taskTag);
    p := SetWord(a, base, HEADER, p, 1, tag);
    p := SetNumbers(a, base, HEADER, p, statSn, expCmdSn);
    p := SetWord(a, base, HEADER, p, 5, sn);
    p := SetWord(a, base, HEADER, p, 6, offset);
    p := SetWord(a, base, HEADER, p, 7, length);
    assert p == r;
  }

  /** iscsi_request_r2t_send. */
  method R2tSend(c: Connection, taskTag: int, tag: int, sn: int, offset: int, length: int)
    requires c.Valid()
    modifies c`statSn, c.response, c.response.data
    ensures c.Valid() && c.View() == SentOne(old(c.View()), R2tPdu(taskTag, tag, Range(sn, offset, length)))
  {
    var base := Reserve(c, HEADER);
    ghost var p := R2tPdu(taskTag, tag, Range(sn, offset, length));
    FillR2t(c.response.data, base, c.statSn, c.expCmdSn, taskTag, tag, sn, offset, length,
            WithNumbers(p, c.statSn, c.expCmdSn));
    Publish(c, base, HEADER, p);
  }

  /** The F, A and S bits and the status of a Data-In. */
  method SetDataInFlags(a: array<byte>, base: nat, ghost n: nat, final: bool) returns (ghost q: Pdu)
    requires Holds(a, base, n, BLANK)
    modifies a
    ensures q == BLANK.(opcode := SCSI_DATA_IN, flags := if final then 129 else 1)
    ensures Holds(a, base, n, q) && a[..base] == old(a[..base])
  {
    DataInFlags(final);
    q := SetOpcode(a, base, n, BLANK, SCSI_DATA_IN);
    q := SetFlag(a, base, n, q, 0, final);
    q := SetFlag(a, base, n, q, 1, false);
    q := SetFlag(a, base, n, q, 7, true);
    q := SetByte(a, base, n, q, 3, 0);
  }

  lemma DataInFlags(final: bool)
    ensures WithBit(WithBit(WithBit(0, 0, final), 1, false), 7, true) == if final then 129 else 1
  {
  }

  method FillDataIn(a: array<byte>, base: nat, n: nat, statSn: int, expCmdSn: int,
                    taskTag: int, sn: int, offset: int, data: seq<byte>, final: bool, ghost r: Pdu)
    requires n == Padded(HEADER + |data|) && Holds(a, base, n, BLANK)
    requires r == WithNumbers(DataInPdu(taskTag, sn, offset, data, final), statSn, expCmdSn)
    modifies a
    ensures Holds(a, base, n, r)
    ensures a[..base] == old(a[..base])
  {
    ghost var p := SetDataInFlags(a, base, n, final);
    p := SetWord(a, base, n, p, 0, taskTag);
    p := SetWord(a, base, n, p, 1, DEFAULT_TAG);
    p := SetNumbers(a, base, n, p, statSn, expCmdSn);
    p := SetWord(a, base, n, p, 5, sn);
    p := SetWord(a, base, n, p, 6, offset);
    p := SetDataSegment(a, base, n, p, data);
    assert p == r;
    Pad0(a, base, n, p, HEADER + |data|);
  }

  method FillCmdResponse(a: array<byte>, base: nat, n: nat, statSn: int, expCmdSn: int,
                         taskTag: int, response: byte, status: byte, sense: seq<byte>,
                         ghost t: Model.Target, ghost r: Pdu)
    requires n == Padded(HEADER + 2 + |sense|) && Holds(a, base, n, BLANK)
    requires response == t.response && status == t.status && sense == t.sense
    requires r == WithNumbers(CmdResponse(taskTag, t), statSn, expCmdSn)
    modifies a
    ensures Holds(a, base, n, r)
    ensures a[..base] == old(a[..base])
  {
    ghost var p := SetOpcode(a, base, n, BLANK, SCSI_CMD_RES);
    p := SetFlag(a, base, n, p, 0, true);
    p := SetByte(a, base, n, p, 2, response);
    p := SetByte(a, base, n, p, 3, status);
    p := SetWord(a, base, n, p, 0, taskTag);
    p := SetDataSegment(a, base, n, p, Int16Bytes(|sense|) + sense);
    p := SetNumbers(a, base, n, p, statSn, expCmdSn);
    assert p == r;
  }

  /** iscsi_request_cmd_send_response. */
  method CmdSendResponse(c: Connection, taskTag: int)
    requires c.Valid()
    modifies c`statSn, c.response, c.response.data
    ensures c.Valid() && c.View() == SentOne(old(c.View()), CmdResponse(taskTag, old(c.View()).target))
  {
    var t := c.session.target;
    var n := Padded(HEADER + 2 + |t.sense|);
    var base := Reserve(c, n);
    ghost var p := CmdResponse(taskTag, t.View());
    FillCmdResponse(c.response.data, base, n, c.statSn, c.expCmdSn, taskTag, t.response, t.status, t.sense,
                    t.View(), WithNumbers(p, c.statSn, c.expCmdSn));
    Publish(c, base, n, p);
  }

  method FillReject(a: array<byte>, base: nat, n: nat, statSn: int, expCmdSn: int, reason: byte, data: seq<byte>,
                    ghost r: Pdu)
    requires n == Padded(HEADER + |data|) && Holds(a, base, n, BLANK)
    requires r == WithNumbers(RejectPdu(reason, data), statSn, expCmdSn)
    modifies a
    ensures Holds(a, base, n, r) && a[..base] == old(a[..base])
  {
    ghost var p := SetOpcode(a, base, n, BLANK, REJECT);
    p := SetFlag(a, base, n, p, 0, true);
    p := SetNumbers(a, base, n, p, statSn, expCmdSn);
    p := SetByte(a, base, n, p, 2, reason);
    p := SetWord(a, base, n, p, 0, -1);
    p := SetDataSegment(a, base, n, p, data);
    assert p == r;
    Pad0(a, base, n, p, HEADER + |data|);
  }

  /** iscsi_request_reject. */
  method Reject(c: Connection, reason: byte, data: seq<byte>)
    requires c.Valid() && Padded(HEADER + |data|) <= BUFFER_SIZE
    modifies c`statSn, c.response, c.response.data
    ensures c.Valid() && c.View() == SentOne(old(c.View()), RejectPdu(reason, data))
  {
    var n := Padded(HEADER + |data|);
    var base := Reserve(c, n);
    ghost var p := RejectPdu(reason, data);
    FillReject(c.response.data, base, n, c.statSn, c.expCmdSn, reason, data, WithNumbers(p, c.statSn, c.expCmdSn));
    Publish(c, base, n, p);
  }

  method FillLogout(a: array<byte>, base: nat, statSn: int, expCmdSn: int, ghost r: Pdu)
    requires Holds(a, base, HEADER, BLANK)
    requires r == WithNumbers(LogoutPdu, statSn, expCmdSn)
    modifies a
    ensures Holds(a, base, HEADER, r) && a[..base] == old(a[..base])
  {
    ghost var p := SetOpcode(a, base, HEADER, BLANK, LOGOUT_RES);
    p := SetFlag(a, base, HEADER, p, 0, true);
    p := SetNumbers(a, base, HEADER, p, statSn, expCmdSn);
    p := SetByte(a, base, HEADER, p, 2, 0);
    p := SetWord(a, base, HEADER, p, 6, 0);
    assert p == r;
  }

  /** iscsi_request_logout_process, in a session. */
  method Logout(c: Connection)
    requires c.Valid()
    modifies c`statSn, c.response, c.response.data
    ensures c.Valid() && c.View() == SentOne(old(c.View()), LogoutPdu)
  {
    var base := Reserve(c, HEADER);
    FillLogout(c.response.data, base, c.statSn, c.expCmdSn, WithNumbers(LogoutPdu, c.statSn, c.expCmdSn));
    Publish(c, base, HEADER, LogoutPdu);
  }
}
