/** SCSI commands and Data-Out on the objects (request/cmd.c, request/data_in.c, request/data_out.c). */
module Handlers {
  import opened Bytes
  import opened Lookup
  import opened Pdus
  import opened Buffers
  import opened Negotiation
  import opened Model
  import opened ReadPath
  import opened Objects
  import opened Responses

  // One response at a time, or all at once.

  lemma SentNone(st: State)
    requires IsInt(st.conn.statSn)
    ensures Sent(st, []) == st
  {
    AdvanceZero(st.conn.statSn);
    assert st.out + [] == st.out;
  }

  lemma EncodeStampedMore(c: Conn, ps: seq<Pdu>, p: Pdu)
    ensures EncodeAll(Stamped(c, ps + [p])) == EncodeAll(Stamped(c, ps)) + Encode(Stamp(c, p, |ps|))
  {
    assert Stamped(c, ps + [p]) == Stamped(c, ps) + [Stamp(c, p, |ps|)];
    EncodeAllAppend(Stamped(c, ps), [Stamp(c, p, |ps|)]);
    EncodeAllOne(Stamp(c, p, |ps|));
  }

  lemma SentMore(st: State, ps: seq<Pdu>, p: Pdu)
    ensures SentOne(Sent(st, ps), p) == Sent(st, ps + [p])
  {
    AdvanceTwice(st.conn.statSn, |ps|, 1);
    EncodeStampedMore(st.conn, ps, p);
    SentMoreOut(st, ps, p, EncodeAll(Stamped(st.conn, ps)), EncodeAll(Stamped(st.conn, ps + [p])));
  }

  lemma SentMoreOut(st: State, ps: seq<Pdu>, p: Pdu, some: seq<byte>, all: seq<byte>)
    requires all == some + Encode(Stamp(st.conn, p, |ps|))
    ensures st.out + some + Encode(WithNumbers(p, Advance(st.conn.statSn, |ps|), st.conn.expCmdSn)) == st.out + all
  {
    assert WithNumbers(p, Advance(st.conn.statSn, |ps|), st.conn.expCmdSn) == Stamp(st.conn, p, |ps|);
  }

  lemma EncodeAllOne(p: Pdu)
    ensures EncodeAll([p]) == Encode(p)
  {
    assert EncodeAll([p][1..]) == [];
  }

  lemma SentSingle(st: State, p: Pdu)
    requires IsInt(st.conn.statSn)
    ensures SentOne(st, p) == Sent(st, [p])
  {
    SentNone(st);
    SentMore(st, [], p);
    assert [] + [p] == [p];
  }

  method DataInSendOne(c: Connection, taskTag: int, sn: int, offset: int, data: seq<byte>, final: bool)
    requires c.Valid() && HEADER + |data| + 3 <= BUFFER_SIZE
    modifies c`statSn, c.response, c.response.data
    ensures c.Valid() && c.View() == SentOne(old(c.View()), DataInPdu(taskTag, sn, offset, data, final))
  {
    var n := Padded(HEADER + |data|);
    var base := Reserve(c, n);
    ghost var p := DataInPdu(taskTag, sn, offset, data, final);
    FillDataIn(c.response.data, base, n, c.statSn, c.expCmdSn, taskTag, sn, offset, data, final,
               WithNumbers(p, c.statSn, c.expCmdSn));
    Publish(c, base, n, p);
  }

  /** Before round i of k of the loop of iscsi_request_data_in_send. */
  predicate AtRound(n: nat, max: nat, k: nat, i: nat, offset: nat)
  {
    && i <= k && k > 0 && offset <= n
    && if i < k then offset == i * max && (i > 0 ==> offset < n) else offset == n
  }

  lemma NextRound(taskTag: int, data: seq<byte>, n: nat, max: nat, i: nat, offset: nat)
    requires 0 < max && n <= |data| && i < SegmentCount(n, max)
    requires AtRound(n, max, SegmentCount(n, max), i, offset)
    ensures var length := Min(n - offset, max);
            && 0 <= length && AtRound(n, max, SegmentCount(n, max), i + 1, offset + length)
            && DataIns(taskTag, data, n, max)[i]
               == DataInPdu(taskTag, i, offset, data[offset..offset + length], offset + length == n)
  {
    SegmentFields(taskTag, data, n, max, i);
    SegmentBounds(n, max, i);
    if i + 1 < SegmentCount(n, max) {
      SegmentBounds(n, max, i + 1);
    }
  }

  lemma RoundsLeft(n: nat, max: nat, k: nat, i: nat, offset: nat)
    requires AtRound(n, max, k, i, offset)
    ensures i < k <==> i == 0 || offset < n
  {
  }

  method SendNextDataIn(c: Connection, taskTag: int, i: nat, offset: int, data: seq<byte>, final: bool,
                        ghost before: State, ghost ps: seq<Pdu>)
    requires c.Valid() && HEADER + |data| + 3 <= BUFFER_SIZE && i < |ps| && c.View() == Sent(before, ps[..i])
    requires ps[i] == DataInPdu(taskTag, i, offset, data, final)
    modifies c`statSn, c.response, c.response.data
    ensures c.Valid() && c.View() == Sent(before, ps[..i + 1])
  {
    DataInSendOne(c, taskTag, i, offset, data, final);
    SentMore(before, ps[..i], ps[i]);
    assert ps[..i] + [ps[i]] == ps[..i + 1];
  }

  /** One round. */
  method SendSegment(c: Connection, taskTag: int, data: seq<byte>, n: nat, max: nat, i: nat, offset: nat,
                     ghost before: State, ghost ps: seq<Pdu>) returns (next: nat)
    requires c.Valid() && 0 < max <= PARAMETER_BUFFER_SIZE && n <= |data| && ps == DataIns(taskTag, data, n, max)
    requires i < |ps| && AtRound(n, max, |ps|, i, offset) && c.View() == Sent(before, ps[..i])
    modifies c`statSn, c.response, c.response.data
    ensures c.Valid() && AtRound(n, max, |ps|, i + 1, next) && c.View() == Sent(before, ps[..i + 1])
  {
    NextRound(taskTag, data, n, max, i, offset);
    var length := Min(n - offset, max);
    SendNextDataIn(c, taskTag, i, offset, data[offset..offset + length], offset + length == n, before, ps);
    return offset + length;
  }

  /** iscsi_request_data_in_send. */
  method DataInSend(c: Connection, taskTag: int, n: nat)
    requires c.Valid() && IsInt(c.statSn) && n <= MEMORY_SIZE
             && 1 <= c.parameter.values.maxReceive <= PARAMETER_BUFFER_SIZE
    modifies c`statSn, c.response, c.response.data
    ensures c.Valid()
    ensures var st := old(c.View());
            c.View() == Sent(st, DataIns(taskTag, st.target.buffer, n, c.parameter.values.maxReceive))
  {
    SendSegments(c, taskTag, c.session.target.buffer[..], n, c.parameter.values.maxReceive);
  }

  /** The loop of iscsi_request_data_in_send. */
  method SendSegments(c: Connection, taskTag: int, data: seq<byte>, n: nat, max: nat)
    requires c.Valid() && IsInt(c.statSn) && n <= |data| && 0 < max <= PARAMETER_BUFFER_SIZE
    modifies c`statSn, c.response, c.response.data
    ensures c.Valid() && c.View() == Sent(old(c.View()), DataIns(taskTag, data, n, max))
  {
    ghost var before := c.View();
    ghost var ps := DataIns(taskTag, data, n, max);
    var offset: nat := 0;
    var i: nat := 0;
    SentNone(before);
    assert ps[..0] == [];
    while i == 0 || offset < n
      invariant c.Valid() && AtRound(n, max, |ps|, i, offset) && c.View() == Sent(before, ps[..i])
      decreases |ps| - i
    {
      RoundsLeft(n, max, |ps|, i, offset);
      offset := SendSegment(c, taskTag, data, n, max, i, offset, before, ps);
      i := i + 1;
    }
    RoundsLeft(n, max, |ps|, i, offset);
    assert ps[..i] == ps;
  }

  // One round of the R2T loop, then the loop.

  method SendNextR2t(c: Connection, taskTag: int, tag: int, i: nat, nextOffset: int, max: int, total: int,
                     ghost before: State, ghost ps: seq<Pdu>)
    requires c.Valid() && i < |ps| && c.View() == Sent(before, ps[..i])
    requires ps[i] == R2tPdu(taskTag, tag, Range(i, nextOffset, Min(max, total - nextOffset)))
    modifies c`statSn, c.response, c.response.data
    ensures c.Valid() && c.View() == Sent(before, ps[..i + 1])
  {
    R2tSend(c, taskTag, tag, i, nextOffset, Min(max, total - nextOffset));
    SentMore(before, ps[..i], ps[i]);
    assert ps[..i] + [ps[i]] == ps[..i + 1];
  }

  lemma R2tAt(taskTag: int, tag: int, k: nat, start: int, max: int, total: int, i: nat, nextOffset: int)
    requires i < k && nextOffset == start + i * max
    ensures R2tPdus(taskTag, tag, Plan(k, start, max, total))[i]
            == R2tPdu(taskTag, tag, Range(i, nextOffset, Min(max, total - nextOffset)))
    ensures nextOffset + max == start + (i + 1) * max
  {
  }

  /** The loop of iscsi_request_cmd_process: k R2Ts from `start` on. */
  method SendR2ts(c: Connection, taskTag: int, tag: int, k: nat, start: int, max: int, total: int, ghost ps: seq<Pdu>)
    requires c.Valid() && IsInt(c.statSn) && ps == R2tPdus(taskTag, tag, Plan(k, start, max, total))
    modifies c`statSn, c.response, c.response.data
    ensures c.Valid() && c.View() == Sent(old(c.View()), ps)
  {
    ghost var before := c.View();
    var nextOffset := start;
    SentNone(before);
    assert ps[..0] == [] && 0 * max == 0;
    for i := 0 to k
      invariant c.Valid() && nextOffset == start + i * max && c.View() == Sent(before, ps[..i])
    {
      R2tAt(taskTag, tag, k, start, max, total, i, nextOffset);
      SendNextR2t(c, taskTag, tag, i, nextOffset, max, total, before, ps);
      nextOffset := nextOffset + max;
    }
    assert ps[..k] == ps;
  }

  method SetUpEntry(c: Connection, req: seq<byte>, ghost e: Model.Entry)
    requires c.Valid() && |req| >= HEADER && 0 <= ExpectedLength(req) <= MEMORY_SIZE
    requires e == c.View().session.entry.(cdb := Cdb(req), total := ExpectedLength(req), tag := c.session.transferTag)
    modifies c.session.entry
    ensures c.Valid() && c.View() == old(c.View()).(session := old(c.View()).session.(entry := e))
  {
    c.session.entry.Create(Cdb(req), ExpectedLength(req), c.session.transferTag);
  }

  /** The branch of iscsi_request_cmd_process that starts a write. */
  method BeginWrite(c: Connection, req: seq<byte>)
    requires c.Valid() && IsInt(c.statSn) && |req| >= HEADER && NeedsR2t(req) && ExpectedLength(req) <= MEMORY_SIZE
    requires c.parameter.values.maxReceive >= 1
    modifies c`statSn, c.response, c.response.data, c.session.entry
    ensures c.Valid() && c.View() == WriteBegun(old(c.View()), req)
  {
    ghost var st := c.View();
    var p := c.parameter.values;
    var bytesLeft := ExpectedLength(req) - DataLength(req);
    var nextOffset: int := DataLength(req);
    if !p.initialR2t {
      var first := Min(p.firstBurst, ExpectedLength(req)) - DataLength(req);
      bytesLeft := bytesLeft - first;
      nextOffset := nextOffset + first;
    }
    var totalR2t := DivideRoundUp(bytesLeft, p.maxReceive);
    var outgoing := Max(0, Min(p.maxOutstandingR2t, totalR2t));
    ghost var e := st.session.entry.(cdb := Cdb(req), total := ExpectedLength(req), tag := st.session.transferTag);
    ghost var ps := R2tPdus(TaskTag(req), st.session.transferTag, PlanOf(p, req));
    SetUpEntry(c, req, e);
    SendR2ts(c, TaskTag(req), c.session.transferTag, outgoing, nextOffset, p.maxReceive, ExpectedLength(req), ps);
  }

  method ExecuteNow(c: Connection, cdb: seq<byte>, reply: Reply, ghost t: Model.Target)
    requires c.Valid() && reply.Valid() && t == Executed(c.View().target, cdb, None, reply)
    modifies c.session.target, c.session.target.buffer
    ensures c.Valid() && c.View() == old(c.View()).(target := t)
  {
    c.session.target.Execute(cdb, None, reply);
  }

  method Respond(c: Connection, taskTag: int)
    requires c.Valid() && IsInt(c.statSn)
    modifies c`statSn, c.response, c.response.data
    ensures c.Valid() && c.View() == Sent(old(c.View()), [CmdResponse(taskTag, old(c.View()).target)])
  {
    SentSingle(c.View(), CmdResponse(taskTag, c.session.target.View()));
    CmdSendResponse(c, taskTag);
  }

  method Report(c: Connection, req: seq<byte>)
    requires c.Valid() && IsInt(c.statSn) && |req| >= HEADER && (IsRead(req) ==> 0 <= ExpectedLength(req))
    requires 1 <= c.parameter.values.maxReceive <= PARAMETER_BUFFER_SIZE
    modifies c`statSn, c.response, c.response.data
    ensures c.Valid() && c.View() == Reported(old(c.View()), req)
  {
    if IsRead(req) {
      DataInSend(c, TaskTag(req), Min(ExpectedLength(req), MEMORY_SIZE - c.session.target.resid));
    } else {
      Respond(c, TaskTag(req));
    }
  }

  method Count(c: Connection)
    requires c.Valid()
    modifies c`expCmdSn, c.session`transferTag
    ensures c.Valid() && c.View() == Counted(old(c.View()))
  {
    c.expCmdSn := Advance(c.expCmdSn, 1);
    var tag := c.session.NextTransferTag();
  }

  /** iscsi_request_cmd_process. */
  method CmdProcess(c: Connection, req: seq<byte>, reply: Reply)
    requires c.Valid() && |req| >= HEADER && LengthInRange(req) && reply.Valid() && IsInt(c.statSn)
    requires 1 <= c.parameter.values.maxReceive <= PARAMETER_BUFFER_SIZE
    modifies c`statSn, c`expCmdSn, c.response, c.response.data
    modifies c.session`transferTag, c.session.entry, c.session.target, c.session.target.buffer
    ensures c.Valid() && c.View() == Cmd(old(c.View()), req, reply)
  {
    ghost var t := Executed(c.View().target, Cdb(req), None, reply);
    Count(c);
    if IsWrite(req) && DataLength(req) < ExpectedLength(req) {
      BeginWrite(c, req);
    } else {
      ExecuteNow(c, Cdb(req), reply, t);
      Report(c, req);
    }
  }

  method StoreSegment(c: Connection, at: nat, bytes: seq<byte>, ghost e: Model.Entry)
    requires c.Valid() && at + |bytes| <= MEMORY_SIZE
    requires e == c.View().session.entry.(data := Patch(c.View().session.entry.data, at, bytes))
    modifies c.session.entry.data
    ensures c.Valid() && c.View() == old(c.View()).(session := old(c.View()).session.(entry := e))
  {
    c.session.entry.Store(at, bytes);
  }

  method ExecuteStored(c: Connection, reply: Reply, ghost t: Model.Target)
    requires c.Valid() && reply.Valid() && t == ExecutedEntry(c.View().target, c.View().session.entry, reply)
    modifies c.session.target, c.session.target.buffer
    ensures c.Valid() && c.View() == old(c.View()).(target := t)
  {
    c.session.ExecuteTransferEntry(reply);
  }

  method FinishTransfer(c: Connection, req: seq<byte>, reply: Reply)
    requires c.Valid() && c.View().Valid() && |req| >= HEADER && reply.Valid()
    modifies c`statSn, c.response, c.response.data, c.session.target, c.session.target.buffer
    ensures c.Valid() && c.View() == Completed(old(c.View()), req, reply)
  {
    ExecuteStored(c, reply, ExecutedEntry(c.View().target, c.View().session.entry, reply));
    Respond(c, TaskTag(req));
  }

  method SendFollowUp(c: Connection, req: seq<byte>)
    requires c.Valid() && IsInt(c.statSn) && |req| >= HEADER
    modifies c`statSn, c.response, c.response.data, c.session.entry
    ensures c.Valid() && c.View() == FollowedUp(old(c.View()), req)
  {
    var entry := c.session.entry;
    var next := Int32(entry.offset * entry.r2tSn);
    var length := Min(c.parameter.values.maxReceive, entry.total - next);
    SentSingle(c.View(), R2tPdu(TaskTag(req), TransferTag(req), Range(entry.r2tSn, next, length)));
    R2tSend(c, TaskTag(req), TransferTag(req), entry.r2tSn, next, length);
    entry.r2tSn := Advance(entry.r2tSn, 1);
  }

  /** What a Data-Out leads to once its data is in the entry: the execution, one more R2T, or nothing yet. */
  method AfterStoring(c: Connection, req: seq<byte>, reply: Reply, offset: nat)
    requires c.Valid() && c.View().Valid() && |req| >= HEADER && reply.Valid() && offset == BufferOffset(req)
    modifies c`statSn, c.response, c.response.data, c.session.entry, c.session.target, c.session.target.buffer
    ensures c.Valid() && c.View() == AfterStored(old(c.View()), req, reply)
  {
    var entry := c.session.entry;
    if offset + DataLength(req) == entry.total {
      FinishTransfer(c, req, reply);
    } else if Final(req) && entry.r2tSn < entry.totalR2tSn {
      SendFollowUp(c, req);
    }
  }

  /** iscsi_request_data_out_process. */
  method DataOutProcess(c: Connection, req: seq<byte>, reply: Reply)
    requires c.Valid() && c.View().Valid() && |req| >= HEADER && reply.Valid()
    requires 0 <= BufferOffset(req) && BufferOffset(req) + |Segment(req)| <= MEMORY_SIZE
    modifies c`statSn, c.response, c.response.data
    modifies c.session.entry, c.session.entry.data, c.session.target, c.session.target.buffer
    ensures c.Valid() && c.View() == DataOut(old(c.View()), req, reply)
  {
    var entry := c.session.entry;
    if TransferTag(req) == DEFAULT_TAG || entry.tag != TransferTag(req) {
      return;
    }
    var offset := BufferOffset(req);
    StoreSegment(c, offset, Segment(req), Stored(c.View().session.entry, req));
    AfterStoring(c, req, reply, offset);
  }
}
