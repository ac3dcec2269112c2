/** What the initiator is told of a command that has run (request/cmd.c:43-65, 145; request/data_out.c:47-59). */
module Reporting {
  import opened Bytes
  import opened Lookup
  import opened Pdus
  import opened Model
  import opened Runs
  import opened ReadPath
  import opened Transfers
  import opened EndToEndWrite
  import opened Tags

  /** A SCSI response to the request that carries the device's own answer. */
  predicate ResponseTo(p: Pdu, req: Header, reply: Reply)
  {
    && p.opcode == 0x21 && p.flags == 0x80 && p.taskTag == Int32At(req, 16)
    && match reply
       case Failed => p.byte2 == 1 && p.byte3 == 0 && p.data == [0, 0]
       case Done(_, _, status, sense) => p.byte2 == 0 && p.byte3 == status && p.data == [0, |sense|] + sense
  }

  /** From s to t one response is sent, and nothing else. */
  predicate OneResponse(s: State, t: State, req: Header, reply: Reply)
  {
    var bytes := Appended(s, t);
    && s.out <= t.out && Rest(bytes) == [] && |Parse(bytes)| == 1 && ResponseTo(Parse(bytes)[0], req, reply)
  }

  lemma OneSent(c: State, p: Pdu)
    requires p.Valid() && IsInt(c.conn.expCmdSn)
    ensures var t := Sent(c, [p]);
            && c.out <= t.out && Rest(Appended(c, t)) == []
            && |Parse(Appended(c, t))| == 1 && Parse(Appended(c, t))[0] == Stamp(c.conn, p, 0)
  {
    SentParses(c, [p]);
  }

  /** The fields of the target after a command. */
  predicate Reports(t: Target, reply: Reply)
  {
    match reply
    case Failed => t.response == 1 && t.status == 0 && t.sense == []
    case Done(_, _, status, sense) => t.response == 0 && t.status == status && t.sense == sense
  }

  lemma ExecutedReported(s: Target, cdb: seq<byte>, x: Option<int>, reply: Reply)
    ensures var t := Executed(s, cdb, x, reply);
            Reports(t, reply) && t.buffer == BufferAfter(s.buffer, reply)
  {
  }

  lemma ResponseFields(c: Conn, t: Target, req: Header, reply: Reply)
    requires Reports(t, reply) && reply.Valid()
    ensures CmdResponse(TaskTag(req), t).Valid()
    ensures ResponseTo(Stamp(c, CmdResponse(TaskTag(req), t), 0), req, reply)
  {
    assert Int16Bytes(|t.sense|) == [0, |t.sense|];
  }

  lemma ResponseSent(c: State, t: Target, req: Header, reply: Reply)
    requires IsInt(c.conn.expCmdSn) && reply.Valid() && Reports(t, reply)
    ensures OneResponse(c, Sent(c, [CmdResponse(TaskTag(req), t)]), req, reply)
  {
    ResponseFields(c.conn, t, req, reply);
    OneSent(c, CmdResponse(TaskTag(req), t));
  }

  lemma SameBytes(s: State, c: State, t: State, req: Header, reply: Reply)
    requires OneResponse(c, t, req, reply) && s.out == c.out
    ensures OneResponse(s, t, req, reply)
  {
  }

  lemma CompletedReports(s: State, req: Header, reply: Reply)
    requires s.Valid() && reply.Valid()
    ensures OneResponse(s, Completed(s, req, reply), req, reply)
    ensures var t := Completed(s, req, reply).target;
            t.log != [] && t.buffer == BufferAfter(t.log[|t.log| - 1].buffer, reply)
  {
    var e := s.session.entry;
    var before := s.target.(buffer := Patch(s.target.buffer, 0, e.data[..e.total]));
    var t := Executed(before, e.cdb, Some(e.tag), reply);
    ExecutedReported(before, e.cdb, Some(e.tag), reply);
    ResponseSent(s.(target := t), t, req, reply);
    SameBytes(s, s.(target := t), Completed(s, req, reply), req, reply);
  }

  /** The Data-Out that ends a write is answered by one SCSI response with the device's answer; no other one is. */
  lemma AnswerIsReported(st: State, w: Write, e: Event)
    requires InProgress(st, w) && StepOk(st, e) && Answer(e, w)
    ensures var t := Step(st, e.request, e.reply).state;
            if Last(e, w) then
              && OneResponse(st, t, e.request, e.reply)
              && t.target.log != [] && t.target.buffer == BufferAfter(t.target.log[|t.target.log| - 1].buffer, e.reply)
            else t.out == st.out
  {
    GatePasses(st, w, e);
    var g := st.(session := Gate(st, e.request).1);
    AnswerInFullFeature(g, w, e);
    if Last(e, w) {
      var s := g.(session := g.session.(entry := Stored(g.session.entry, e.request)));
      StoredFrame(g, e.request);
      LastCompletes(g, w, e);
      CompletedReports(s, e.request, e.reply);
      SameBytes(st, s, Completed(s, e.request, e.reply), e.request, e.reply);
    }
  }

  lemma LastCompletes(g: State, w: Write, e: Event)
    requires InProgress(g, w) && StepOk(g, e) && Last(e, w)
    ensures var s := g.(session := g.session.(entry := Stored(g.session.entry, e.request)));
            s.Valid() && FullFeature(g, e.request, e.reply) == Completed(s, e.request, e.reply)
  {
    FrameHasSegment(e.request);
    StoredFrame(g, e.request);
  }

  /** The i-th event after the command: one response if it is the last answer, nothing if it is another answer. */
  predicate ReportedAt(t: State, w: Write, es: seq<Event>, i: nat, m: nat)
    requires i < |es|
  {
    && Admissible(t, es[..i]) && StepOk(Run(t, es[..i]), es[i])
    && var s := Run(t, es[..i]);
       var u := Step(s, es[i].request, es[i].reply).state;
       if i == m then OneResponse(s, u, es[i].request, es[i].reply) else u.out == s.out
  }

  lemma PrefixInProgress(t: State, w: Write, es: seq<Event>, i: nat)
    requires InProgress(t, w) && Admissible(t, es) && AllFit(es, w) && i < |es|
    ensures Admissible(t, es[..i]) && InProgress(Run(t, es[..i]), w) && StepOk(Run(t, es[..i]), es[i])
  {
    SplitRun(t, es, i);
    AllFitPrefix(es, w, i);
    StaysInProgress(t, w, es[..i]);
    assert es[i..][0] == es[i];
  }

  lemma AllFitPrefix(es: seq<Event>, w: Write, i: nat)
    requires AllFit(es, w) && i <= |es|
    ensures AllFit(es[..i], w)
  {
  }

  lemma {:induction false} StaysInProgress(t: State, w: Write, es: seq<Event>)
    requires InProgress(t, w) && Admissible(t, es) && AllFit(es, w)
    ensures InProgress(Run(t, es), w)
    decreases |es|
  {
    if es != [] {
      var u := Step(t, es[0].request, es[0].reply).state;
      if Answer(es[0], w) {
        AnswerStep(t, w, es[0], 0);
      } else {
        BystanderStep(t, w, es[0], 0);
      }
      StaysInProgress(u, w, es[1..]);
    }
  }

  /**
   * A completed write is answered. In an exchange for a write all of whose R2Ts may be outstanding, the last answer
   * sends exactly one SCSI response, with its task tag and the device's answer to the command; no other answer sends
   * anything.
   */
  lemma WriteIsReported(st: State, cmd: Event, data: seq<byte>, sn: int, es: seq<Event>) returns (m: nat)
    requires Exchange(st, cmd, data, sn, es) && Allowed(st, cmd)
    ensures var t, w := Started(st, cmd), WriteOf(st, cmd, data, sn);
            && m < |es| && Last(es[m], w)
            && forall i :: 0 <= i < |es| && Answer(es[i], w) ==> ReportedAt(t, w, es, i, m)
  {
    var t, w := Started(st, cmd), WriteOf(st, cmd, data, sn);
    ExchangeBegins(st, cmd, data, sn, es, t, w);
    m := OnlyLast(st, cmd, data, sn, es);
    forall i | 0 <= i < |es| && Answer(es[i], w) ensures ReportedAt(t, w, es, i, m) {
      PrefixInProgress(t, w, es, i);
      AnswerIsReported(Run(t, es[..i]), w, es[i]);
    }
  }

  /** One answer ends the transfer. */
  lemma OnlyLast(st: State, cmd: Event, data: seq<byte>, sn: int, es: seq<Event>) returns (m: nat)
    requires Exchange(st, cmd, data, sn, es) && Allowed(st, cmd)
    ensures var w := WriteOf(st, cmd, data, sn);
            m < |es| && Last(es[m], w) && forall i :: 0 <= i < |es| && Last(es[i], w) ==> i == m
  {
    var t, w := Started(st, cmd), WriteOf(st, cmd, data, sn);
    ExchangeBegins(st, cmd, data, sn, es, t, w);
    WholePlanContiguous(st.conn.params, cmd.request);
    AnsweringIsContiguous(Answers(es, w), PlanOf(st.conn.params, cmd.request), DataLength(cmd.request), w.total);
    m := FindFinalAnswer(es, w, DataLength(cmd.request));
  }

  /** A command that neither reads nor asks for data: one response, at once, and the device buffer it leaves. */
  lemma CommandIsReported(st: State, e: Event)
    requires Normal(st) && StepOk(st, e) && Opcode(e.request) == SCSI_CMD
    requires !IsRead(e.request) && !NeedsR2t(e.request)
    ensures var t := Step(st, e.request, e.reply).state;
            OneResponse(st, t, e.request, e.reply) && t.target.buffer == BufferAfter(st.target.buffer, e.reply)
  {
    var t := Executed(st.target, Cdb(e.request), None, e.reply);
    var c := Counted(st).(target := t);
    CommandStep(st, e, Step(st, e.request, e.reply));
    ExecutedReported(st.target, Cdb(e.request), None, e.reply);
    ResponseSent(c, t, e.request, e.reply);
    assert Cmd(st, e.request, e.reply) == Sent(c, [CmdResponse(TaskTag(e.request), t)]);
    SameBytes(st, c, Cmd(st, e.request, e.reply), e.request, e.reply);
  }

  /** The R2Ts of a write, field by field. */
  predicate R2tsFor(ps: seq<Pdu>, req: Header, tag: int, k: nat, max: int)
  {
    && |ps| == k
    && forall i :: 0 <= i < |ps| ==>
         && ps[i].opcode == 0x31 && ps[i].flags == 0x80 && ps[i].data == []
         && ps[i].taskTag == Int32At(req, 16) && ps[i].transferTag == tag
         && ps[i].word36 == i && ps[i].word40 == DataLength(req) + i * max
         && ps[i].word44 == Min(max, ExpectedLength(req) - (DataLength(req) + i * max))
  }

  /** What the initiator reads of a write command with R2Ts. */
  lemma R2tsOnTheWire(st: State, e: Event)
    requires Normal(st) && StepOk(st, e) && Opcode(e.request) == SCSI_CMD && NeedsR2t(e.request)
    ensures var t := Step(st, e.request, e.reply).state;
            var max := st.conn.params.maxReceive;
            var full := DivideRoundUp(ExpectedLength(e.request) - DataLength(e.request), max);
            && st.out <= t.out && Rest(Appended(st, t)) == []
            && R2tsFor(Parse(Appended(st, t)), e.request, Advance(st.session.transferTag, 1),
                       Max(0, Min(st.conn.params.maxOutstandingR2t, full)), max)
  {
    CommandStep(st, e, Step(st, e.request, e.reply));
    R2tsOfCommand(st, e.request, e.reply);
  }

  lemma R2tsOfCommand(st: State, req: Header, reply: Reply)
    requires Normal(st) && Acceptable(st, req) && reply.Valid() && Opcode(req) == SCSI_CMD && NeedsR2t(req)
    ensures var t, p := Cmd(st, req, reply), st.conn.params;
            && st.out <= t.out && Rest(Appended(st, t)) == []
            && R2tsFor(Parse(Appended(st, t)), req, Advance(st.session.transferTag, 1), R2tCount(p, req), p.maxReceive)
  {
    var c := Counted(st);
    var tag := c.session.transferTag;
    var e := c.session.entry.(cdb := Cdb(req), total := ExpectedLength(req), tag := tag);
    var s := c.(session := c.session.(entry := e));
    var p := st.conn.params;
    var ps := R2tPdus(TaskTag(req), tag, PlanOf(p, req));
    R2tsValid(p, TaskTag(req), tag, req);
    SentParses(s, ps);
    assert Cmd(st, req, reply) == Sent(s, ps);
    R2tFields(s.conn, req, tag, R2tCount(p, req), p.maxReceive);
  }

  lemma R2tFields(c: Conn, req: Header, tag: int, k: nat, max: int)
    ensures var rs := Plan(k, DataLength(req), max, ExpectedLength(req));
            R2tsFor(Stamped(c, R2tPdus(TaskTag(req), tag, rs)), req, tag, k, max)
  {
  }

  /** A Data-Out in the middle of a transfer that is due another R2T, which no run of a fresh process ever is. */
  predicate DueAnother(st: State, e: Event)
  {
    var entry := st.session.entry;
    && Normal(st) && StepOk(st, e) && Opcode(e.request) == 0x05 && Gate(st, e.request).0
    && TransferTag(e.request) == entry.tag != -1 && BufferOffset(e.request) + DataLength(e.request) != entry.total
    && e.request[1] >= 128 && entry.r2tSn < entry.totalR2tSn && IsInt(entry.r2tSn)
  }

  /** The bytes are one R2T for the entry: its number, at that multiple of its offset. */
  predicate NextR2t(bytes: seq<byte>, req: Header, sn: int, next: int, length: int)
  {
    && Rest(bytes) == [] && |Parse(bytes)| == 1
    && var p := Parse(bytes)[0];
       && p.opcode == 0x31 && p.flags == 0x80 && p.taskTag == Int32At(req, 16) && p.transferTag == Int32At(req, 20)
       && p.word36 == sn && p.word40 == next && p.word44 == length
  }

  /** From s to t the R2T of entry number sn is sent, for what lies from next on, and counted. */
  predicate FollowsUp(s: State, t: State, req: Header, next: int)
  {
    var sn, length := s.session.entry.r2tSn, Min(s.conn.params.maxReceive, s.session.entry.total - next);
    && s.out <= t.out && t.target == s.target && t.session.entry.r2tSn == Int32(sn + 1)
    && NextR2t(Appended(s, t), req, sn, next, length)
  }

  lemma FollowsUpFrom(st: State, s: State, t: State, req: Header, next: int)
    requires FollowsUp(s, t, req, next) && s.out == st.out && s.target == st.target && s.conn == st.conn
    requires s.session.entry.r2tSn == st.session.entry.r2tSn && s.session.entry.total == st.session.entry.total
    ensures FollowsUp(st, t, req, next)
  {
    assert Appended(s, t) == Appended(st, t);
  }

  /** It is answered by the next R2T, which is counted. */
  lemma FollowUpOnTheWire(st: State, e: Event, next: int)
    requires DueAnother(st, e) && next == Int32(st.session.entry.offset * st.session.entry.r2tSn)
    ensures FollowsUp(st, Step(st, e.request, e.reply).state, e.request, next)
  {
    var s := StoredFor(st, e, next);
    FollowUpSent(s, e.request, next);
    FollowsUpFrom(st, s, FollowedUp(s, e.request), e.request, next);
  }

  /** The state once the data is stored: the rest of the entry is as it was. */
  lemma StoredFor(st: State, e: Event, next: int) returns (s: State)
    requires DueAnother(st, e) && next == Int32(st.session.entry.offset * st.session.entry.r2tSn)
    ensures s.Valid() && s.session.fullFeature && s.out == st.out && s.target == st.target && s.conn == st.conn
    ensures next == Int32(s.session.entry.offset * s.session.entry.r2tSn)
    ensures s.session.entry.r2tSn == st.session.entry.r2tSn && s.session.entry.total == st.session.entry.total
    ensures Step(st, e.request, e.reply).state == FollowedUp(s, e.request)
  {
    GateFrame(st, e.request);
    var g := st.(session := Gate(st, e.request).1);
    FrameHasSegment(e.request);
    StoredFrame(g, e.request);
    s := g.(session := g.session.(entry := Stored(g.session.entry, e.request)));
    FollowUpStep(st, e, s);
  }

  lemma FollowUpStep(st: State, e: Event, s: State)
    requires DueAnother(st, e) && |Segment(e.request)| == DataLength(e.request)
    requires var g := st.session.entry;
             s == st.(session := Gate(st, e.request).1.(entry := Stored(g, e.request))) && s.Valid()
    ensures Step(st, e.request, e.reply).state == FollowedUp(s, e.request)
  {
    TopBit(e.request[1]);
    GateFrame(st, e.request);
  }

  lemma FollowUpSent(s: State, req: Header, next: int)
    requires s.Valid() && s.session.fullFeature && IsInt(s.session.entry.r2tSn)
    requires next == Int32(s.session.entry.offset * s.session.entry.r2tSn)
    ensures FollowsUp(s, FollowedUp(s, req), req, next)
  {
    var r := Range(s.session.entry.r2tSn, next, Min(s.conn.params.maxReceive, s.session.entry.total - next));
    var u := Sent(s, [R2tPdu(TaskTag(req), TransferTag(req), r)]);
    R2tRead(s, req, r);
    FollowedUpIs(s, req, next, r);
    SentFollowsUp(s, u, FollowedUp(s, req), req, next, r);
  }

  lemma SentFollowsUp(s: State, u: State, t: State, req: Header, next: int, r: Range)
    requires r == Range(s.session.entry.r2tSn, next, Min(s.conn.params.maxReceive, s.session.entry.total - next))
    requires s.out <= u.out && NextR2t(Appended(s, u), req, r.sn, r.offset, r.length)
    requires t.out == u.out && t.target == s.target && t.session.entry.r2tSn == Int32(s.session.entry.r2tSn + 1)
    ensures FollowsUp(s, t, req, next)
  {
    assert Appended(s, t) == Appended(s, u);
  }

  lemma FollowedUpIs(s: State, req: Header, next: int, r: Range)
    requires next == Int32(s.session.entry.offset * s.session.entry.r2tSn)
    requires r == Range(s.session.entry.r2tSn, next, Min(s.conn.params.maxReceive, s.session.entry.total - next))
    ensures var t, u := FollowedUp(s, req), Sent(s, [R2tPdu(TaskTag(req), TransferTag(req), r)]);
            t.out == u.out && t.target == s.target && t.session.entry.r2tSn == Int32(s.session.entry.r2tSn + 1)
  {
  }

  lemma R2tRead(s: State, req: Header, r: Range)
    requires IsInt(s.conn.expCmdSn) && IsInt(r.sn) && IsInt(r.offset) && IsInt(r.length)
    ensures var u := Sent(s, [R2tPdu(TaskTag(req), TransferTag(req), r)]);
            s.out <= u.out && NextR2t(Appended(s, u), req, r.sn, r.offset, r.length)
  {
    OneSent(s, R2tPdu(TaskTag(req), TransferTag(req), r));
  }
}
