/** A write from its R2Ts to its execution (request/cmd.c:84-126, request/data_out.c:35-59, iscsi_session.c:59-64). */
module Transfers {
  import opened Bytes
  import opened Lookup
  import opened Pdus
  import opened Model
  import opened Runs

  /**
   * A write in progress: its tag, command, length, the initiator's data, and the value its Data-Outs carry as CmdSN.
   */
  datatype Write = Write(tag: int, cdb: seq<byte>, total: nat, data: seq<byte>, sn: int)

  /**
   * The full-feature session of a write: the entry is the write's, no follow-up R2T is due, and the numbering gate
   * is either unused or set to the value the Data-Outs carry.
   */
  predicate InProgress(st: State, w: Write)
  {
    && st.Valid() && st.conn.attached && st.session.fullFeature && !st.session.discovery
    && st.session.entry.tag == w.tag != DEFAULT_TAG && st.session.entry.cdb == w.cdb
    && st.session.entry.total == w.total == |w.data|
    && st.session.entry.r2tSn >= st.session.entry.totalR2tSn
    && (st.session.numberingStarted ==> st.session.expCmdSn == w.sn)
  }

  /** Passes the numbering gate as long as the gate is unused or at sn. */
  predicate GateFriendly(req: Header, sn: int)
  {
    HasCmdSn(req) || (CmdSn(req) == sn && Opcode(req) != REJECT)
  }

  predicate Answer(e: Event, w: Write)
  {
    && |e.request| >= HEADER && GateFriendly(e.request, w.sn)
    && Opcode(e.request) == SCSI_DATA_OUT && TransferTag(e.request) == w.tag
    && 0 <= BufferOffset(e.request) && BufferOffset(e.request) + |Segment(e.request)| <= |w.data|
    && Segment(e.request) == w.data[BufferOffset(e.request)..BufferOffset(e.request) + |Segment(e.request)|]
  }

  /** Anything that neither starts an R2T write nor carries the write's tag. */
  predicate Bystander(e: Event, w: Write)
  {
    && |e.request| >= HEADER && GateFriendly(e.request, w.sn)
    && !(Opcode(e.request) == SCSI_CMD && NeedsR2t(e.request))
    && !(Opcode(e.request) == SCSI_DATA_OUT && TransferTag(e.request) == w.tag)
  }

  predicate Last(e: Event, w: Write)
  {
    Answer(e, w) && BufferOffset(e.request) + |Segment(e.request)| == w.total
  }

  predicate Covers(e: Event, w: Write, x: int)
  {
    Answer(e, w) && BufferOffset(e.request) <= x < BufferOffset(e.request) + |Segment(e.request)|
  }

  /** Byte x of the entry is the initiator's. */
  predicate Has(st: State, w: Write, x: int)
  {
    0 <= x < |w.data| && x < |st.session.entry.data| && st.session.entry.data[x] == w.data[x]
  }

  /** The executions of transfer `tag` among the log entries from n on. */
  function Fires(log: seq<Execution>, n: nat, tag: int): seq<Execution>
  {
    if |log| <= n then []
    else
      var last := log[|log| - 1];
      Fires(log[..|log| - 1], n, tag) + if last.transfer == Some(tag) then [last] else []
  }

  lemma FrameHasSegment(req: seq<byte>)
    requires IsFrame(req) && req[4] == 0
    ensures |Segment(req)| == DataLength(req)
  {
  }

  lemma GatePasses(st: State, w: Write, e: Event)
    requires InProgress(st, w) && StepOk(st, e) && GateFriendly(e.request, w.sn)
    ensures Gate(st, e.request).0 && InProgress(st.(session := Gate(st, e.request).1), w)
    ensures Gate(st, e.request).1.entry == st.session.entry
    ensures var g := st.(session := Gate(st, e.request).1);
            Step(st, e.request, e.reply) == Outcome(FullFeature(g, e.request, e.reply), false)
  {
    GateFrame(st, e.request);
  }

  /** At most one execution was added, and it belongs to no transfer. */
  predicate NoTransferFired(before: seq<Execution>, after: seq<Execution>)
  {
    before == after
    || (|after| == |before| + 1 && after[..|before|] == before && after[|before|].transfer.None?)
  }

  lemma BystanderInFullFeature(st: State, w: Write, e: Event)
    requires InProgress(st, w) && StepOk(st, e) && Bystander(e, w)
    ensures var t := FullFeature(st, e.request, e.reply);
            && InProgress(t, w) && t.session.entry == st.session.entry
            && NoTransferFired(st.target.log, t.target.log)
  {
    FullFeatureFrame(st, e.request, e.reply);
    if Opcode(e.request) == SCSI_CMD {
      RunCommandLog(st, e.request, e.reply);
    }
  }

  lemma RunCommandLog(st: State, req: Header, reply: Reply)
    requires st.conn.params.maxReceive >= 1 && (IsRead(req) ==> 0 <= ExpectedLength(req)) && reply.Valid()
    ensures RunCommand(st, req, reply).session.entry == st.session.entry
    ensures RunCommand(st, req, reply).target.log == st.target.log + [Execution(Cdb(req), st.target.buffer, None)]
  {
  }

  lemma BystanderStep(st: State, w: Write, e: Event, n: nat)
    requires InProgress(st, w) && StepOk(st, e) && Bystander(e, w) && n <= |st.target.log|
    ensures var o := Step(st, e.request, e.reply);
            && !o.terminate && InProgress(o.state, w) && o.state.session.entry == st.session.entry
            && |st.target.log| <= |o.state.target.log|
            && Fires(o.state.target.log, n, w.tag) == Fires(st.target.log, n, w.tag)
  {
    GatePasses(st, w, e);
    BystanderInFullFeature(st.(session := Gate(st, e.request).1), w, e);
  }

  lemma AnswerInFullFeature(st: State, w: Write, e: Event)
    requires InProgress(st, w) && StepOk(st, e) && Answer(e, w)
    ensures var t := FullFeature(st, e.request, e.reply);
            && InProgress(t, w) && t.session.entry == Stored(st.session.entry, e.request)
            && (Last(e, w) ==> t.target == ExecutedEntry(st.target, t.session.entry, e.reply))
            && (!Last(e, w) ==> t == st.(session := st.session.(entry := t.session.entry)))
  {
    FrameHasSegment(e.request);
    FullFeatureFrame(st, e.request, e.reply);
  }

  /** What an answer does: its bytes are in the entry, what was there stays, and only the last one fires. */
  lemma AnswerStep(st: State, w: Write, e: Event, n: nat)
    requires InProgress(st, w) && StepOk(st, e) && Answer(e, w) && n <= |st.target.log|
    ensures var o := Step(st, e.request, e.reply);
            && !o.terminate && InProgress(o.state, w) && o.state.session.entry == Stored(st.session.entry, e.request)
            && (forall x :: Has(st, w, x) || Covers(e, w, x) ==> Has(o.state, w, x))
            && (!Last(e, w) ==> o.state.target == st.target)
            && (Last(e, w) ==> Fired(st, o.state, w, n))
  {
    GatePasses(st, w, e);
    var g := st.(session := Gate(st, e.request).1);
    AnswerInFullFeature(g, w, e);
    var t := Step(st, e.request, e.reply).state;
    forall x | Has(st, w, x) || Covers(e, w, x) ensures Has(t, w, x) {
    }
    if Last(e, w) {
      assert t.target.log[..|t.target.log| - 1] == st.target.log;
    }
  }

  /** One execution of the write was added: with its command, on a buffer that starts with the entry's data. */
  predicate Fired(s: State, t: State, w: Write, n: nat)
  {
    && |s.target.buffer| == MEMORY_SIZE && w.total <= MEMORY_SIZE == |t.session.entry.data|
    && n <= |s.target.log| <= |t.target.log|
    && var x := Execution(w.cdb, Patch(s.target.buffer, 0, t.session.entry.data[..w.total]), Some(w.tag));
       t.target.log == s.target.log + [x] && Fires(t.target.log, n, w.tag) == Fires(s.target.log, n, w.tag) + [x]
  }
}
