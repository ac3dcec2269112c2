/** An initiator that completes any write the target lets it complete, built PDU by PDU (request/data_out.c:15-59). */
module WriteCompletes {
  import opened Bytes
  import opened Pdus
  import opened Negotiation
  import opened Model
  import opened Runs
  import opened R2tPlan
  import opened Transfers
  import opened EndToEndWrite

  /** A range of the write that fits one PDU. */
  predicate Askable(w: Write, r: Range)
  {
    && 0 <= r.offset && 0 < r.length < 0x100_0000 && r.offset + r.length <= |w.data|
    && |w.data| <= MEMORY_SIZE && IsInt(w.tag) && IsInt(w.sn)
  }

  /** The Data-Out that answers r: its data at its offset, under the write's tag, with w.sn where a CmdSN would be. */
  function DataOutPdu(w: Write, r: Range): Pdu
    requires Askable(w, r)
  {
    Pdu(SCSI_DATA_OUT, 128, 0, 0, 0, w.tag, w.sn, 0, 0, 0, r.offset, 0, w.data[r.offset..r.offset + r.length])
  }

  function DataOutFor(w: Write, r: Range): Event
    requires Askable(w, r)
  {
    Event(Encode(DataOutPdu(w, r)), Failed)
  }

  lemma DataOutReads(w: Write, r: Range)
    requires Askable(w, r)
    ensures var e := DataOutFor(w, r);
            && IsFrame(e.request) && e.request[4] == 0 && Opcode(e.request) == SCSI_DATA_OUT
            && TransferTag(e.request) == w.tag && CmdSn(e.request) == w.sn && BufferOffset(e.request) == r.offset
            && DataLength(e.request) == r.length
            && Segment(e.request) == w.data[r.offset..r.offset + r.length]
  {
    var p := DataOutPdu(w, r);
    var f := Encode(p);
    EncodeDecode(p);
    EncodedParts(p);
    HeaderFields(p, f);
    Nat24RoundTrip(f, 5, |p.data|);
  }

  lemma DataOutAnswers(w: Write, r: Range)
    requires Askable(w, r)
    ensures var e := DataOutFor(w, r);
            Answer(e, w) && RangeOf(e) == Range(0, r.offset, r.length)
  {
    DataOutReads(w, r);
  }

  function DataOutsFor(w: Write, rs: seq<Range>): (es: seq<Event>)
    requires forall i :: 0 <= i < |rs| ==> Askable(w, rs[i])
    ensures |es| == |rs|
  {
    seq(|rs|, i requires 0 <= i < |rs| && Askable(w, rs[i]) => DataOutFor(w, rs[i]))
  }

  lemma DataOutsTail(w: Write, rs: seq<Range>)
    requires rs != [] && forall i :: 0 <= i < |rs| ==> Askable(w, rs[i])
    ensures DataOutsFor(w, rs)[0] == DataOutFor(w, rs[0]) && DataOutsFor(w, rs)[1..] == DataOutsFor(w, rs[1..])
  {
  }

  lemma OneForOne(r: Range, rest: seq<Range>, asked: seq<Range>)
    requires asked != [] && r.offset == asked[0].offset && r.length == asked[0].length > 0
    requires AnswersInOrder(rest, asked[1..])
    ensures AnswersInOrder([r] + rest, asked)
  {
    var rs := [r] + rest;
    assert rs[..1] == [r] && rs[1..] == rest && [r][1..] == [];
    assert Contiguous(rs[..1], asked[0].offset, asked[0].offset + asked[0].length);
  }

  /** One Data-Out for each range answers the ranges in order. */
  lemma {:induction false} DataOutsAnswerInOrder(w: Write, rs: seq<Range>)
    requires forall i :: 0 <= i < |rs| ==> Askable(w, rs[i])
    ensures AllFit(DataOutsFor(w, rs), w) && AnswersInOrder(Answers(DataOutsFor(w, rs), w), rs)
    ensures forall i :: 0 <= i < |rs| ==> Answer(DataOutsFor(w, rs)[i], w)
  {
    if rs != [] {
      DataOutsTail(w, rs);
      DataOutsAnswerInOrder(w, rs[1..]);
      DataOutAnswers(w, rs[0]);
      var es := DataOutsFor(w, rs);
      assert forall i :: 0 < i < |es| ==> es[i] == es[1..][i - 1];
      OneForOne(RangeOf(es[0]), Answers(es[1..], w), rs);
    }
  }

  lemma DataOutIsAcceptable(t: State, w: Write, r: Range)
    requires InProgress(t, w) && Askable(w, r)
    ensures StepOk(t, DataOutFor(w, r))
  {
    DataOutReads(w, r);
  }

  lemma {:induction false} DataOutsAreAdmissible(t: State, w: Write, rs: seq<Range>)
    requires InProgress(t, w) && forall i :: 0 <= i < |rs| ==> Askable(w, rs[i])
    ensures Admissible(t, DataOutsFor(w, rs))
    decreases |rs|
  {
    if rs != [] {
      var e := DataOutFor(w, rs[0]);
      DataOutsTail(w, rs);
      DataOutIsAcceptable(t, w, rs[0]);
      DataOutAnswers(w, rs[0]);
      AnswerStep(t, w, e, 0);
      DataOutsAreAdmissible(Step(t, e.request, e.reply).state, w, rs[1..]);
    }
  }

  lemma PlanAskable(p: Params, req: Header, w: Write)
    requires WithinLimits(p) && p.maxReceive >= 1 && NeedsR2t(req) && ExpectedLength(req) == |w.data| <= MEMORY_SIZE
    requires IsInt(w.tag) && IsInt(w.sn)
    ensures forall i :: 0 <= i < |PlanOf(p, req)| ==> Askable(w, PlanOf(p, req)[i])
  {
    var k := R2tCount(p, req);
    var dsl, total := DataLength(req), ExpectedLength(req);
    DivideRoundUpIsCeiling(total - dsl, p.maxReceive);
    PlanIsContiguous(k, dsl, p.maxReceive, total);
    forall i | 0 <= i < k ensures Askable(w, PlanOf(p, req)[i]) {
      RangeAskable(w, k, dsl, p.maxReceive, total, i);
    }
  }

  lemma RangeAskable(w: Write, k: nat, start: nat, max: nat, total: nat, i: nat)
    requires 0 < max <= PARAMETER_BUFFER_SIZE && start < total == |w.data| <= MEMORY_SIZE && IsInt(w.tag) && IsInt(w.sn)
    requires i < k <= DivideRoundUp(total - start, max)
    ensures Askable(w, Plan(k, start, max, total)[i])
  {
    RangeBounds(k, start, max, total, i);
  }

  /**
   * Every write has an exchange, one Data-Out for each R2T read off the wire: it makes the command fire once if all
   * the R2Ts may be outstanding, and never otherwise.
   */
  lemma EveryWriteHasAnExchange(st: State, cmd: Event, data: seq<byte>, sn: int) returns (es: seq<Event>)
    requires Starts(st, cmd, data, sn) && IsInt(sn)
    ensures Exchange(st, cmd, data, sn, es)
    ensures |es| == |PlanOf(st.conn.params, cmd.request)|
    ensures forall i :: 0 <= i < |es| ==> Answer(es[i], WriteOf(st, cmd, data, sn))
    ensures |Executions(st, cmd, es)| == if Allowed(st, cmd) then 1 else 0
  {
    var t, w := Started(st, cmd), WriteOf(st, cmd, data, sn);
    WriteInProgress(st, cmd, data, sn);
    var rs := PlanOf(st.conn.params, cmd.request);
    PlanAskable(st.conn.params, cmd.request, w);
    es := DataOutsFor(w, rs);
    DataOutsAnswerInOrder(w, rs);
    DataOutsAreAdmissible(t, w, rs);
    WriteRunsIff(st, cmd, data, sn, es);
  }
}
