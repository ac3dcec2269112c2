/** The whole write protocol: R2Ts out, Data-Outs in among other traffic, one execution with the initiator's data. */
module EndToEndWrite {
  import opened Bytes
  import opened Pdus
  import opened Negotiation
  import opened Model
  import opened Runs
  import opened R2tPlan
  import opened Transfers

  predicate AllFit(es: seq<Event>, w: Write)
  {
    forall i :: 0 <= i < |es| ==> Answer(es[i], w) || Bystander(es[i], w)
  }

  predicate NoneLast(es: seq<Event>, w: Write)
  {
    forall i :: 0 <= i < |es| ==> !Last(es[i], w)
  }

  /** One of the first n events brings byte x. */
  predicate CoveredBy(es: seq<Event>, n: nat, w: Write, x: int)
  {
    exists i :: 0 <= i < n && i < |es| && Covers(es[i], w, x)
  }

  predicate AllCovered(es: seq<Event>, n: nat, w: Write, lo: int)
  {
    forall x :: lo <= x < w.total ==> CoveredBy(es, n, w, x)
  }

  lemma CoveredByTail(es: seq<Event>, w: Write, x: int)
    requires es != [] && CoveredBy(es, |es|, w, x)
    ensures Covers(es[0], w, x) || CoveredBy(es[1..], |es| - 1, w, x)
  {
    var i :| 0 <= i < |es| && Covers(es[i], w, x);
    if i > 0 {
      assert es[1..][i - 1] == es[i];
    }
  }

  /** As long as the last answer is missing, data only accumulates and the command does not fire. */
  lemma {:induction false} QuietRun(st: State, w: Write, es: seq<Event>, n: nat)
    requires InProgress(st, w) && Admissible(st, es) && AllFit(es, w) && NoneLast(es, w) && n <= |st.target.log|
    ensures var t := Run(st, es);
            && InProgress(t, w) && |st.target.log| <= |t.target.log|
            && Fires(t.target.log, n, w.tag) == Fires(st.target.log, n, w.tag)
            && forall x :: Has(st, w, x) || CoveredBy(es, |es|, w, x) ==> Has(t, w, x)
    decreases |es|
  {
    if es != [] {
      var s := Step(st, es[0].request, es[0].reply).state;
      if Answer(es[0], w) {
        AnswerStep(st, w, es[0], n);
      } else {
        BystanderStep(st, w, es[0], n);
      }
      QuietRun(s, w, es[1..], n);
      forall x | Has(st, w, x) || CoveredBy(es, |es|, w, x) ensures Has(Run(st, es), w, x) {
        if CoveredBy(es, |es|, w, x) {
          CoveredByTail(es, w, x);
        }
      }
    }
  }

  predicate FiredOnce(fires: seq<Execution>, w: Write, lo: nat)
  {
    && |fires| == 1 && fires[0].cdb == w.cdb
    && lo <= w.total <= |w.data| && w.total <= |fires[0].buffer|
    && fires[0].buffer[lo..w.total] == w.data[lo..w.total]
  }

  /** The last answer fires the command on the initiator's data wherever that has arrived. */
  lemma LastAnswerFires(st: State, w: Write, e: Event, n: nat, lo: nat)
    requires InProgress(st, w) && StepOk(st, e) && Last(e, w) && n <= |st.target.log| && lo <= w.total
    requires Fires(st.target.log, n, w.tag) == []
    requires forall x :: lo <= x < w.total ==> Has(st, w, x) || Covers(e, w, x)
    ensures var o := Step(st, e.request, e.reply);
            && !o.terminate && InProgress(o.state, w) && n <= |o.state.target.log|
            && FiredOnce(Fires(o.state.target.log, n, w.tag), w, lo)
  {
    AnswerStep(st, w, e, n);
    FiredOnData(st, Step(st, e.request, e.reply).state, w, n, lo);
  }

  lemma FiredOnData(st: State, t: State, w: Write, n: nat, lo: nat)
    requires Fired(st, t, w, n) && Fires(st.target.log, n, w.tag) == []
    requires lo <= w.total == |w.data| && forall x :: lo <= x < w.total ==> Has(t, w, x)
    ensures FiredOnce(Fires(t.target.log, n, w.tag), w, lo)
  {
    var b := Fires(t.target.log, n, w.tag)[0].buffer;
    forall x | lo <= x < w.total ensures b[x] == w.data[x] {
      assert Has(t, w, x);
    }
  }

  lemma SplitRun(st: State, es: seq<Event>, j: nat)
    requires InFullFeature(st) && Admissible(st, es) && j <= |es|
    ensures Admissible(st, es[..j]) && Admissible(Run(st, es[..j]), es[j..])
    ensures Run(st, es) == Run(Run(st, es[..j]), es[j..])
  {
    CutAndJoined(es, j);
    RunInTwo(st, es[..j], es[j..]);
  }

  lemma CutAndJoined(es: seq<Event>, j: nat)
    requires j <= |es|
    ensures es == es[..j] + es[j..]
  {
  }

  lemma CoveredPrefix(es: seq<Event>, j: nat, w: Write, x: int)
    requires j <= |es| && CoveredBy(es, j, w, x)
    ensures CoveredBy(es[..j], j, w, x)
  {
    var i :| 0 <= i < j && i < |es| && Covers(es[i], w, x);
    assert es[..j][i] == es[i];
  }

  lemma QuietPrefix(st: State, w: Write, es: seq<Event>, j: nat, n: nat)
    requires InProgress(st, w) && Admissible(st, es) && AllFit(es, w) && n <= |st.target.log| && j <= |es|
    requires forall i :: 0 <= i < j ==> !Last(es[i], w)
    ensures Admissible(st, es[..j])
    ensures var t := Run(st, es[..j]);
            && InProgress(t, w) && n <= |t.target.log|
            && Fires(t.target.log, n, w.tag) == Fires(st.target.log, n, w.tag)
            && forall x :: CoveredBy(es, j, w, x) ==> Has(t, w, x)
  {
    SplitRun(st, es, j);
    QuietRun(st, w, es[..j], n);
    forall x | CoveredBy(es, j, w, x) ensures Has(Run(st, es[..j]), w, x) {
      CoveredPrefix(es, j, w, x);
    }
  }

  /** From the last answer on. */
  lemma LastAnswerAndAfter(st: State, w: Write, es: seq<Event>, n: nat, lo: nat)
    requires InProgress(st, w) && Admissible(st, es) && AllFit(es, w) && n <= |st.target.log| && lo <= w.total
    requires es != [] && Last(es[0], w) && forall i :: 0 < i < |es| ==> !Last(es[i], w)
    requires Fires(st.target.log, n, w.tag) == []
    requires forall x :: lo <= x < w.total ==> Has(st, w, x) || Covers(es[0], w, x)
    ensures FiredOnce(Fires(Run(st, es).target.log, n, w.tag), w, lo)
  {
    LastAnswerFires(st, w, es[0], n, lo);
    QuietRun(Step(st, es[0].request, es[0].reply).state, w, es[1..], n);
  }

  /**
   * Whatever the order and overlap of the answers: when they cover the bytes from `lo` on, and the one that ends the
   * transfer comes once, after all the bytes are there, the command fires once, then, and on the initiator's data.
   */
  lemma WriteFiresOnce(st: State, w: Write, es: seq<Event>, m: nat, n: nat, lo: nat)
    requires InProgress(st, w) && Admissible(st, es) && AllFit(es, w) && n == |st.target.log| && lo <= w.total
    requires m < |es| && Last(es[m], w) && forall i :: 0 <= i < |es| && i != m ==> !Last(es[i], w)
    requires AllCovered(es, m + 1, w, lo)
    ensures forall j :: 0 <= j <= m ==> Admissible(st, es[..j]) && Fires(Run(st, es[..j]).target.log, n, w.tag) == []
    ensures FiredOnce(Fires(Run(st, es).target.log, n, w.tag), w, lo)
  {
    forall j | 0 <= j <= m
      ensures Admissible(st, es[..j]) && Fires(Run(st, es[..j]).target.log, n, w.tag) == []
    {
      QuietPrefix(st, w, es, j, n);
    }
    FiresAtLast(st, w, es, m, n, lo);
  }

  lemma HereOrCovered(s: State, w: Write, es: seq<Event>, m: nat, lo: nat)
    requires m < |es| && AllCovered(es, m + 1, w, lo) && forall x :: CoveredBy(es, m, w, x) ==> Has(s, w, x)
    ensures forall x :: lo <= x < w.total ==> Has(s, w, x) || Covers(es[m], w, x)
  {
    forall x | lo <= x < w.total ensures Has(s, w, x) || Covers(es[m], w, x) {
      CoveredNowOrBefore(es, m, w, x);
    }
  }

  lemma CoveredNowOrBefore(es: seq<Event>, m: nat, w: Write, x: int)
    requires m < |es| && CoveredBy(es, m + 1, w, x)
    ensures CoveredBy(es, m, w, x) || Covers(es[m], w, x)
  {
  }

  lemma FiresAtLast(st: State, w: Write, es: seq<Event>, m: nat, n: nat, lo: nat)
    requires InProgress(st, w) && Admissible(st, es) && AllFit(es, w) && n == |st.target.log| && lo <= w.total
    requires m < |es| && Last(es[m], w) && forall i :: 0 <= i < |es| && i != m ==> !Last(es[i], w)
    requires AllCovered(es, m + 1, w, lo)
    ensures FiredOnce(Fires(Run(st, es).target.log, n, w.tag), w, lo)
  {
    QuietPrefix(st, w, es, m, n);
    SplitRun(st, es, m);
    var s := Run(st, es[..m]);
    HereOrCovered(s, w, es, m, lo);
    LastAnswerAndAfter(s, w, es[m..], n, lo);
  }

  // An initiator that answers each R2T once, in order.

  function RangeOf(e: Event): Range
    requires |e.request| >= HEADER
  {
    Range(0, BufferOffset(e.request), |Segment(e.request)|)
  }

  /** The ranges of the write's answers among the events, in order. */
  function Answers(es: seq<Event>, w: Write): seq<Range>
  {
    if es == [] then []
    else (if Answer(es[0], w) then [RangeOf(es[0])] else []) + Answers(es[1..], w)
  }

  /** Non-empty ranges, each starting where the one before it ends, from lo to hi. */
  predicate Contiguous(rs: seq<Range>, lo: int, hi: int)
  {
    if rs == [] then lo == hi
    else rs[0].offset == lo && rs[0].length > 0 && Contiguous(rs[1..], lo + rs[0].length, hi)
  }

  /** Each asked range is answered, in order, by contiguous ranges of its own. */
  predicate AnswersInOrder(rs: seq<Range>, asked: seq<Range>)
    decreases |asked|
  {
    if asked == [] then rs == []
    else exists k :: 0 <= k <= |rs| && Contiguous(rs[..k], asked[0].offset, asked[0].offset + asked[0].length)
                     && AnswersInOrder(rs[k..], asked[1..])
  }

  lemma {:induction false} ContiguousGrows(rs: seq<Range>, lo: int, hi: int)
    requires Contiguous(rs, lo, hi)
    ensures lo <= hi && (lo == hi ==> rs == [])
  {
    if rs != [] {
      ContiguousGrows(rs[1..], lo + rs[0].length, hi);
    }
  }

  lemma {:induction false} ContiguousAppend(rs: seq<Range>, qs: seq<Range>, lo: int, mid: int, hi: int)
    requires Contiguous(rs, lo, mid) && Contiguous(qs, mid, hi)
    ensures Contiguous(rs + qs, lo, hi)
  {
    if rs == [] {
      assert rs + qs == qs;
    } else {
      ContiguousAppend(rs[1..], qs, lo + rs[0].length, mid, hi);
      assert (rs + qs)[1..] == rs[1..] + qs;
    }
  }

  lemma {:induction false} AnsweringIsContiguous(rs: seq<Range>, asked: seq<Range>, lo: int, hi: int)
    requires Contiguous(asked, lo, hi) && AnswersInOrder(rs, asked)
    ensures Contiguous(rs, lo, hi)
    decreases |asked|
  {
    if asked != [] {
      var k :| 0 <= k <= |rs| && Contiguous(rs[..k], asked[0].offset, asked[0].offset + asked[0].length)
               && AnswersInOrder(rs[k..], asked[1..]);
      AnsweringIsContiguous(rs[k..], asked[1..], lo + asked[0].length, hi);
      ContiguousAppend(rs[..k], rs[k..], lo, lo + asked[0].length, hi);
      assert rs[..k] + rs[k..] == rs;
    }
  }

  lemma {:induction false} NoAnswersLeft(es: seq<Event>, w: Write)
    requires Answers(es, w) == []
    ensures forall i :: 0 <= i < |es| ==> !Answer(es[i], w)
  {
    if es != [] {
      NoAnswersLeft(es[1..], w);
      forall i | 0 <= i < |es| ensures !Answer(es[i], w) {
        assert i > 0 ==> es[i] == es[1..][i - 1];
      }
    }
  }

  predicate FinalAnswerAt(es: seq<Event>, w: Write, m: nat, lo: int)
  {
    && m < |es| && Last(es[m], w)
    && (forall i :: 0 <= i < m ==> !Last(es[i], w))
    && (forall i :: m < i < |es| ==> !Answer(es[i], w))
    && AllCovered(es, m + 1, w, lo)
  }

  lemma FinalAnswerShift(es: seq<Event>, w: Write, m: nat, lo: int, next: int)
    requires es != [] && FinalAnswerAt(es[1..], w, m, next) && !Last(es[0], w)
    requires forall x :: lo <= x < next ==> Covers(es[0], w, x)
    ensures FinalAnswerAt(es, w, m + 1, lo)
  {
    var tail := es[1..];
    forall i | 0 <= i < |es| ensures i > 0 ==> es[i] == tail[i - 1] {
    }
    var n := m + 2;
    forall x | lo <= x < w.total ensures CoveredBy(es, n, w, x) {
      if x < next {
        assert Covers(es[0], w, x);
      } else {
        assert CoveredBy(tail, m + 1, w, x);
        var i :| 0 <= i < m + 1 && i < |tail| && Covers(tail[i], w, x);
        assert es[i + 1] == tail[i];
      }
    }
  }

  lemma ContiguousTail(r: Range, rs: seq<Range>, lo: int, hi: int)
    requires Contiguous([r] + rs, lo, hi)
    ensures r.offset == lo && r.length > 0 && Contiguous(rs, lo + r.length, hi)
  {
    assert ([r] + rs)[1..] == rs;
  }

  /** The first of contiguous answers, and where the next one starts. */
  lemma FirstAnswer(es: seq<Event>, w: Write, lo: int) returns (next: int)
    requires es != [] && Answer(es[0], w) && Contiguous(Answers(es, w), lo, w.total)
    ensures lo < next <= w.total && (Last(es[0], w) <==> next == w.total)
    ensures next == w.total ==> Answers(es[1..], w) == []
    ensures Contiguous(Answers(es[1..], w), next, w.total)
    ensures forall x :: lo <= x < next ==> Covers(es[0], w, x)
  {
    next := lo + |Segment(es[0].request)|;
    AnswerFirst(es, w);
    ContiguousTail(RangeOf(es[0]), Answers(es[1..], w), lo, w.total);
    ContiguousGrows(Answers(es[1..], w), next, w.total);
    CoversFrom(es[0], w, lo, next);
  }

  lemma AnswerFirst(es: seq<Event>, w: Write)
    requires es != [] && Answer(es[0], w)
    ensures Answers(es, w) == [RangeOf(es[0])] + Answers(es[1..], w)
  {
  }

  lemma CoversFrom(e: Event, w: Write, lo: int, next: int)
    requires Answer(e, w) && BufferOffset(e.request) == lo && next == lo + |Segment(e.request)|
    ensures forall x :: lo <= x < next ==> Covers(e, w, x)
  {
  }

  lemma BystanderFirst(es: seq<Event>, w: Write)
    requires es != [] && !Answer(es[0], w)
    ensures Answers(es, w) == Answers(es[1..], w)
  {
  }

  lemma FinalAnswerHere(es: seq<Event>, w: Write, lo: int)
    requires es != [] && Last(es[0], w) && forall x :: lo <= x < w.total ==> Covers(es[0], w, x)
    requires forall i :: 0 <= i < |es[1..]| ==> !Answer(es[1..][i], w)
    ensures FinalAnswerAt(es, w, 0, lo)
  {
    forall i | 0 < i < |es| ensures !Answer(es[i], w) {
      assert es[i] == es[1..][i - 1];
    }
    forall x | lo <= x < w.total ensures CoveredBy(es, 1, w, x) {
      assert Covers(es[0], w, x);
    }
  }

  /**
   * Contiguous answers up to the end: there is a last one, nothing ends the transfer earlier, all bytes are covered.
   */
  lemma {:induction false} FindFinalAnswer(es: seq<Event>, w: Write, lo: int) returns (m: nat)
    requires Contiguous(Answers(es, w), lo, w.total) && lo < w.total
    ensures FinalAnswerAt(es, w, m, lo)
    decreases |es|
  {
    if Answer(es[0], w) {
      var next := FirstAnswer(es, w, lo);
      if next == w.total {
        m := 0;
        NoAnswersLeft(es[1..], w);
        FinalAnswerHere(es, w, lo);
      } else {
        m := FindFinalAnswer(es[1..], w, next);
        FinalAnswerShift(es, w, m, lo, next);
        m := m + 1;
      }
    } else {
      BystanderFirst(es, w);
      m := FindFinalAnswer(es[1..], w, lo);
      FinalAnswerShift(es, w, m, lo, lo);
      m := m + 1;
    }
  }

  // From the command on.

  lemma {:induction false} PlanContiguous(rs: seq<Range>, lo: int, hi: int)
    requires rs != [] && rs[0].offset == lo && rs[|rs| - 1].offset + rs[|rs| - 1].length == hi
    requires forall i :: 0 <= i < |rs| ==> rs[i].length > 0
    requires forall i :: 0 <= i < |rs| - 1 ==> rs[i + 1].offset == rs[i].offset + rs[i].length
    ensures Contiguous(rs, lo, hi)
  {
    if |rs| > 1 {
      var tail := rs[1..];
      forall i | 0 <= i < |tail| - 1 ensures tail[i + 1].offset == tail[i].offset + tail[i].length {
        assert rs[i + 2].offset == rs[i + 1].offset + rs[i + 1].length;
      }
      PlanContiguous(tail, lo + rs[0].length, hi);
    }
  }

  /** The R2Ts the initiator reads off the wire, as ranges. */
  function R2tRanges(ps: seq<Pdu>): (rs: seq<Range>)
    ensures |rs| == |ps|
  {
    seq(|ps|, i requires 0 <= i < |ps| => Range(ps[i].word36, ps[i].word40, ps[i].word44))
  }

  lemma R2tsValid(p: Params, taskTag: int, tag: int, req: Header)
    requires WithinLimits(p) && p.maxReceive >= 1 && NeedsR2t(req) && ExpectedLength(req) <= MEMORY_SIZE
    requires IsInt(taskTag) && IsInt(tag)
    ensures AllValid(R2tPdus(taskTag, tag, PlanOf(p, req)))
    ensures PlanOf(p, req) == Plan(R2tCount(p, req), DataLength(req), p.maxReceive, ExpectedLength(req))
  {
    var rs := PlanOf(p, req);
    DivideRoundUpIsCeiling(ExpectedLength(req) - DataLength(req), p.maxReceive);
    forall i | 0 <= i < |rs| ensures R2tPdu(taskTag, tag, rs[i]).Valid() {
      RangeBounds(|rs|, DataLength(req), p.maxReceive, ExpectedLength(req), i);
    }
  }

  /**
   * A write command, past the gate: whole R2T PDUs for the plan, the new tag in each, the entry set up, nothing run.
   */
  lemma WriteStarts(st: State, req: Header, reply: Reply)
    requires st.Valid() && Acceptable(st, req) && reply.Valid() && st.session.fullFeature
    requires Opcode(req) == SCSI_CMD && NeedsR2t(req)
    ensures var t := Cmd(st, req, reply);
            var ps := Parse(Appended(st, t));
            && R2tRanges(ps) == PlanOf(st.conn.params, req) && Rest(Appended(st, t)) == []
            && AllR2ts(ps, TaskTag(req), t.session.entry.tag)
            && t.session.entry == st.session.entry.(cdb := Cdb(req), total := ExpectedLength(req),
                                                    tag := Advance(st.session.transferTag, 1))
            && t.target == st.target
  {
    var c := Counted(st);
    var tag := c.session.transferTag;
    var e := c.session.entry.(cdb := Cdb(req), total := ExpectedLength(req), tag := tag);
    var s := c.(session := c.session.(entry := e));
    var ps := R2tPdus(TaskTag(req), tag, PlanOf(st.conn.params, req));
    R2tsValid(st.conn.params, TaskTag(req), tag, req);
    SentParses(s, ps);
    R2tsRead(s.conn, TaskTag(req), tag, PlanOf(st.conn.params, req));
    assert Cmd(st, req, reply) == Sent(s, ps);
  }

  /** What the initiator reads in the R2Ts of a plan. */
  lemma R2tsRead(c: Conn, taskTag: int, tag: int, rs: seq<Range>)
    ensures var ps := Stamped(c, R2tPdus(taskTag, tag, rs));
            R2tRanges(ps) == rs && AllR2ts(ps, taskTag, tag)
  {
  }

  predicate AllR2ts(ps: seq<Pdu>, taskTag: int, tag: int)
  {
    forall i :: 0 <= i < |ps| ==> ps[i].opcode == R2T && ps[i].transferTag == tag && ps[i].taskTag == taskTag
  }

  /** A session in which a write can start: full feature, no follow-up R2T due, the gate unused or at sn. */
  predicate Ready(st: State, sn: int)
  {
    && st.Valid() && st.conn.attached && st.session.fullFeature && !st.session.discovery
    && st.session.entry.r2tSn >= st.session.entry.totalR2tSn
    && (st.session.numberingStarted ==> st.session.expCmdSn == sn)
  }

  lemma WriteInProgress(st: State, e: Event, data: seq<byte>, sn: int)
    requires Ready(st, sn) && StepOk(st, e) && Opcode(e.request) == SCSI_CMD && NeedsR2t(e.request)
    requires |data| == ExpectedLength(e.request) && Advance(st.session.transferTag, 1) != DEFAULT_TAG
    ensures var t := Step(st, e.request, e.reply).state;
            var w := Write(t.session.entry.tag, Cdb(e.request), ExpectedLength(e.request), data, sn);
            && InProgress(t, w) && t.target == st.target && t.session.entry.data == st.session.entry.data
            && R2tRanges(Parse(Appended(st, t))) == PlanOf(st.conn.params, e.request)
  {
    CommandStep(st, e, Step(st, e.request, e.reply));
    WriteStarts(st, e.request, e.reply);
    CmdFrame(st, e.request, e.reply);
  }

  /** `cmd` is a write with R2Ts that the target starts in `st`, and `data` is what the initiator wants written. */
  predicate Starts(st: State, cmd: Event, data: seq<byte>, sn: int)
  {
    && Ready(st, sn) && StepOk(st, cmd) && Opcode(cmd.request) == SCSI_CMD && NeedsR2t(cmd.request)
    && |data| == ExpectedLength(cmd.request) && Advance(st.session.transferTag, 1) != DEFAULT_TAG
  }

  /** All of its R2Ts may be outstanding at once. */
  predicate Allowed(st: State, cmd: Event)
    requires st.conn.params.maxReceive >= 1 && |cmd.request| >= HEADER
  {
    FullCount(st.conn.params, cmd.request) <= st.conn.params.maxOutstandingR2t
  }

  function Started(st: State, cmd: Event): State
    requires StepOk(st, cmd)
  {
    Step(st, cmd.request, cmd.reply).state
  }

  function WriteOf(st: State, cmd: Event, data: seq<byte>, sn: int): Write
    requires Starts(st, cmd, data, sn)
  {
    Write(Started(st, cmd).session.entry.tag, Cdb(cmd.request), ExpectedLength(cmd.request), data, sn)
  }

  /**
   * The events after the command: the initiator answers the R2Ts it read off the wire, each once, in order, by
   * contiguous Data-Outs with its own data; any other traffic in between starts no R2T write and passes the gate.
   */
  predicate Exchange(st: State, cmd: Event, data: seq<byte>, sn: int, es: seq<Event>)
  {
    && Starts(st, cmd, data, sn)
    && var t := Started(st, cmd);
       var w := WriteOf(st, cmd, data, sn);
       && Admissible(t, es) && AllFit(es, w)
       && AnswersInOrder(Answers(es, w), R2tRanges(Parse(Appended(st, t))))
  }

  /** The executions of the write among the events after the command. */
  function Executions(st: State, cmd: Event, es: seq<Event>): seq<Execution>
    requires StepOk(st, cmd) && Admissible(Started(st, cmd), es)
  {
    Fires(Run(Started(st, cmd), es).target.log, |st.target.log|, Started(st, cmd).session.entry.tag)
  }

  lemma ExchangeBegins(st: State, cmd: Event, data: seq<byte>, sn: int, es: seq<Event>, t: State, w: Write)
    requires Exchange(st, cmd, data, sn, es) && t == Started(st, cmd) && w == WriteOf(st, cmd, data, sn)
    ensures InProgress(t, w) && t.target == st.target && t.session.entry.data == st.session.entry.data
    ensures AnswersInOrder(Answers(es, w), PlanOf(st.conn.params, cmd.request))
  {
    WriteInProgress(st, cmd, data, sn);
  }

  /**
   * End to end. In an exchange for a write all of whose R2Ts may be outstanding, the command fires exactly once, at
   * the last answer, and the device sees the initiator's data from the end of the immediate data to the end of the
   * transfer.
   */
  lemma WriteReachesTheDevice(st: State, cmd: Event, data: seq<byte>, sn: int, es: seq<Event>) returns (m: nat)
    requires Exchange(st, cmd, data, sn, es) && Allowed(st, cmd)
    ensures var w := WriteOf(st, cmd, data, sn);
            && m < |es| && Last(es[m], w) && (forall i :: m < i < |es| ==> !Answer(es[i], w))
            && (forall j :: 0 <= j <= m ==>
                  Admissible(Started(st, cmd), es[..j]) && Executions(st, cmd, es[..j]) == [])
            && FiredOnce(Executions(st, cmd, es), w, DataLength(cmd.request))
  {
    var t, w := Started(st, cmd), WriteOf(st, cmd, data, sn);
    ExchangeBegins(st, cmd, data, sn, es, t, w);
    WholePlanContiguous(st.conn.params, cmd.request);
    AnsweringIsContiguous(Answers(es, w), PlanOf(st.conn.params, cmd.request), DataLength(cmd.request), w.total);
    m := FindFinalAnswer(es, w, DataLength(cmd.request));
    WriteFiresOnce(t, w, es, m, |st.target.log|, DataLength(cmd.request));
  }

  lemma WholePlanContiguous(p: Params, req: Header)
    requires WithinLimits(p) && p.maxReceive >= 1 && NeedsR2t(req) && FullCount(p, req) <= p.maxOutstandingR2t
    ensures Contiguous(PlanOf(p, req), DataLength(req), ExpectedLength(req))
  {
    var k := R2tCount(p, req);
    DivideRoundUpIsCeiling(ExpectedLength(req) - DataLength(req), p.maxReceive);
    PlanIsContiguous(k, DataLength(req), p.maxReceive, ExpectedLength(req));
    PlanEndIsTotal(k, DataLength(req), p.maxReceive, ExpectedLength(req));
    PlanContiguous(PlanOf(p, req), DataLength(req), ExpectedLength(req));
  }

  // The other direction: too many R2Ts needed.

  lemma {:induction false} ContiguousStaysBelow(rs: seq<Range>, lo: int, hi: int)
    requires Contiguous(rs, lo, hi)
    ensures forall i :: 0 <= i < |rs| ==> rs[i].offset + rs[i].length <= hi
  {
    if rs != [] {
      ContiguousStaysBelow(rs[1..], lo + rs[0].length, hi);
      ContiguousGrows(rs[1..], lo + rs[0].length, hi);
      forall i | 0 <= i < |rs| ensures rs[i].offset + rs[i].length <= hi {
        assert i > 0 ==> rs[i] == rs[1..][i - 1];
      }
    }
  }

  lemma {:induction false} AnswersBelow(es: seq<Event>, w: Write, bound: int)
    requires forall i :: 0 <= i < |Answers(es, w)| ==> Answers(es, w)[i].offset + Answers(es, w)[i].length <= bound
    requires bound < w.total
    ensures NoneLast(es, w)
  {
    if es != [] {
      var all, tail := Answers(es, w), Answers(es[1..], w);
      var d := |all| - |tail|;
      forall i | 0 <= i < |tail| ensures tail[i].offset + tail[i].length <= bound {
        assert tail[i] == all[i + d];
      }
      AnswersBelow(es[1..], w, bound);
      if Answer(es[0], w) {
        assert all[0] == RangeOf(es[0]);
      }
      forall i | 0 <= i < |es| ensures !Last(es[i], w) {
        assert i > 0 ==> es[i] == es[1..][i - 1];
      }
    }
  }

  lemma ShortPlan(k: nat, start: nat, max: nat, total: nat) returns (hi: int)
    requires max > 0 && start < total && k < DivideRoundUp(total - start, max)
    ensures hi < total && Contiguous(Plan(k, start, max, total), start, hi)
  {
    hi := PlanEnd(k, start, max, total);
    PlanIsContiguous(k, start, max, total);
    PlanEndIsTotal(k, start, max, total);
    if k > 0 {
      PlanContiguous(Plan(k, start, max, total), start, hi);
    } else {
      assert start + 0 * max == start;
    }
  }

  lemma ShortAnswers(w: Write, p: Params, req: Header, es: seq<Event>)
    requires WithinLimits(p) && p.maxReceive >= 1 && NeedsR2t(req) && FullCount(p, req) > p.maxOutstandingR2t
    requires w.total == ExpectedLength(req) && AnswersInOrder(Answers(es, w), PlanOf(p, req))
    ensures NoneLast(es, w)
  {
    DivideRoundUpIsCeiling(ExpectedLength(req) - DataLength(req), p.maxReceive);
    var hi := ShortPlan(R2tCount(p, req), DataLength(req), p.maxReceive, ExpectedLength(req));
    AnsweringIsContiguous(Answers(es, w), PlanOf(p, req), DataLength(req), hi);
    ContiguousStaysBelow(Answers(es, w), DataLength(req), hi);
    AnswersBelow(es, w, hi);
  }

  /** A write that needs more R2Ts than may be outstanding never runs: what it asks for never reaches the end. */
  lemma StarvedWriteNeverFires(st: State, w: Write, p: Params, req: Header, es: seq<Event>)
    requires WithinLimits(p) && p.maxReceive >= 1 && NeedsR2t(req) && FullCount(p, req) > p.maxOutstandingR2t
    requires InProgress(st, w) && w.total == ExpectedLength(req) && Admissible(st, es) && AllFit(es, w)
    requires AnswersInOrder(Answers(es, w), PlanOf(p, req))
    ensures Fires(Run(st, es).target.log, |st.target.log|, w.tag) == []
  {
    ShortAnswers(w, p, req, es);
    QuietRun(st, w, es, |st.target.log|);
  }

  /** In an exchange the write runs once if all its R2Ts may be outstanding, and never otherwise. */
  lemma WriteRunsIff(st: State, cmd: Event, data: seq<byte>, sn: int, es: seq<Event>)
    requires Exchange(st, cmd, data, sn, es)
    ensures |Executions(st, cmd, es)| == if Allowed(st, cmd) then 1 else 0
  {
    if Allowed(st, cmd) {
      var m := WriteReachesTheDevice(st, cmd, data, sn, es);
    } else {
      var t, w := Started(st, cmd), WriteOf(st, cmd, data, sn);
      ExchangeBegins(st, cmd, data, sn, es, t, w);
      StarvedWriteNeverFires(t, w, st.conn.params, cmd.request, es);
    }
  }

  /** How many events end the transfer. */
  function LastCount(es: seq<Event>, w: Write): nat
  {
    if es == [] then 0 else (if Last(es[0], w) then 1 else 0) + LastCount(es[1..], w)
  }

  /** The entry outlives its command: every Data-Out that ends the transfer runs the command once more. */
  lemma {:induction false} EveryLastAnswerFires(st: State, w: Write, es: seq<Event>, n: nat)
    requires InProgress(st, w) && Admissible(st, es) && AllFit(es, w) && n <= |st.target.log|
    ensures |Fires(Run(st, es).target.log, n, w.tag)| == |Fires(st.target.log, n, w.tag)| + LastCount(es, w)
    decreases |es|
  {
    if es != [] {
      if Answer(es[0], w) {
        AnswerStep(st, w, es[0], n);
      } else {
        BystanderStep(st, w, es[0], n);
      }
      EveryLastAnswerFires(Step(st, es[0].request, es[0].reply).state, w, es[1..], n);
    }
  }
}
