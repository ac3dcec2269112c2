/**
 * What the device sees below the end of the immediate data: the entry keeps its old bytes there (request/cmd.c:99-107,
 * request/data_out.c:41-45, iscsi_session.c:59-64).
 */
module StaleEntry {
  import opened Bytes
  import opened Pdus
  import opened Model
  import opened Runs
  import opened Transfers
  import opened EndToEndWrite

  /** No answer brings a byte below lo. */
  predicate AnswersFrom(es: seq<Event>, w: Write, lo: nat)
  {
    forall i :: 0 <= i < |es| && Answer(es[i], w) ==> BufferOffset(es[i].request) >= lo
  }

  /** The first lo bytes of the entry. */
  function Front(st: State, lo: nat): seq<byte>
  {
    if lo <= |st.session.entry.data| then st.session.entry.data[..lo] else []
  }

  lemma StepKeepsFront(st: State, w: Write, e: Event, lo: nat)
    requires InProgress(st, w) && StepOk(st, e) && lo <= MEMORY_SIZE && (Answer(e, w) || Bystander(e, w))
    requires Answer(e, w) ==> BufferOffset(e.request) >= lo
    ensures var t := Step(st, e.request, e.reply).state;
            InProgress(t, w) && Front(t, lo) == Front(st, lo)
  {
    if Answer(e, w) {
      AnswerStep(st, w, e, 0);
    } else {
      BystanderStep(st, w, e, 0);
    }
  }

  lemma {:induction false} RunKeepsFront(st: State, w: Write, es: seq<Event>, lo: nat)
    requires InProgress(st, w) && Admissible(st, es) && AllFit(es, w) && AnswersFrom(es, w, lo) && lo <= MEMORY_SIZE
    ensures InProgress(Run(st, es), w) && Front(Run(st, es), lo) == Front(st, lo)
    decreases |es|
  {
    if es != [] {
      StepKeepsFront(st, w, es[0], lo);
      LoggedInStep(st, es[0]);
      RunKeepsFront(Step(st, es[0].request, es[0].reply).state, w, es[1..], lo);
    }
  }

  lemma LoggedInStep(st: State, e: Event)
    requires StepOk(st, e) && InFullFeature(st)
    ensures !Step(st, e.request, e.reply).terminate
  {
    StaysLoggedIn(st, e);
  }

  /** The single execution starts with these bytes. */
  predicate Sees(fires: seq<Execution>, front: seq<byte>)
  {
    |fires| == 1 && front <= fires[0].buffer
  }

  lemma LastAnswerSees(st: State, w: Write, e: Event, n: nat, lo: nat)
    requires InProgress(st, w) && StepOk(st, e) && Last(e, w) && n <= |st.target.log| && lo <= w.total
    requires BufferOffset(e.request) >= lo && Fires(st.target.log, n, w.tag) == []
    ensures var o := Step(st, e.request, e.reply);
            && !o.terminate && InProgress(o.state, w) && n <= |o.state.target.log|
            && Sees(Fires(o.state.target.log, n, w.tag), Front(st, lo))
  {
    AnswerStep(st, w, e, n);
  }

  lemma SeenFromLast(st: State, w: Write, es: seq<Event>, n: nat, lo: nat)
    requires InProgress(st, w) && Admissible(st, es) && AllFit(es, w) && n <= |st.target.log| && lo <= w.total
    requires es != [] && Last(es[0], w) && forall i :: 0 < i < |es| ==> !Last(es[i], w)
    requires BufferOffset(es[0].request) >= lo && Fires(st.target.log, n, w.tag) == []
    ensures Sees(Fires(Run(st, es).target.log, n, w.tag), Front(st, lo))
  {
    LastAnswerSees(st, w, es[0], n, lo);
    QuietRun(Step(st, es[0].request, es[0].reply).state, w, es[1..], n);
  }

  lemma SeenFromStart(st: State, w: Write, es: seq<Event>, m: nat, lo: nat)
    requires InProgress(st, w) && Admissible(st, es) && AllFit(es, w) && lo <= w.total <= MEMORY_SIZE
    requires m < |es| && Last(es[m], w) && (forall i :: 0 <= i < |es| && i != m ==> !Last(es[i], w))
    requires AnswersFrom(es, w, lo)
    ensures Sees(Fires(Run(st, es).target.log, |st.target.log|, w.tag), Front(st, lo))
  {
    SplitRun(st, es, m);
    BeforeLast(st, w, es, m, lo);
    SeenFromLast(Run(st, es[..m]), w, es[m..], |st.target.log|, lo);
  }

  lemma BeforeLast(st: State, w: Write, es: seq<Event>, m: nat, lo: nat)
    requires InProgress(st, w) && Admissible(st, es) && AllFit(es, w) && lo <= w.total <= MEMORY_SIZE
    requires m <= |es| && (forall i :: 0 <= i < m ==> !Last(es[i], w)) && AnswersFrom(es, w, lo)
    ensures Admissible(st, es[..m])
    ensures var s := Run(st, es[..m]);
            && InProgress(s, w) && Front(s, lo) == Front(st, lo)
            && |st.target.log| <= |s.target.log| && Fires(s.target.log, |st.target.log|, w.tag) == []
  {
    QuietPrefix(st, w, es, m, |st.target.log|);
    RunKeepsFront(st, w, es[..m], lo);
    NothingFiredYet(st.target.log, w.tag);
  }

  lemma NothingFiredYet(log: seq<Execution>, tag: int)
    ensures Fires(log, |log|, tag) == []
  {
  }

  lemma FromCons(es: seq<Event>, w: Write, lo: nat, next: nat)
    requires es != [] && AnswersFrom(es[1..], w, next) && lo <= next
    requires Answer(es[0], w) ==> BufferOffset(es[0].request) >= lo
    ensures AnswersFrom(es, w, lo)
  {
    forall i | 0 <= i < |es| && Answer(es[i], w) ensures BufferOffset(es[i].request) >= lo {
      assert i > 0 ==> es[i] == es[1..][i - 1];
    }
  }

  lemma {:induction false} ContiguousFrom(es: seq<Event>, w: Write, lo: nat, hi: int)
    requires Contiguous(Answers(es, w), lo, hi)
    ensures AnswersFrom(es, w, lo)
  {
    if es != [] {
      var rs := Answers(es[1..], w);
      if Answer(es[0], w) {
        var r := RangeOf(es[0]);
        ContiguousTail(r, rs, lo, hi);
        ContiguousFrom(es[1..], w, lo + r.length, hi);
        FromCons(es, w, lo, lo + r.length);
      } else {
        assert Answers(es, w) == rs;
        ContiguousFrom(es[1..], w, lo, hi);
        FromCons(es, w, lo, lo);
      }
    }
  }

  /**
   * The rest of what the device sees: below the end of the immediate data the buffer holds whatever the transfer entry
   * held before the command, possibly data of an earlier write.
   */
  lemma DeviceSeesStaleFront(st: State, cmd: Event, data: seq<byte>, sn: int, es: seq<Event>)
    requires Exchange(st, cmd, data, sn, es) && Allowed(st, cmd)
    ensures Sees(Executions(st, cmd, es), Front(st, DataLength(cmd.request)))
  {
    var t, w := Started(st, cmd), WriteOf(st, cmd, data, sn);
    var dsl := DataLength(cmd.request);
    ExchangeBegins(st, cmd, data, sn, es, t, w);
    WholePlanContiguous(st.conn.params, cmd.request);
    AnsweringIsContiguous(Answers(es, w), PlanOf(st.conn.params, cmd.request), dsl, w.total);
    ContiguousFrom(es, w, dsl, w.total);
    var m := FindFinalAnswer(es, w, dsl);
    SeenFromStart(t, w, es, m, dsl);
  }

  /** The device sees the initiator's whole transfer. */
  predicate Intact(st: State, cmd: Event, data: seq<byte>, es: seq<Event>)
    requires StepOk(st, cmd) && Admissible(Started(st, cmd), es)
  {
    |Executions(st, cmd, es)| == 1 && data <= Executions(st, cmd, es)[0].buffer
  }

  lemma FrontAndRest(buffer: seq<byte>, data: seq<byte>, front: seq<byte>)
    requires |front| <= |data| <= |buffer| && front <= buffer && buffer[|front|..|data|] == data[|front|..]
    ensures data <= buffer <==> front == data[..|front|]
  {
    var lo := |front|;
    assert buffer[..lo] == front;
    if front == data[..lo] {
      assert buffer[..|data|] == buffer[..lo] + buffer[lo..|data|];
      assert data == data[..lo] + data[lo..];
    }
    if data <= buffer {
      assert data[..lo] == buffer[..|data|][..lo] == buffer[..lo];
    }
  }

  /** It does exactly when the entry happened to hold the immediate data already. */
  lemma IntactIff(st: State, cmd: Event, data: seq<byte>, sn: int, es: seq<Event>)
    requires Exchange(st, cmd, data, sn, es) && Allowed(st, cmd)
    ensures Intact(st, cmd, data, es)
            <==> Front(st, DataLength(cmd.request)) == data[..DataLength(cmd.request)]
  {
    DeviceSees(st, cmd, data, sn, es);
    SeenIntactIff(Executions(st, cmd, es), WriteOf(st, cmd, data, sn), Front(st, DataLength(cmd.request)));
  }

  /** All the device sees of a write: stale bytes in front, then the initiator's. */
  lemma DeviceSees(st: State, cmd: Event, data: seq<byte>, sn: int, es: seq<Event>)
    requires Exchange(st, cmd, data, sn, es) && Allowed(st, cmd)
    ensures Sees(Executions(st, cmd, es), Front(st, DataLength(cmd.request)))
    ensures FiredOnce(Executions(st, cmd, es), WriteOf(st, cmd, data, sn), DataLength(cmd.request))
    ensures |Front(st, DataLength(cmd.request))| == DataLength(cmd.request) <= |data|
  {
    var m := WriteReachesTheDevice(st, cmd, data, sn, es);
    DeviceSeesStaleFront(st, cmd, data, sn, es);
  }

  lemma SeenIntactIff(fires: seq<Execution>, w: Write, front: seq<byte>)
    requires |front| <= w.total == |w.data| && FiredOnce(fires, w, |front|) && Sees(fires, front)
    ensures w.data <= fires[0].buffer <==> front == w.data[..|front|]
  {
    assert w.data[|front|..w.total] == w.data[|front|..];
    FrontAndRest(fires[0].buffer, w.data, front);
  }
}
