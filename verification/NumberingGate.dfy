/** The numbering gate: what a refused request does not do, and exactly when none is refused (iscsi_server.c:16-54). */
module NumberingGate {
  import opened Bytes
  import opened Pdus
  import opened Model
  import opened Runs
  import opened SessionSafety
  import opened Discovery

  /** Requests the gate looks at: all but NOP-Out, SCSI command, Login, Text and Logout. */
  predicate Gated(e: Event)
  {
    |e.request| >= HEADER && Opcode(e.request) !in {0x00, 0x01, 0x03, 0x04, 0x06}
  }

  /** What such a request shows in bytes 24 to 27. */
  function Shown(e: Event): int
    requires |e.request| >= HEADER
  {
    Int32At(e.request, 24)
  }

  /** With the gate in use, a gated request that shows another value changes nothing at all. */
  lemma RefusedChangesNothing(st: State, e: Event)
    requires StepOk(st, e) && st.conn.attached && st.session.numberingStarted
    requires Gated(e) && Shown(e) != st.session.expCmdSn
    ensures Step(st, e.request, e.reply) == Outcome(st, false)
  {
  }

  /** What a request that passes does to the gate: the first gated one sets the value, a Reject may raise it. */
  lemma PassingSetsGate(st: State, e: Event)
    requires StepOk(st, e) && st.conn.attached && Passes(st, e.request)
    ensures var s, v := Step(st, e.request, e.reply).state.session, Shown(e);
            if !Gated(e) then
              s.numberingStarted == st.session.numberingStarted && s.expCmdSn == st.session.expCmdSn
            else
              && s.numberingStarted
              && s.expCmdSn == if Opcode(e.request) == 0x3f && e.request[0] < 128 then Int32(v + 1) else v
  {
    PassesGate(st, e.request);
    GateFrame(st, e.request);
    GateLeftAlone(st.(session := Gate(st, e.request).1), e, Step(st, e.request, e.reply));
    TopBit(e.request[0]);
    assert Advance(Shown(e), 1) == Int32(Shown(e) + 1);
  }

  predicate NoRejects(es: seq<Event>)
  {
    forall i :: 0 <= i < |es| ==> |es[i].request| >= HEADER && Opcode(es[i].request) != 0x3f
  }

  /** All gated requests show this value. */
  predicate AllShow(es: seq<Event>, v: int)
  {
    forall i :: 0 <= i < |es| && Gated(es[i]) ==> Shown(es[i]) == v
  }

  /** The value they have to show: the gate's if it is in use, the first one's otherwise. */
  function Due(st: State, es: seq<Event>): int
  {
    if st.session.numberingStarted || es == [] then st.session.expCmdSn
    else if Gated(es[0]) then Shown(es[0])
    else Due(st, es[1..])
  }

  lemma DueDepends(s: State, t: State, es: seq<Event>)
    requires s.session.numberingStarted == t.session.numberingStarted && s.session.expCmdSn == t.session.expCmdSn
    ensures Due(s, es) == Due(t, es)
    decreases |es|
  {
    if es != [] {
      DueDepends(s, t, es[1..]);
    }
  }

  lemma ShowCons(es: seq<Event>, v: int)
    requires es != []
    ensures AllShow(es, v) <==> (Gated(es[0]) ==> Shown(es[0]) == v) && AllShow(es[1..], v)
  {
    if AllShow(es, v) {
      assert forall i :: 0 <= i < |es[1..]| ==> es[1..][i] == es[i + 1];
    }
    if (Gated(es[0]) ==> Shown(es[0]) == v) && AllShow(es[1..], v) {
      forall i | 0 <= i < |es| && Gated(es[i]) ensures Shown(es[i]) == v {
        assert i > 0 ==> es[i] == es[1..][i - 1];
      }
    }
  }

  /** A request that is not ignored passes, and what is due stays due. */
  lemma DueStep(st: State, es: seq<Event>, t: State)
    requires es != [] && StepOk(st, es[0]) && st.conn.attached && NoRejects(es) && Passes(st, es[0].request)
    requires t == Step(st, es[0].request, es[0].reply).state
    ensures Due(t, es[1..]) == Due(st, es)
    ensures Gated(es[0]) ==> Shown(es[0]) == Due(st, es)
  {
    PassingSetsGate(st, es[0]);
    if Gated(es[0]) {
      assert t.session.numberingStarted && t.session.expCmdSn == Shown(es[0]);
    } else {
      DueDepends(st, t, es[1..]);
    }
  }

  lemma AttachedStep(st: State, e: Event)
    requires StepOk(st, e) && st.conn.attached
    ensures Step(st, e.request, e.reply).state.conn.attached
  {
    GateFrame(st, e.request);
    if Gate(st, e.request).0 {
      GateLeftAlone(st.(session := Gate(st, e.request).1), e, Step(st, e.request, e.reply));
    }
  }

  lemma IgnoredIff(st: State, e: Event)
    requires StepOk(st, e) && st.conn.attached
    ensures Ignored(st, e) <==> !Passes(st, e.request)
  {
    PassesGate(st, e.request);
  }

  /**
   * Over every run of an attached connection that stays open and has no Reject request: none is ignored exactly when
   * all gated requests show one value, the gate's if it is in use at the start and the first one's otherwise.
   */
  lemma {:induction false} NoneIgnoredIff(st: State, es: seq<Event>)
    requires st.conn.attached && Admissible(st, es) && Open(st, es) && NoRejects(es)
    ensures NoneIgnored(st, es) <==> AllShow(es, Due(st, es))
    decreases |es|
  {
    if es != [] {
      var o := Step(st, es[0].request, es[0].reply);
      IgnoredIff(st, es[0]);
      ShowCons(es, Due(st, es));
      if Passes(st, es[0].request) {
        DueStep(st, es, o.state);
        AttachedStep(st, es[0]);
        NoneIgnoredIff(o.state, es[1..]);
      } else {
        assert Due(st, es) == st.session.expCmdSn;
      }
    }
  }
}
