/** Logins, the full-feature phase and the numbering gate over whole runs (iscsi_server.c, request/login.c). */
module SessionSafety {
  import opened Bytes
  import opened Lookup
  import opened Pdus
  import opened Negotiation
  import opened Model
  import opened Runs
  import opened Transfers

  // What every run from a fresh process keeps.

  predicate Sound(st: State)
  {
    && st.Valid()
    && (st.conn.attached ==> st.session.hasTarget && st.session.tsih == 1)
    && (!st.conn.attached ==> st.session.connections == st.session.maxConnections == 0 && !st.session.discovery)
    && (st.session.fullFeature ==> st.conn.attached)
    && st.session.entry.r2tSn == st.session.entry.totalR2tSn == 0
    && (st.target.log != [] ==> st.session.fullFeature && !st.session.discovery)
  }

  /** A Login that is final (C = 0) and asks to enter full-feature phase (T = 1, NSG = 3) from stage 0 or 1. */
  predicate CompletingLogin(e: Event)
  {
    && |e.request| >= HEADER && Opcode(e.request) == LOGIN
    && !Continue(e.request) && Transit(e.request) && Nsg(e.request) == 3 && Csg(e.request) in {0, 1}
  }

  lemma InitSound(params: Params, text: seq<byte>)
    ensures Sound(Init(params, text))
  {
  }

  lemma FullFeatureKeepsSound(st: State, e: Event)
    requires Sound(st) && StepOk(st, e) && st.session.fullFeature
    ensures Sound(FullFeature(st, e.request, e.reply))
  {
    FullFeatureFrame(st, e.request, e.reply);
  }

  lemma SetUpEffect(st: State, req: Header)
    requires Sound(st) && !st.conn.attached && KindReadable(st.conn.text, req)
    ensures var (t, status) := SetUp(st, req);
            && Sound(t) && t.target == st.target && t.conn.params == st.conn.params && !t.session.fullFeature
            && (status == SUCCESS ==> t.conn.attached)
  {
    SetUpFrame(st, req);
  }

  lemma FinalLoginEffect(st: State, req: Header)
    requires Sound(st) && st.conn.attached && !st.session.fullFeature
    requires WithinLimits(st.conn.params) && st.conn.params.maxReceive >= 1
    ensures var t := FinalLogin(st, req).state;
            && Sound(t) && t.target == st.target && t.conn.attached
            && (t.session.fullFeature ==> Transit(req) && Nsg(req) == 3 && Csg(req) in {0, 1})
  {
    FinalLoginKeepsValid(st, req);
  }

  /** What a Login can do to the session. */
  lemma LoginEffect(st: State, req: Header)
    requires Sound(st) && LoginReadable(st.conn.attached, LoginData(req), req) && !st.session.fullFeature
    ensures var t := Login(st, req).state;
            && Sound(t) && (st.conn.attached ==> t.conn.attached) && t.target == st.target
            && (t.session.fullFeature ==> Transit(req) && Nsg(req) == 3 && !Continue(req) && Csg(req) in {0, 1})
  {
    var text := LoginData(req);
    ScanWithinLimits(text, |text|);
    var s := st.(conn := st.conn.(params := Negotiated(text), text := text));
    if !Continue(req) {
      if s.conn.attached {
        FinalLoginEffect(s, req);
      } else {
        SetUpEffect(s, req);
        if SetUp(s, req).1 == SUCCESS {
          FinalLoginEffect(SetUp(s, req).0, req);
        }
      }
    }
  }

  lemma StepKeepsSound(st: State, e: Event)
    requires Sound(st) && StepOk(st, e)
    ensures var o := Step(st, e.request, e.reply);
            && Sound(o.state) && (o.terminate ==> !o.state.session.fullFeature)
            && (o.state.session.fullFeature && !st.session.fullFeature ==> CompletingLogin(e))
  {
    GateFrame(st, e.request);
    var g := st.(session := Gate(st, e.request).1);
    assert Sound(g);
    if Gate(st, e.request).0 {
      if g.conn.attached && g.session.fullFeature {
        FullFeatureKeepsSound(g, e);
      } else if Opcode(e.request) == LOGIN {
        LoginEffect(g, e.request);
      }
    }
  }

  lemma {:induction false} RunKeepsSound(st: State, es: seq<Event>)
    requires Sound(st) && Admissible(st, es)
    ensures Sound(Run(st, es))
    decreases |es|
  {
    if es != [] {
      StepKeepsSound(st, es[0]);
      var o := Step(st, es[0].request, es[0].reply);
      if !o.terminate {
        RunKeepsSound(o.state, es[1..]);
      }
    }
  }

  /** Somewhere in the run a completing Login is accepted: the session enters full-feature phase with it. */
  predicate LoginAccepted(st: State, es: seq<Event>)
    requires Admissible(st, es)
    decreases |es|
  {
    es != []
    && var o := Step(st, es[0].request, es[0].reply);
       || (CompletingLogin(es[0]) && !st.session.fullFeature && o.state.session.fullFeature)
       || (!o.terminate && LoginAccepted(o.state, es[1..]))
  }

  /** Full-feature phase is entered by a completing Login only. */
  lemma {:induction false} EnteredByLogin(st: State, es: seq<Event>)
    requires Sound(st) && Admissible(st, es) && !st.session.fullFeature
    ensures Run(st, es).session.fullFeature ==> LoginAccepted(st, es)
    decreases |es|
  {
    if es != [] {
      StepKeepsSound(st, es[0]);
      var o := Step(st, es[0].request, es[0].reply);
      if !o.state.session.fullFeature && !o.terminate {
        EnteredByLogin(o.state, es[1..]);
      }
    }
  }

  /**
   * In every run of a fresh process: a command has reached the device only if the session is in full-feature phase
   * and is not a discovery session, and then a completing Login was accepted; every attached session was created
   * and has its target; no follow-up R2T is ever due; and in full-feature phase InitialR2T is on.
   */
  lemma CommandsNeedALogin(params: Params, text: seq<byte>, es: seq<Event>)
    requires Admissible(Init(params, text), es)
    ensures var st := Run(Init(params, text), es);
            && (st.target.log != [] ==> st.session.fullFeature && !st.session.discovery)
            && (st.session.fullFeature ==> st.conn.attached && LoginAccepted(Init(params, text), es))
            && (st.conn.attached ==> st.session.hasTarget && st.session.tsih == 1)
            && !(st.session.entry.r2tSn < st.session.entry.totalR2tSn)
            && (st.session.fullFeature ==> st.conn.params.initialR2t)
  {
    InitSound(params, text);
    RunKeepsSound(Init(params, text), es);
    EnteredByLogin(Init(params, text), es);
  }

  /** A connection without a session is never attached by a Login that names one: it is refused as full. */
  lemma NonZeroTsihIsRefused(st: State, e: Event)
    requires Sound(st) && StepOk(st, e) && !st.conn.attached
    requires Opcode(e.request) == LOGIN && !Continue(e.request) && Tsih(e.request) != 0
    ensures var o := Step(st, e.request, e.reply);
            var named := Find(LoginData(e.request), INITIATOR_NAME).Some?;
            && !o.terminate && !o.state.conn.attached && o.state.session == st.session
            && |Appended(st, o.state)| == HEADER
            && Appended(st, o.state)[36..38] == Int16Bytes(if named then TOO_MANY_CONNECTION else INITIATOR_ERROR)
  {
    var status := if Find(LoginData(e.request), INITIATOR_NAME).Some? then TOO_MANY_CONNECTION else INITIATOR_ERROR;
    var reply := StatusReply(CopiedHeader(e.request, LOGIN_RES), status);
    assert Appended(st, Step(st, e.request, e.reply).state) == reply;
    assert reply[36..38] == Int16Bytes(status);
  }

  // Once in full-feature phase.

  predicate SameNegotiation(s: State, t: State)
  {
    && t.conn.attached == s.conn.attached && t.conn.connectionId == s.conn.connectionId
    && t.conn.params == s.conn.params && t.conn.text == s.conn.text
    && t.session.fullFeature == s.session.fullFeature && t.session.discovery == s.session.discovery
    && t.session.tsih == s.session.tsih && t.session.hasTarget == s.session.hasTarget
  }

  lemma FullFeatureStep(st: State, e: Event)
    requires Sound(st) && StepOk(st, e) && st.session.fullFeature
    ensures var o := Step(st, e.request, e.reply);
            !o.terminate && Sound(o.state) && SameNegotiation(st, o.state)
  {
    StepKeepsSound(st, e);
    StaysLoggedIn(st, e);
    GateFrame(st, e.request);
    if Gate(st, e.request).0 {
      FullFeatureFrame(st.(session := Gate(st, e.request).1), e.request, e.reply);
    }
  }

  /** Full-feature phase is never left, and in it neither the kind of session nor any negotiated parameter changes. */
  lemma {:induction false} NegotiationIsFrozen(st: State, es: seq<Event>)
    requires Sound(st) && Admissible(st, es) && st.session.fullFeature
    ensures Sound(Run(st, es)) && SameNegotiation(st, Run(st, es))
    decreases |es|
  {
    if es != [] {
      FullFeatureStep(st, es[0]);
      NegotiationIsFrozen(Step(st, es[0].request, es[0].reply).state, es[1..]);
    }
  }

  // The numbering gate.

  predicate AllFriendly(es: seq<Event>, sn: int)
  {
    forall i :: 0 <= i < |es| ==> |es[i].request| >= HEADER && GateFriendly(es[i].request, sn)
  }

  predicate GateReady(st: State, sn: int)
  {
    st.conn.attached && (st.session.numberingStarted ==> st.session.expCmdSn == sn)
  }

  lemma GatePassesFriendly(st: State, req: Header, sn: int)
    requires GateReady(st, sn) && st.Valid() && GateFriendly(req, sn)
    ensures var (pass, s) := Gate(st, req);
            && pass && GateReady(st.(session := s), sn) && st.(session := s).Valid()
            && (st.session.numberingStarted ==> s.numberingStarted)
            && (!s.numberingStarted ==> s.expCmdSn == st.session.expCmdSn)
            && s.fullFeature == st.session.fullFeature
  {
  }

  /** Past the gate, nothing an attached connection is asked touches the gate. */
  lemma GateLeftAlone(g: State, e: Event, o: Outcome)
    requires g.Valid() && g.conn.attached && Acceptable(g, e.request) && e.reply.Valid()
    requires if g.session.fullFeature then o == Outcome(FullFeature(g, e.request, e.reply), false)
             else if Opcode(e.request) == LOGIN then o == Login(g, e.request)
             else o == Outcome(LoginRejected(g), false)
    ensures o.state.conn.attached && o.state.session.numberingStarted == g.session.numberingStarted
    ensures o.state.session.expCmdSn == g.session.expCmdSn
  {
    if g.session.fullFeature {
      FullFeatureFrame(g, e.request, e.reply);
    } else if Opcode(e.request) == LOGIN {
      LoginLeavesGate(g, e.request, o);
    }
  }

  lemma LoginLeavesGate(g: State, req: Header, o: Outcome)
    requires g.conn.attached && LoginReadable(true, LoginData(req), req) && o == Login(g, req)
    ensures o.state.conn.attached && o.state.session.numberingStarted == g.session.numberingStarted
    ensures o.state.session.expCmdSn == g.session.expCmdSn
  {
  }

  lemma GateStep(st: State, e: Event, sn: int)
    requires GateReady(st, sn) && StepOk(st, e) && GateFriendly(e.request, sn)
    ensures var o := Step(st, e.request, e.reply);
            && Gate(st, e.request).0 && GateReady(o.state, sn)
            && (st.session.numberingStarted ==> o.state.session.numberingStarted)
            && (!o.state.session.numberingStarted ==> o.state.session.expCmdSn == st.session.expCmdSn)
  {
    GatePassesFriendly(st, e.request, sn);
    GateLeftAlone(st.(session := Gate(st, e.request).1), e, Step(st, e.request, e.reply));
  }

  predicate Ignored(st: State, e: Event)
    requires StepOk(st, e)
  {
    !Gate(st, e.request).0
  }

  /** No request of the run is ignored. */
  predicate NoneIgnored(st: State, es: seq<Event>)
    requires Admissible(st, es)
    decreases |es|
  {
    es == [] || (!Ignored(st, es[0])
                 && var o := Step(st, es[0].request, es[0].reply);
                    o.terminate || NoneIgnored(o.state, es[1..]))
  }

  /**
   * When the requests without a CmdSN of their own all show one value there, the gate ignores nothing, and the
   * session's ExpCmdSN is what it was until the gate is first used and that value from then on.
   */
  lemma {:induction false} GateIsTransparent(st: State, es: seq<Event>, sn: int)
    requires GateReady(st, sn) && Admissible(st, es) && AllFriendly(es, sn)
    ensures NoneIgnored(st, es) && GateReady(Run(st, es), sn)
    ensures st.session.numberingStarted ==> Run(st, es).session.numberingStarted
    ensures Run(st, es).session.expCmdSn
            == if Run(st, es).session.numberingStarted then sn else st.session.expCmdSn
    decreases |es|
  {
    if es != [] {
      GateStep(st, es[0], sn);
      var o := Step(st, es[0].request, es[0].reply);
      if !o.terminate {
        GateIsTransparent(o.state, es[1..], sn);
      }
    }
  }
}
