/**
 * Sessions that reach full-feature phase although their set-up was refused: the Login that fails for want of a
 * TargetName has attached its session already (request/login.c:103-120), and a set-up is tried for unattached
 * connections only (request/login.c:281).
 */
module UnsetSessions {
  import opened Bytes
  import opened Lookup
  import opened Pdus
  import opened Negotiation
  import opened Model
  import opened Runs
  import opened SessionSafety

  predicate FinalLoginRequest(e: Event)
  {
    |e.request| >= HEADER && Opcode(e.request) == LOGIN && !Continue(e.request)
  }

  /** A first Login that has everything for a new session but its kind: not Discovery, and no TargetName. */
  predicate HalfLogin(e: Event)
  {
    && FinalLoginRequest(e) && Tsih(e.request) == 0
    && var text := LoginData(e.request);
       Find(text, INITIATOR_NAME).Some? && !IsDiscovery(text) && Find(text, TARGET_NAME).None?
  }

  /** A first Login whose set-up succeeds. */
  predicate WholeLogin(e: Event)
  {
    && FinalLoginRequest(e) && Tsih(e.request) == 0
    && var text := LoginData(e.request);
       Find(text, INITIATOR_NAME).Some? && (IsDiscovery(text) || Find(text, TARGET_NAME).Some?)
  }

  /** The set-up of an unattached connection of a fresh process. */
  lemma SetUpCases(st: State, req: Header)
    requires Sound(st) && !st.conn.attached && KindReadable(st.conn.text, req)
    ensures var (t, status) := SetUp(st, req);
            var named := Find(st.conn.text, INITIATOR_NAME).Some? && Tsih(req) == 0;
            && (t.conn.attached <==> named)
            && (status == SUCCESS <==> named && (IsDiscovery(st.conn.text) || Find(st.conn.text, TARGET_NAME).Some?))
            && (named && status != SUCCESS ==> status == INITIATOR_ERROR)
            && t.out == st.out && t.session.fullFeature == st.session.fullFeature
  {
  }

  lemma FinalLoginPhase(s: State, req: Header)
    requires !s.session.fullFeature
    ensures var t := FinalLogin(s, req).state;
            t.conn.attached == s.conn.attached
            && (t.session.fullFeature <==> Transit(req) && Nsg(req) == 3 && Csg(req) in {0, 1})
  {
  }

  /** The state a Login is processed in: its text negotiated. */
  function Read(st: State, req: Header): State
  {
    Reparametrised(st, Negotiated(LoginData(req)), LoginData(req))
  }

  lemma FinalLoginStep(st: State, e: Event, o: Outcome)
    requires StepOk(st, e) && !InFullFeature(st) && FinalLoginRequest(e) && o == Step(st, e.request, e.reply)
    ensures o == LoginFinished(Read(st, e.request), e.request)
  {
  }

  lemma OtherStep(st: State, e: Event, o: Outcome)
    requires Sound(st) && StepOk(st, e) && !st.session.fullFeature && !FinalLoginRequest(e)
    requires o == Step(st, e.request, e.reply)
    ensures o.state.conn.attached == st.conn.attached && !o.state.session.fullFeature
  {
    GateFrame(st, e.request);
  }

  lemma FirstFinalLogin(s: State, req: Header, o: Outcome)
    requires Sound(s) && !s.conn.attached && LoginReadable(false, s.conn.text, req) && !Continue(req)
    requires o == LoginFinished(s, req)
    ensures var (t, status) := SetUp(s, req);
            && o.state.conn.attached == t.conn.attached
            && (o.state.session.fullFeature
                <==> status == SUCCESS && Transit(req) && Nsg(req) == 3 && Csg(req) in {0, 1})
            && (status != SUCCESS ==> o == Outcome(Emit(t, StatusReply(CopiedHeader(req, LOGIN_RES), status)), false))
  {
    SetUpCases(s, req);
    FinalLoginPhase(SetUp(s, req).0, req);
  }

  /** A Login of an unattached connection: what it attaches, and what it enters. */
  lemma FirstLogin(st: State, e: Event, o: Outcome)
    requires Sound(st) && StepOk(st, e) && !st.conn.attached && o == Step(st, e.request, e.reply)
    ensures o.state.session.fullFeature <==> WholeLogin(e) && CompletingLogin(e)
    ensures o.state.conn.attached <==> WholeLogin(e) || HalfLogin(e)
  {
    if FinalLoginRequest(e) {
      FinalLoginStep(st, e, o);
      SetUpCases(Read(st, e.request), e.request);
      FirstFinalLogin(Read(st, e.request), e.request, o);
    } else {
      OtherStep(st, e, o);
    }
  }

  lemma StatusOf(st: State, t: State, header: seq<byte>, status: int)
    requires |header| == HEADER && t.out == st.out + StatusReply(header, status)
    ensures |Appended(st, t)| == HEADER && Appended(st, t)[36..38] == Int16Bytes(status)
  {
    assert Appended(st, t) == StatusReply(header, status);
    assert StatusReply(header, status)[36..38] == Int16Bytes(status);
  }

  /** The half Login is refused with 0x0200, and the connection is attached all the same. */
  lemma HalfLoginIsRefused(st: State, e: Event, o: Outcome)
    requires Sound(st) && StepOk(st, e) && !st.conn.attached && HalfLogin(e) && o == Step(st, e.request, e.reply)
    ensures !o.terminate && o.state.conn.attached && !o.state.session.fullFeature
    ensures |Appended(st, o.state)| == HEADER && Appended(st, o.state)[36..38] == Int16Bytes(INITIATOR_ERROR)
  {
    FinalLoginStep(st, e, o);
    SetUpCases(Read(st, e.request), e.request);
    FirstFinalLogin(Read(st, e.request), e.request, o);
    StatusOf(st, o.state, CopiedHeader(e.request, LOGIN_RES), INITIATOR_ERROR);
  }

  /** A Login of an attached connection is never set up again: asking for full-feature phase is enough. */
  lemma LaterLogin(st: State, e: Event, o: Outcome)
    requires Sound(st) && StepOk(st, e) && st.conn.attached && !st.session.fullFeature
    requires o == Step(st, e.request, e.reply)
    ensures o.state.conn.attached && (o.state.session.fullFeature <==> CompletingLogin(e))
  {
    if FinalLoginRequest(e) {
      FinalLoginStep(st, e, o);
      FinalLoginPhase(Read(st, e.request), e.request);
    } else {
      OtherStep(st, e, o);
    }
  }

  // Over runs.

  /** In the run, a Login sets the connection's session up. */
  predicate SetUpInRun(st: State, es: seq<Event>)
    requires Admissible(st, es)
    decreases |es|
  {
    es != []
    && var o := Step(st, es[0].request, es[0].reply);
       || (!st.conn.attached && WholeLogin(es[0]))
       || (!o.terminate && SetUpInRun(o.state, es[1..]))
  }

  /** A completing Login comes before the socket closes. */
  predicate CompletedInRun(st: State, es: seq<Event>)
    requires Admissible(st, es)
    decreases |es|
  {
    es != []
    && var o := Step(st, es[0].request, es[0].reply);
       CompletingLogin(es[0]) || (!o.terminate && CompletedInRun(o.state, es[1..]))
  }

  /** The first Login that attaches is a half one, and a completing one follows. */
  predicate HalfThenCompleted(st: State, es: seq<Event>)
    requires Admissible(st, es)
    decreases |es|
  {
    es != []
    && var o := Step(st, es[0].request, es[0].reply);
       && !o.terminate
       && if HalfLogin(es[0]) then CompletedInRun(o.state, es[1..])
          else !WholeLogin(es[0]) && HalfThenCompleted(o.state, es[1..])
  }

  lemma {:induction false} AttachedRun(st: State, es: seq<Event>)
    requires Sound(st) && Admissible(st, es) && st.conn.attached
    ensures !SetUpInRun(st, es)
    ensures Run(st, es).session.fullFeature <==> st.session.fullFeature || CompletedInRun(st, es)
    decreases |es|
  {
    if es != [] {
      var o := Step(st, es[0].request, es[0].reply);
      StepKeepsSound(st, es[0]);
      if st.session.fullFeature {
        FullFeatureStep(st, es[0]);
      } else {
        LaterLogin(st, es[0], o);
      }
      if !o.terminate {
        AttachedRun(o.state, es[1..]);
      }
    }
  }

  /**
   * From an unattached connection on, full-feature phase is reached without any successful set-up exactly by a half
   * Login that attaches first and a completing Login, with or without keys, after it.
   */
  lemma {:induction false} EnteredWithoutSetUpIff(st: State, es: seq<Event>)
    requires Sound(st) && Admissible(st, es) && !st.conn.attached
    ensures Run(st, es).session.fullFeature && !SetUpInRun(st, es) <==> HalfThenCompleted(st, es)
    decreases |es|
  {
    if es != [] {
      var o := Step(st, es[0].request, es[0].reply);
      StepKeepsSound(st, es[0]);
      FirstLogin(st, es[0], o);
      if HalfLogin(es[0]) {
        HalfLoginIsRefused(st, es[0], o);
      }
      if !o.terminate {
        if o.state.conn.attached {
          AttachedRun(o.state, es[1..]);
        } else {
          EnteredWithoutSetUpIff(o.state, es[1..]);
        }
      }
    }
  }
}
