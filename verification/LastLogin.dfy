/**
 * Whose parameters a session has: every Login starts again from the defaults (iscsi_connection_parameter.c:111-119),
 * so those of the Login that completes, and nothing an earlier one negotiated.
 */
module LastLogin {
  import opened Bytes
  import opened Lookup
  import opened Pdus
  import opened Negotiation
  import opened GeneratedText
  import opened Model
  import opened Runs
  import opened SessionSafety
  import opened UnsetSessions

  /** The request of the run with which full-feature phase is entered. */
  function EnteringLogin(st: State, es: seq<Event>): (e: Option<Event>)
    requires Admissible(st, es)
    ensures e.Some? ==> |e.value.request| >= HEADER
    decreases |es|
  {
    if es == [] then None
    else
      var o := Step(st, es[0].request, es[0].reply);
      if !st.session.fullFeature && o.state.session.fullFeature then Some(es[0])
      else if o.terminate then None
      else EnteringLogin(o.state, es[1..])
  }

  /** What the parameters are after a Login with this text: those it negotiates, taken over from the answer. */
  function ParametersOf(req: Header): Params
  {
    var p := Negotiated(LoginData(req));
    if Csg(req) == 1 then Fold(Updated, p, PrintedPairs(KEYS, p, 10)) else p
  }

  lemma SetUpKeepsParams(s: State, req: Header)
    requires KindReadable(s.conn.text, req)
    ensures SetUp(s, req).0.conn.params == s.conn.params
    ensures SetUp(s, req).0.session.fullFeature == s.session.fullFeature
  {
  }

  lemma FinalLoginParams(s: State, req: Header)
    requires Csg(req) in {0, 1} && s.conn.params == Negotiated(LoginData(req))
    ensures FinalLogin(s, req).state.conn.params == ParametersOf(req)
  {
  }

  lemma EnteringStep(st: State, e: Event, o: Outcome)
    requires Sound(st) && StepOk(st, e) && !st.session.fullFeature && o == Step(st, e.request, e.reply)
    requires o.state.session.fullFeature
    ensures CompletingLogin(e) && !o.terminate && o.state.conn.params == ParametersOf(e.request)
  {
    StepKeepsSound(st, e);
    FinalLoginStep(st, e, o);
    FinishedParams(Read(st, e.request), e.request);
  }

  lemma FinishedParams(s: State, req: Header)
    requires LoginReadable(s.conn.attached, s.conn.text, req) && !Continue(req) && Csg(req) in {0, 1}
    requires s.conn.params == Negotiated(LoginData(req)) && !s.session.fullFeature
    requires LoginFinished(s, req).state.session.fullFeature
    ensures !LoginFinished(s, req).terminate && LoginFinished(s, req).state.conn.params == ParametersOf(req)
  {
    if s.conn.attached {
      FinalLoginParams(s, req);
    } else {
      SetUpKeepsParams(s, req);
      FinalLoginParams(SetUp(s, req).0, req);
    }
  }

  /**
   * Over every run that starts outside full-feature phase: the phase is entered exactly by the entering Login, which
   * is a completing one, and the parameters are those of its text alone from then on.
   */
  lemma {:induction false} ParametersAreTheLastLogins(st: State, es: seq<Event>)
    requires Sound(st) && Admissible(st, es) && !st.session.fullFeature
    ensures var e := EnteringLogin(st, es);
            && (Run(st, es).session.fullFeature <==> e.Some?)
            && (e.Some? ==> CompletingLogin(e.value) && Run(st, es).conn.params == ParametersOf(e.value.request))
    decreases |es|
  {
    if es != [] {
      var o := Step(st, es[0].request, es[0].reply);
      StepKeepsSound(st, es[0]);
      if o.state.session.fullFeature {
        EnteringStep(st, es[0], o);
        NegotiationIsFrozen(o.state, es[1..]);
      } else if !o.terminate {
        ParametersAreTheLastLogins(o.state, es[1..]);
      }
    }
  }

  // What becomes of the keys of earlier Logins.

  /** The texts of the Logins processed before full-feature phase is entered. */
  function EarlierTexts(st: State, es: seq<Event>): seq<seq<byte>>
    requires Admissible(st, es)
    decreases |es|
  {
    if es == [] then []
    else
      var o := Step(st, es[0].request, es[0].reply);
      if (!st.session.fullFeature && o.state.session.fullFeature) || o.terminate then []
      else (if Opcode(es[0].request) == LOGIN then [LoginData(es[0].request)] else []) + EarlierTexts(o.state, es[1..])
  }

  function Wires(texts: seq<seq<Pair>>): (ws: seq<seq<byte>>)
    ensures |ws| == |texts|
  {
    seq(|texts|, i requires 0 <= i < |texts| => Wire(texts[i]))
  }

  function JoinedPairs(texts: seq<seq<Pair>>): seq<Pair>
  {
    if texts == [] then [] else texts[0] + JoinedPairs(texts[1..])
  }

  /** The parameter with the j-th name. */
  predicate Agree(p: Params, q: Params, j: nat)
  {
    match j
    case 0 => p.maxConnections == q.maxConnections
    case 1 => p.initialR2t == q.initialR2t
    case 2 => p.immediateData == q.immediateData
    case 3 => p.maxBurst == q.maxBurst
    case 4 => p.firstBurst == q.firstBurst
    case 5 => p.pduInOrder == q.pduInOrder
    case 6 => p.sequenceInOrder == q.sequenceInOrder
    case 7 => p.time2Wait == q.time2Wait
    case 8 => p.time2Retain == q.time2Retain
    case 9 => p.maxOutstandingR2t == q.maxOutstandingR2t
    case _ => p.maxReceive == q.maxReceive
  }

  lemma AgreeOnAll(p: Params, q: Params)
    ensures p == q <==> forall j: nat :: j < 11 ==> Agree(p, q, j)
  {
    if forall j: nat :: j < 11 ==> Agree(p, q, j) {
      assert Agree(p, q, 0) && Agree(p, q, 1) && Agree(p, q, 2) && Agree(p, q, 3) && Agree(p, q, 4) && Agree(p, q, 5);
      assert Agree(p, q, 6) && Agree(p, q, 7) && Agree(p, q, 8) && Agree(p, q, 9) && Agree(p, q, 10);
    }
  }

  /** Some pair of the list sets the j-th parameter. */
  predicate Named(ks: Keys, kvs: seq<Pair>, j: nat)
  {
    exists i :: 0 <= i < |kvs| && ks.Name(j) <= kvs[i].key
  }

  lemma UpdateForgets(ks: Keys, p: Params, q: Params, key: seq<byte>, value: seq<byte>, j: nat)
    requires j < 11
    ensures Agree(UpdatedBy(ks, p, key, value), UpdatedBy(ks, q, key, value), j)
            <==> Agree(p, q, j) || ks.Name(j) <= key
  {
  }

  lemma NamedCons(ks: Keys, kvs: seq<Pair>, j: nat)
    requires kvs != []
    ensures Named(ks, kvs, j) <==> ks.Name(j) <= kvs[0].key || Named(ks, kvs[1..], j)
  {
    if i :| 0 <= i < |kvs| && ks.Name(j) <= kvs[i].key {
      assert i > 0 ==> kvs[1..][i - 1] == kvs[i];
    }
    if i :| 0 <= i < |kvs[1..]| && ks.Name(j) <= kvs[1..][i].key {
      assert kvs[i + 1] == kvs[1..][i];
    }
  }

  /** A list of pairs makes a parameter forget what it was exactly if it names it. */
  lemma {:induction false} FoldForgets(update: Update<Params>, ks: Keys, p: Params, q: Params, kvs: seq<Pair>, j: nat)
    requires UpdatesBy(update, ks) && j < 11
    ensures Agree(Fold(update, p, kvs), Fold(update, q, kvs), j) <==> Agree(p, q, j) || Named(ks, kvs, j)
    decreases |kvs|
  {
    if kvs != [] {
      var k, v := kvs[0].key, kvs[0].value;
      UpdateForgets(ks, p, q, k, v, j);
      FoldForgets(update, ks, update(p, k, v), update(q, k, v), kvs[1..], j);
      NamedCons(ks, kvs, j);
    }
  }

  lemma {:induction false} FoldAppend<P>(update: Update<P>, init: P, a: seq<Pair>, b: seq<Pair>)
    ensures Fold(update, init, a + b) == Fold(update, Fold(update, init, a), b)
    decreases |a|
  {
    if a == [] {
      assert a + b == b;
    } else {
      assert (a + b)[0] == a[0] && (a + b)[1..] == a[1..] + b;
      FoldAppend(update, update(init, a[0].key, a[0].value), a[1..], b);
    }
  }

  /** Whatever the earlier pairs a moved off its default, the later pairs b name again. */
  predicate NamedAgain(a: seq<Pair>, b: seq<Pair>)
  {
    forall j: nat :: j < 11 ==> Agree(Fold(Updated, DEFAULTS, a), DEFAULTS, j) || Named(KEYS, b, j)
  }

  lemma ForgottenIff(a: seq<Pair>, b: seq<Pair>)
    ensures Fold(Updated, DEFAULTS, b) == Fold(Updated, DEFAULTS, a + b) <==> NamedAgain(a, b)
  {
    var p, q := Fold(Updated, DEFAULTS, a), DEFAULTS;
    UpdatedUpdatesByKeys();
    FoldAppend(Updated, DEFAULTS, a, b);
    AgreeOnAll(Fold(Updated, p, b), Fold(Updated, q, b));
    forall j: nat | j < 11
      ensures Agree(Fold(Updated, p, b), Fold(Updated, q, b), j) <==> Agree(p, q, j) || Named(KEYS, b, j)
    {
      FoldForgets(Updated, KEYS, p, q, b, j);
    }
  }

  /**
   * A negotiation spread over several Logins of a run: the parameters are what all the Logins together negotiate
   * exactly when the completing one names again each parameter that the earlier ones moved off its default.
   */
  lemma EarlierKeysCountIff(st: State, es: seq<Event>, earlier: seq<seq<Pair>>, last: seq<Pair>)
    requires Sound(st) && Admissible(st, es) && !st.session.fullFeature && EnteringLogin(st, es).Some?
    requires EarlierTexts(st, es) == Wires(earlier)
    requires LoginData(EnteringLogin(st, es).value.request) == Wire(last) && Harmless(KEYS, last)
    ensures Run(st, es).conn.params == Fold(Updated, DEFAULTS, last)
    ensures Run(st, es).conn.params == Fold(Updated, DEFAULTS, JoinedPairs(earlier) + last)
            <==> NamedAgain(JoinedPairs(earlier), last)
  {
    ParametersAreTheLastLogins(st, es);
    NegotiationIsStable(last);
    ForgottenIff(JoinedPairs(earlier), last);
  }
}
