/** A login PDU by PDU: the text an initiator sends, its bytes, and the state a fresh process reaches with it. */
module ConcreteLogin {
  import opened Bytes
  import opened Decimals
  import opened Lookup
  import opened Pdus
  import opened Negotiation
  import opened GeneratedText
  import opened LoginEndToEnd
  import opened Model
  import opened Runs
  import opened Tags
  import opened EndToEndWrite
  import opened FreshProcess

  const ME := Ascii("me")
  const NORMAL := Ascii("Normal")
  const YOU := Ascii("you")

  /** The names of a login but TargetName. */
  function KindPairs(kind: seq<byte>): (kvs: seq<Pair>)
    ensures |kvs| == 2
  {
    [Pair(INITIATOR_NAME, ME), Pair(SESSION_TYPE, kind)]
  }

  function HalfPairs(): (kvs: seq<Pair>)
    ensures |kvs| == 2
  {
    KindPairs(NORMAL)
  }

  /** The names every login of a normal session gives, then `more`. */
  function LoginPairs(more: seq<Pair>): (kvs: seq<Pair>)
    ensures |kvs| == 3 + |more|
  {
    HalfPairs() + [Pair(TARGET_NAME, YOU)] + more
  }

  predicate AllSearchable(kvs: seq<Pair>)
  {
    forall i :: 0 <= i < |kvs| ==> Searchable(kvs[i])
  }

  lemma PlainPair(kv: Pair)
    requires Plain(kv.key) && Plain(kv.value) && kv.key != []
    ensures Searchable(kv) && Scannable(kv)
  {
  }

  lemma InitiatorPlain()
    ensures Searchable(LoginPairs([])[0]) && Scannable(LoginPairs([])[0])
  {
    AsciiPlain("InitiatorName");
    AsciiPlain("me");
    PlainPair(Pair(INITIATOR_NAME, ME));
  }

  lemma SessionTypePlain()
    ensures Searchable(LoginPairs([])[1]) && Scannable(LoginPairs([])[1])
  {
    AsciiPlain("SessionType");
    AsciiPlain("Normal");
    PlainPair(Pair(SESSION_TYPE, NORMAL));
  }

  lemma TargetPlain()
    ensures Searchable(LoginPairs([])[2]) && Scannable(LoginPairs([])[2])
  {
    AsciiPlain("TargetName");
    AsciiPlain("you");
    PlainPair(Pair(TARGET_NAME, YOU));
  }

  lemma NamesPlain()
    ensures Searchable(LoginPairs([])[0]) && Searchable(LoginPairs([])[1]) && Searchable(LoginPairs([])[2])
    ensures Scannable(LoginPairs([])[0]) && Scannable(LoginPairs([])[1]) && Scannable(LoginPairs([])[2])
  {
    InitiatorPlain();
    SessionTypePlain();
    TargetPlain();
  }

  lemma LoginPairsSearchable(more: seq<Pair>)
    requires AllSearchable(more)
    ensures AllSearchable(LoginPairs(more))
  {
    NamesPlain();
    var kvs := LoginPairs(more);
    forall i | 0 <= i < |kvs| ensures Searchable(kvs[i]) {
      assert kvs[i] == if i < 3 then LoginPairs([])[i] else more[i - 3];
    }
  }

  /** The first letters of the three names differ. */
  lemma NamesApart()
    ensures !(INITIATOR_NAME <= SESSION_TYPE) && !(INITIATOR_NAME <= TARGET_NAME) && !(SESSION_TYPE <= TARGET_NAME)
  {
    assert INITIATOR_NAME[0] == 'I' as int && SESSION_TYPE[0] == 'S' as int && TARGET_NAME[0] == 'T' as int;
  }

  lemma FindAt(kvs: seq<Pair>, j: nat, key: seq<byte>)
    requires AllSearchable(kvs) && FirstPrefix(kvs, key) == j < |kvs|
    ensures FindsValue(Wire(kvs), Find(Wire(kvs), key), kvs[j].value)
  {
    assert Wire(kvs)[0..] == Wire(kvs);
    FindInWire(Wire(kvs), 0, kvs, key);
  }

  lemma HereFirst(kvs: seq<Pair>, key: seq<byte>)
    requires kvs != [] && kvs[0].key == key
    ensures FirstPrefix(kvs, key) == 0
  {
  }

  lemma LaterFirst(kvs: seq<Pair>, key: seq<byte>)
    requires kvs != [] && !(kvs[0].key <= key)
    ensures FirstPrefix(kvs, key) == 1 + FirstPrefix(kvs[1..], key)
  {
  }

  lemma FirstTwo(kvs: seq<Pair>, a: seq<byte>, b: seq<byte>)
    requires |kvs| >= 2 && kvs[0].key == a && kvs[1].key == b && !(a <= b)
    ensures FirstPrefix(kvs, a) == 0 && FirstPrefix(kvs, b) == 1
  {
    HereFirst(kvs, a);
    LaterFirst(kvs, b);
    HereFirst(kvs[1..], b);
  }

  lemma FirstThird(kvs: seq<Pair>, key: seq<byte>)
    requires |kvs| >= 3 && kvs[2].key == key && !(kvs[0].key <= key) && !(kvs[1].key <= key)
    ensures FirstPrefix(kvs, key) == 2
  {
    LaterFirst(kvs, key);
    LaterFirst(kvs[1..], key);
    HereFirst(kvs[1..][1..], key);
  }

  lemma NamesFound(more: seq<Pair>)
    requires AllSearchable(more)
    ensures var text := Wire(LoginPairs(more));
            && Find(text, INITIATOR_NAME).Some? && Find(text, TARGET_NAME).Some?
            && FindsValue(text, Find(text, SESSION_TYPE), NORMAL)
  {
    var kvs := LoginPairs(more);
    LoginPairsSearchable(more);
    NamesApart();
    FirstTwo(kvs, INITIATOR_NAME, SESSION_TYPE);
    FirstThird(kvs, TARGET_NAME);
    FindAt(kvs, 0, INITIATOR_NAME);
    FindAt(kvs, 1, SESSION_TYPE);
    FindAt(kvs, 2, TARGET_NAME);
  }

  lemma {:induction false} WireEndsWithNul(kvs: seq<Pair>)
    requires kvs != []
    ensures Wire(kvs) != [] && Wire(kvs)[|Wire(kvs)| - 1] == NUL
  {
    if |kvs| > 1 {
      WireEndsWithNul(kvs[1..]);
    }
  }

  lemma NormalIsNotDiscovery()
    ensures NORMAL != DISCOVERY
  {
    assert |NORMAL| != |DISCOVERY|;
  }

  // A text with the two names only.

  lemma KindPlain(kind: seq<byte>)
    requires Plain(kind)
    ensures AllSearchable(KindPairs(kind)) && Scannable(KindPairs(kind)[0]) && Scannable(KindPairs(kind)[1])
  {
    AsciiPlain("InitiatorName");
    AsciiPlain("me");
    AsciiPlain("SessionType");
    PlainPair(Pair(INITIATOR_NAME, ME));
    PlainPair(Pair(SESSION_TYPE, kind));
  }

  lemma KindTextParameters(kind: seq<byte>)
    requires Plain(kind)
    ensures Negotiated(Wire(KindPairs(kind))) == DEFAULTS
  {
    var kvs := KindPairs(kind);
    KindPlain(kind);
    SessionNamesAreNoParameters();
    InitiatorNameIsNoParameter();
    FoldSkips(Updated, KEYS, DEFAULTS, kvs);
    FoldSkips(Updated, KEYS, DEFAULTS, kvs[1..]);
    assert kvs[1..][1..] == [];
    assert Wire(kvs)[0..] == Wire(kvs);
    ScanIsFold(Updated, DEFAULTS, Wire(kvs), 0, kvs);
  }

  lemma KindTextNames(kind: seq<byte>)
    requires Plain(kind)
    ensures var text := Wire(KindPairs(kind));
            && Find(text, INITIATOR_NAME).Some? && Find(text, TARGET_NAME).None?
            && FindsValue(text, Find(text, SESSION_TYPE), kind)
  {
    var kvs := KindPairs(kind);
    KindPlain(kind);
    NamesApart();
    FirstTwo(kvs, INITIATOR_NAME, SESSION_TYPE);
    FindAt(kvs, 0, INITIATOR_NAME);
    FindAt(kvs, 1, SESSION_TYPE);
    TargetNotThere(kvs);
  }

  lemma TargetNotThere(kvs: seq<Pair>)
    requires AllSearchable(kvs) && |kvs| == 2 && kvs[0].key == INITIATOR_NAME && kvs[1].key == SESSION_TYPE
    ensures Find(Wire(kvs), TARGET_NAME).None?
  {
    NamesApart();
    LaterFirst(kvs, TARGET_NAME);
    LaterFirst(kvs[1..], TARGET_NAME);
    assert kvs[1..][1..] == [];
    assert Wire(kvs)[0..] == Wire(kvs);
    FindInWire(Wire(kvs), 0, kvs, TARGET_NAME);
  }

  lemma KindTextOk(kind: seq<byte>)
    requires Plain(kind) && |kind| < 100
    ensures var text := Wire(KindPairs(kind));
            && LoginText(text) && |text| <= PARAMETER_BUFFER_SIZE && FindsValue(text, Find(text, SESSION_TYPE), kind)
            && Find(text, INITIATOR_NAME).Some? && Find(text, TARGET_NAME).None?
  {
    KindTextParameters(kind);
    KindTextNames(kind);
    WireEndsWithNul(KindPairs(kind));
    KindTextLength(KindPairs(kind));
  }

  lemma KindTextLength(kvs: seq<Pair>)
    requires |kvs| == 2
    ensures |Wire(kvs)| == |kvs[0].key| + |kvs[0].value| + |kvs[1].key| + |kvs[1].value| + 4
  {
    assert kvs[1..][1..] == [] && kvs[1..][0] == kvs[1];
    assert |Wire(kvs[1..])| == |kvs[1].key| + |kvs[1].value| + 2;
  }

  /** The text is one the target processes, and it names a normal session. */
  lemma LoginTextOk(more: seq<Pair>)
    requires AllSearchable(more) && Negotiated(Wire(LoginPairs(more))).maxReceive >= 1
    ensures var text := Wire(LoginPairs(more));
            && LoginText(text) && Find(text, SESSION_TYPE).Some? && !IsDiscovery(text)
            && Find(text, INITIATOR_NAME).Some? && Find(text, TARGET_NAME).Some?
  {
    NamesFound(more);
    WireEndsWithNul(LoginPairs(more));
    NormalIsNotDiscovery();
  }

  // None of the three names is a parameter.

  predicate NoParameter(ks: Keys, key: seq<byte>)
  {
    forall j: nat :: j < 11 ==> !(ks.Name(j) <= key)
  }

  lemma NoParameterNoUpdate(ks: Keys, p: Params, key: seq<byte>, value: seq<byte>)
    requires NoParameter(ks, key)
    ensures UpdatedBy(ks, p, key, value) == p
  {
    assert !(ks.Name(0) <= key) && !(ks.Name(1) <= key) && !(ks.Name(2) <= key) && !(ks.Name(3) <= key);
    assert !(ks.Name(4) <= key) && !(ks.Name(5) <= key) && !(ks.Name(6) <= key) && !(ks.Name(7) <= key);
    assert !(ks.Name(8) <= key) && !(ks.Name(9) <= key) && !(ks.Name(10) <= key);
  }

  lemma SessionNamesAreNoParameters()
    ensures NoParameter(KEYS, SESSION_TYPE) && NoParameter(KEYS, TARGET_NAME)
  {
    forall j: nat | j < 11 ensures KEYS.Name(j) != [] && KEYS.Name(j)[0] < 'S' as int {
    }
    assert SESSION_TYPE[0] == 'S' as int && TARGET_NAME[0] == 'T' as int;
  }

  lemma InitiatorNameIsNoParameter()
    ensures NoParameter(KEYS, INITIATOR_NAME)
  {
    forall j: nat | j < 11 ensures !(KEYS.Name(j) <= INITIATOR_NAME) {
      var k := KEYS.Name(j);
      assert |k| > 6;
      assert k[0] != 'I' as int || k[1] != 'n' as int || k[6] != 'a' as int;
      assert INITIATOR_NAME[0] == 'I' as int && INITIATOR_NAME[1] == 'n' as int && INITIATOR_NAME[6] == 't' as int;
    }
  }

  /** The three names leave the parameters to `more`. */
  lemma FoldOfLogin(more: seq<Pair>)
    ensures Fold(Updated, DEFAULTS, LoginPairs(more)) == Fold(Updated, DEFAULTS, more)
  {
    SessionNamesAreNoParameters();
    InitiatorNameIsNoParameter();
    var kvs := LoginPairs(more);
    FoldSkips(Updated, KEYS, DEFAULTS, kvs);
    FoldSkips(Updated, KEYS, DEFAULTS, kvs[1..]);
    FoldSkips(Updated, KEYS, DEFAULTS, kvs[2..]);
    assert kvs[1..][1..] == kvs[2..] && kvs[2..][1..] == more;
  }

  lemma FoldSkips(update: Update<Params>, ks: Keys, p: Params, kvs: seq<Pair>)
    requires kvs != [] && NoParameter(ks, kvs[0].key)
    requires forall v: seq<byte> :: update(p, kvs[0].key, v) == UpdatedBy(ks, p, kvs[0].key, v)
    ensures Fold(update, p, kvs) == Fold(update, p, kvs[1..])
  {
    NoParameterNoUpdate(ks, p, kvs[0].key, kvs[0].value);
  }

  lemma NoParameterIsHarmless(ks: Keys, kv: Pair)
    requires NoParameter(ks, kv.key)
    ensures NotNegative(ks, kv)
  {
    assert !(ks.Name(0) <= kv.key) && !(ks.Name(3) <= kv.key) && !(ks.Name(4) <= kv.key) && !(ks.Name(9) <= kv.key);
  }

  lemma LoginHarmless(more: seq<Pair>)
    requires Harmless(KEYS, more)
    ensures Harmless(KEYS, LoginPairs(more))
  {
    NamesPlain();
    NamesNotNegative();
    HarmlessAppend(KEYS, LoginPairs([]), more);
    assert LoginPairs(more) == LoginPairs([]) + more;
  }

  lemma NamesNotNegative()
    ensures var names := LoginPairs([]);
            NotNegative(KEYS, names[0]) && NotNegative(KEYS, names[1]) && NotNegative(KEYS, names[2])
  {
    SessionNamesAreNoParameters();
    InitiatorNameIsNoParameter();
    NoParameterIsHarmless(KEYS, LoginPairs([])[0]);
    NoParameterIsHarmless(KEYS, LoginPairs([])[1]);
    NoParameterIsHarmless(KEYS, LoginPairs([])[2]);
  }

  lemma HarmlessAppend(ks: Keys, a: seq<Pair>, b: seq<Pair>)
    requires |a| == 3 && Scannable(a[0]) && Scannable(a[1]) && Scannable(a[2])
    requires NotNegative(ks, a[0]) && NotNegative(ks, a[1]) && NotNegative(ks, a[2]) && Harmless(ks, b)
    ensures Harmless(ks, a + b)
  {
  }

  // The PDU.

  /** A Login with these stage bits, and no TSIH. */
  function StagePdu(flags: byte, text: seq<byte>): Pdu
  {
    Pdu(LOGIN, flags, 0, 0, 0, 0, 0, 0, 0, 0, 0, 0, text)
  }

  /** T = 1, C = 0, CSG = 1, NSG = 3. */
  function LoginPdu(text: seq<byte>): Pdu
  {
    StagePdu(135, text)
  }

  lemma StageReads(flags: byte, text: seq<byte>, req: seq<byte>)
    requires |text| <= PARAMETER_BUFFER_SIZE && req == Encode(StagePdu(flags, text))
    ensures IsFrame(req) && req[4] == 0 && Opcode(req) == LOGIN && req[1] == flags
    ensures Tsih(req) == 0 && DataLength(req) == |text| && Segment(req) == LoginData(req) == text
  {
    var p := StagePdu(flags, text);
    EncodedLength(p, req);
    EncodedParts(p);
    HeaderFields(p, req);
    assert req[14] == HeaderBytes(p)[14] == 0 && req[15] == HeaderBytes(p)[15] == 0;
  }

  lemma LoginReads(text: seq<byte>, req: seq<byte>)
    requires |text| <= PARAMETER_BUFFER_SIZE && req == Encode(LoginPdu(text))
    ensures IsFrame(req) && req[4] == 0 && Opcode(req) == LOGIN && !Continue(req) && Completes(req) && Csg(req) == 1
    ensures Tsih(req) == 0 && DataLength(req) == |text| && LoginData(req) == text
  {
    StageReads(135, text, req);
    LoginBits(req);
  }

  lemma LoginBits(req: Header)
    requires req[1] == 135
    ensures !Continue(req) && Completes(req) && Csg(req) == 1
  {
  }

  lemma SetUpOk(st: State, req: Header)
    requires KindReadable(st.conn.text, req) && Tsih(req) == 0
    requires Find(st.conn.text, INITIATOR_NAME).Some? && Find(st.conn.text, TARGET_NAME).Some?
    requires !IsDiscovery(st.conn.text)
    ensures SetUp(st, req).1 == SUCCESS && !SetUp(st, req).0.session.discovery
    ensures SetUp(st, req).0.session.entry == st.session.entry && SetUp(st, req).0.target == st.target
    ensures SetUp(st, req).0.session.numberingStarted == st.session.numberingStarted
  {
  }

  lemma FinalLoginKeepsEntry(s: State, req: Header)
    ensures var o := FinalLogin(s, req).state;
            && o.session.discovery == s.session.discovery && o.session.entry == s.session.entry
            && o.session.numberingStarted == s.session.numberingStarted && o.target == s.target
  {
  }

  /** A login from s to t: a normal session in full-feature phase, its entry and its device untouched. */
  predicate LoggedIn(s: State, t: State, p: Params)
  {
    && t.session.fullFeature && !t.session.discovery && t.conn.params == p && !t.session.numberingStarted
    && t.session.entry == s.session.entry && t.target == s.target
  }

  lemma PairsProcessed(more: seq<Pair>)
    requires AllSearchable(more) && Harmless(KEYS, more) && Fold(Updated, DEFAULTS, more).maxReceive >= 1
    ensures var text := Wire(LoginPairs(more));
            && LoginText(text) && Find(text, SESSION_TYPE).Some?
            && Find(text, INITIATOR_NAME).Some? && Find(text, TARGET_NAME).Some?
            && !IsDiscovery(text) && Negotiated(text) == Fold(Updated, DEFAULTS, more)
  {
    LoginHarmless(more);
    FoldOfLogin(more);
    NegotiationIsStable(LoginPairs(more));
    LoginTextOk(more);
  }

  lemma LoginOutcome(st: State, e: Event, more: seq<Pair>, o: Outcome)
    requires StepOk(st, e) && !st.conn.attached && !st.session.fullFeature
    requires AllSearchable(more) && Harmless(KEYS, more)
    requires !st.session.numberingStarted
    requires |Wire(LoginPairs(more))| <= PARAMETER_BUFFER_SIZE
    requires e.request == Encode(LoginPdu(Wire(LoginPairs(more)))) && o == Step(st, e.request, e.reply)
    requires Fold(Updated, DEFAULTS, more).maxReceive >= 1
    ensures !o.terminate && LoggedIn(st, o.state, Fold(Updated, DEFAULTS, more))
  {
    var text := Wire(LoginPairs(more));
    LoginReads(text, e.request);
    LoginHarmless(more);
    FoldOfLogin(more);
    PairsProcessed(more);
    SetUpOk(Reparametrised(st, Negotiated(text), text), e.request);
    LoginStep(st, e, LoggingIn(st, e.request));
    FinalLoginKeepsEntry(LoggingIn(st, e.request), e.request);
    BothSidesAgree(st, e, LoginPairs(more), o);
  }

  lemma LoginAcceptable(more: seq<Pair>, login: Event)
    requires AllSearchable(more) && |Wire(LoginPairs(more))| <= PARAMETER_BUFFER_SIZE && login.reply.Valid()
    requires login.request == Encode(LoginPdu(Wire(LoginPairs(more))))
    requires Fold(Updated, DEFAULTS, more).maxReceive >= 1 && Harmless(KEYS, more)
    ensures StepOk(Init(DEFAULTS, []), login)
  {
    LoginReads(Wire(LoginPairs(more)), login.request);
    PairsProcessed(more);
  }

  lemma LoginStepOk(st: State, e: Event, text: seq<byte>)
    requires st == Init(DEFAULTS, []) && IsFrame(e.request) && e.request[4] == 0 && Opcode(e.request) == LOGIN
    requires LoginData(e.request) == text && LoginText(text) && Find(text, SESSION_TYPE).Some? && e.reply == Failed
    ensures StepOk(st, e)
  {
  }

  lemma RunOfOne(st: State, e: Event)
    requires StepOk(st, e)
    ensures Admissible(st, [e]) && Run(st, [e]) == Step(st, e.request, e.reply).state
  {
    var o := Step(st, e.request, e.reply);
    assert [e][1..] == [];
    if !o.terminate {
      assert Run(o.state, []) == o.state;
    }
  }

  /** A fresh process, logged in by one PDU whose text negotiates `more`. */
  lemma FreshLogin(more: seq<Pair>) returns (login: Event, st: State)
    requires AllSearchable(more) && Harmless(KEYS, more) && |Wire(LoginPairs(more))| <= PARAMETER_BUFFER_SIZE
    requires Fold(Updated, DEFAULTS, more).maxReceive >= 1
    ensures Admissible(Init(DEFAULTS, []), [login]) && st == Run(Init(DEFAULTS, []), [login])
    ensures LoggedIn(Init(DEFAULTS, []), st, Fold(Updated, DEFAULTS, more)) && Ready(st, 0)
    ensures Advance(st.session.transferTag, 1) != DEFAULT_TAG && CommandCount([login]) == 0
  {
    login := Event(Encode(LoginPdu(Wire(LoginPairs(more)))), Failed);
    LoginAcceptable(more, login);
    var o := Step(Init(DEFAULTS, []), login.request, login.reply);
    LoginOutcome(Init(DEFAULTS, []), login, more, o);
    RunOfOne(Init(DEFAULTS, []), login);
    st := o.state;
    LoginIsNoCommand(login, Wire(LoginPairs(more)));
    FreshSessionIsReady(DEFAULTS, [], [login]);
  }

  lemma LoginIsNoCommand(login: Event, text: seq<byte>)
    requires |text| <= PARAMETER_BUFFER_SIZE && login.request == Encode(LoginPdu(text))
    ensures CommandCount([login]) == 0
  {
    LoginReads(text, login.request);
    assert [login][1..] == [];
  }
}
