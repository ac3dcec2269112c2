/** Discovery sessions: which Logins make one, and that no command of one ever reaches the device. */
module Discovery {
  import opened Bytes
  import opened Decimals
  import opened Lookup
  import opened Pdus
  import opened Negotiation
  import opened Model
  import opened Runs
  import opened SessionSafety
  import opened UnsetSessions
  import opened GeneratedText
  import opened ConcreteLogin
  import opened Reporting

  /** The Login's SessionType is Discovery. */
  predicate NamesDiscovery(text: seq<byte>)
  {
    var at := Find(text, Ascii("SessionType"));
    at.Some? && at.value <= |text| && CString(text, at.value) == Ascii("Discovery")
  }

  lemma KindOfSetUp(s: State, req: Header)
    requires Sound(s) && !s.conn.attached && KindReadable(s.conn.text, req)
    ensures var t := SetUp(s, req).0;
            t.conn.attached ==>
              && (t.session.discovery <==> NamesDiscovery(s.conn.text))
              && t.session.tsih == 1 && t.session.connections == 0 && t.session.maxConnections == 4
              && t.session.transferTag == 0 && t.session.expCmdSn == Int32At(req, 28)
              && t.conn.connectionId == req[20] as int * 256 + req[21]
  {
  }

  lemma FinalLoginKeepsKind(s: State, req: Header)
    ensures var t := FinalLogin(s, req).state;
            && t.conn.attached == s.conn.attached && t.conn.connectionId == s.conn.connectionId
            && t.session == s.session.(fullFeature := t.session.fullFeature)
  {
  }

  /** The session that a first Login attaches: new, and a discovery session exactly if the Login says so. */
  lemma AttachingLogin(st: State, e: Event, o: Outcome)
    requires Sound(st) && StepOk(st, e) && !st.conn.attached && o == Step(st, e.request, e.reply)
    requires o.state.conn.attached
    ensures Opcode(e.request) == LOGIN
    ensures o.state.session.discovery <==> NamesDiscovery(LoginData(e.request))
    ensures o.state.session.tsih == 1 && o.state.session.connections == 0 && o.state.session.maxConnections == 4
    ensures o.state.session.transferTag == 0 && o.state.session.expCmdSn == Int32At(e.request, 28)
    ensures o.state.conn.connectionId == e.request[20] as int * 256 + e.request[21]
  {
    if FinalLoginRequest(e) {
      FinalLoginStep(st, e, o);
      var s := Read(st, e.request);
      SetUpCases(s, e.request);
      FirstFinalLogin(s, e.request, o);
      KindOfSetUp(s, e.request);
      FinalLoginKeepsKind(SetUp(s, e.request).0, e.request);
    } else {
      OtherStep(st, e, o);
    }
  }

  // Rejects.

  /** From s to t one Reject is sent; neither the device nor the transfer entry is touched. */
  predicate OneReject(s: State, t: State, reason: byte)
  {
    var bytes := Appended(s, t);
    && s.out <= t.out && Rest(bytes) == [] && |Parse(bytes)| == 1
    && t.target == s.target && t.session.entry == s.session.entry
    && var p := Parse(bytes)[0];
       p.opcode == 0x3f && p.flags == 0x80 && p.byte2 == reason && p.taskTag == -1 && p.data == []
  }

  lemma RejectedIsOne(s: State, reason: byte)
    requires IsInt(s.conn.expCmdSn)
    ensures OneReject(s, Rejected(s, reason), reason)
  {
    OneSent(s, RejectPdu(reason, []));
  }

  /** The gate lets the request of an attached connection pass. */
  predicate Passes(st: State, req: Header)
  {
    || Opcode(req) in {0x00, 0x01, 0x03, 0x04, 0x06}
    || !st.session.numberingStarted || Int32At(req, 24) == st.session.expCmdSn
  }

  lemma PassesGate(st: State, req: Header)
    requires st.conn.attached
    ensures Gate(st, req).0 <==> Passes(st, req)
  {
  }

  /** In a discovery session every request but Logout and Text that passes the gate is rejected as a protocol error. */
  lemma DiscoveryRejects(st: State, e: Event)
    requires Sound(st) && StepOk(st, e) && st.session.fullFeature && st.session.discovery
    requires Passes(st, e.request) && Opcode(e.request) !in {0x04, 0x06}
    ensures OneReject(st, Step(st, e.request, e.reply).state, 0x04)
  {
    PassesGate(st, e.request);
    GateFrame(st, e.request);
    var g := st.(session := Gate(st, e.request).1);
    RejectedIsOne(g, PROTOCOL_ERROR);
  }

  /** Over the run: nothing executed, and in full-feature phase all these requests rejected. */
  predicate OnlyRejects(st: State, es: seq<Event>)
    requires Admissible(st, es)
    decreases |es|
  {
    st.target.log == []
    && (es == []
        || var o := Step(st, es[0].request, es[0].reply);
           && (st.session.fullFeature && Passes(st, es[0].request) && Opcode(es[0].request) !in {0x04, 0x06} ==>
                 OneReject(st, o.state, 0x04))
           && o.state.target.log == [] && (o.terminate || OnlyRejects(o.state, es[1..])))
  }

  lemma KindStays(st: State, e: Event, o: Outcome)
    requires Sound(st) && StepOk(st, e) && st.conn.attached && o == Step(st, e.request, e.reply)
    ensures o.state.conn.attached && o.state.session.discovery == st.session.discovery
  {
    if st.session.fullFeature {
      FullFeatureStep(st, e);
    } else if FinalLoginRequest(e) {
      FinalLoginStep(st, e, o);
      FinalLoginKeepsKind(Read(st, e.request), e.request);
    } else {
      OtherKind(st, e, o);
    }
  }

  lemma OtherKind(st: State, e: Event, o: Outcome)
    requires Sound(st) && StepOk(st, e) && !st.session.fullFeature && !FinalLoginRequest(e) && st.conn.attached
    requires o == Step(st, e.request, e.reply)
    ensures o.state.conn.attached && o.state.session.discovery == st.session.discovery
  {
    GateFrame(st, e.request);
  }

  /** A discovery session stays one, and over every run of it the device executes nothing. */
  lemma {:induction false} DiscoveryRun(st: State, es: seq<Event>)
    requires Sound(st) && Admissible(st, es) && st.conn.attached && st.session.discovery
    ensures OnlyRejects(st, es) && Run(st, es).session.discovery && Run(st, es).target.log == []
    decreases |es|
  {
    if es != [] {
      var o := Step(st, es[0].request, es[0].reply);
      StepKeepsSound(st, es[0]);
      KindStays(st, es[0], o);
      if st.session.fullFeature && Passes(st, es[0].request) && Opcode(es[0].request) !in {0x04, 0x06} {
        DiscoveryRejects(st, es[0]);
      }
      if !o.terminate {
        DiscoveryRun(o.state, es[1..]);
      }
    }
  }

  /**
   * From the Login on: if the first Login that attaches the connection says SessionType=Discovery, then whatever
   * follows, no command reaches the device, and in full-feature phase all but Logout and Text is rejected.
   */
  lemma DiscoveryLoginExecutesNothing(st: State, e: Event, es: seq<Event>)
    requires Sound(st) && StepOk(st, e) && !st.conn.attached && NamesDiscoveryIn(e)
    requires var o := Step(st, e.request, e.reply);
             o.state.conn.attached && !o.terminate && Admissible(o.state, es)
    ensures OnlyRejects(Step(st, e.request, e.reply).state, es)
  {
    var o := Step(st, e.request, e.reply);
    StepKeepsSound(st, e);
    AttachingLogin(st, e, o);
    DiscoveryRun(o.state, es);
  }

  predicate NamesDiscoveryIn(e: Event)
  {
    |e.request| >= HEADER && NamesDiscovery(LoginData(e.request))
  }

  // A discovery login, PDU by PDU.

  lemma DiscoveryTextOk()
    ensures var text := Wire(KindPairs(DISCOVERY));
            && LoginText(text) && |text| <= PARAMETER_BUFFER_SIZE && NamesDiscovery(text)
            && Find(text, INITIATOR_NAME).Some? && Find(text, SESSION_TYPE).Some?
  {
    AsciiPlain("Discovery");
    KindTextOk(DISCOVERY);
  }

  /** InitiatorName=me and SessionType=Discovery log a fresh process in to a discovery session. */
  lemma FreshDiscovery() returns (login: Event, st: State)
    ensures Admissible(Init(DEFAULTS, []), [login]) && st == Run(Init(DEFAULTS, []), [login])
    ensures |login.request| >= HEADER && LoginData(login.request) == Wire(KindPairs(DISCOVERY))
    ensures Sound(st) && st.session.fullFeature && st.session.discovery && !st.session.numberingStarted
  {
    login := Event(Encode(LoginPdu(Wire(KindPairs(DISCOVERY)))), Failed);
    DiscoveryTextOk();
    LoginReads(Wire(KindPairs(DISCOVERY)), login.request);
    LoginStepOk(Init(DEFAULTS, []), login, Wire(KindPairs(DISCOVERY)));
    st := Step(Init(DEFAULTS, []), login.request, login.reply).state;
    DiscoveryEntered(Init(DEFAULTS, []), login);
    RunOfOne(Init(DEFAULTS, []), login);
  }

  lemma DiscoveryEntered(st: State, e: Event)
    requires st == Init(DEFAULTS, []) && StepOk(st, e) && CompletingLogin(e) && Tsih(e.request) == 0
    requires NamesDiscovery(LoginData(e.request)) && Find(LoginData(e.request), INITIATOR_NAME).Some?
    ensures var t := Step(st, e.request, e.reply).state;
            Sound(t) && t.session.fullFeature && t.session.discovery && !t.session.numberingStarted
  {
    InitSound(DEFAULTS, []);
    StepKeepsSound(st, e);
    var o := Step(st, e.request, e.reply);
    FirstLogin(st, e, o);
    AttachingLogin(st, e, o);
    FinalLoginStep(st, e, o);
    GateUnusedBySetUp(Read(st, e.request), e.request);
  }

  lemma GateUnusedBySetUp(s: State, req: Header)
    requires Sound(s) && !s.conn.attached && LoginReadable(false, s.conn.text, req) && !Continue(req)
    ensures LoginFinished(s, req).state.session.numberingStarted == s.session.numberingStarted
  {
    SetUpLeavesGate(s, req);
    FinalLoginKeepsKind(SetUp(s, req).0, req);
  }

  lemma SetUpLeavesGate(s: State, req: Header)
    requires KindReadable(s.conn.text, req)
    ensures SetUp(s, req).0.session.numberingStarted == s.session.numberingStarted
  {
  }

  /** In it a SCSI command is rejected, and nothing has executed. */
  lemma DiscoveryCommandIsRejected(cmd: Event) returns (login: Event, st: State)
    requires |cmd.request| >= HEADER && IsFrame(cmd.request) && cmd.request[4] == 0 && cmd.reply.Valid()
    requires Opcode(cmd.request) == 0x01 && LengthInRange(cmd.request)
    ensures Admissible(Init(DEFAULTS, []), [login]) && st == Run(Init(DEFAULTS, []), [login])
    ensures |login.request| >= HEADER && LoginData(login.request) == Wire(KindPairs(DISCOVERY)) && StepOk(st, cmd)
    ensures var t := Step(st, cmd.request, cmd.reply).state;
            OneReject(st, t, 0x04) && t.target.log == []
  {
    login, st := FreshDiscovery();
    DiscoveryRejects(st, cmd);
  }
}
