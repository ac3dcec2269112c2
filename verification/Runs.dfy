/** Runs of iscsi_server_process: the state stays well-formed, and what full-feature requests leave alone. */
module Runs {
  import opened Bytes
  import opened Lookup
  import opened Pdus
  import opened Negotiation
  import opened GeneratedText
  import opened Model

  datatype Event = Event(request: seq<byte>, reply: Reply)

  predicate StepOk(st: State, e: Event)
  {
    st.Valid() && Acceptable(st, e.request) && e.reply.Valid()
  }

  /** Every request of the run is one the model speaks about, up to the closing of the socket. */
  predicate Admissible(st: State, es: seq<Event>)
    decreases |es|
  {
    es == [] || (StepOk(st, es[0]) && var o := Step(st, es[0].request, es[0].reply);
                 o.terminate || Admissible(o.state, es[1..]))
  }

  function Run(st: State, es: seq<Event>): State
    requires Admissible(st, es)
    decreases |es|
  {
    if es == [] then st
    else
      var o := Step(st, es[0].request, es[0].reply);
      if o.terminate then o.state else Run(o.state, es[1..])
  }

  /** Full-feature requests leave the connection's identity, its parameters and the session's standing alone. */
  predicate SameStanding(s: State, t: State)
  {
    && t.conn.attached == s.conn.attached && t.conn.connectionId == s.conn.connectionId
    && t.conn.params == s.conn.params && t.conn.text == s.conn.text
    && t.session == s.session.(transferTag := t.session.transferTag, entry := t.session.entry)
  }

  lemma CmdFrame(st: State, req: Header, reply: Reply)
    requires st.Valid() && st.session.fullFeature && LengthInRange(req) && reply.Valid()
    ensures Cmd(st, req, reply).Valid() && SameStanding(st, Cmd(st, req, reply))
  {
    var c := Counted(st);
    if NeedsR2t(req) {
      WriteFrame(c, req);
    } else {
      ReportFrame(c.(target := Executed(st.target, Cdb(req), None, reply)), req);
    }
  }

  lemma WriteFrame(c: State, req: Header)
    requires c.Valid() && c.conn.params.maxReceive >= 1 && 0 <= ExpectedLength(req) <= MEMORY_SIZE
    ensures WriteBegun(c, req).Valid() && SameStanding(c, WriteBegun(c, req))
  {
  }

  lemma ReportFrame(c: State, req: Header)
    requires c.Valid() && c.conn.params.maxReceive >= 1 && (IsRead(req) ==> 0 <= ExpectedLength(req))
    ensures Reported(c, req).Valid() && SameStanding(c, Reported(c, req))
  {
  }

  lemma DataOutFrame(st: State, req: Header, reply: Reply)
    requires st.Valid() && reply.Valid()
    requires 0 <= BufferOffset(req) && BufferOffset(req) + |Segment(req)| <= MEMORY_SIZE
    ensures DataOut(st, req, reply).Valid() && SameStanding(st, DataOut(st, req, reply))
    ensures DataOut(st, req, reply).session.transferTag == st.session.transferTag
  {
    if Addressed(st, req) {
      StoredFrame(st, req);
      var s := st.(session := st.session.(entry := Stored(st.session.entry, req)));
      if Ends(s.session.entry, req) {
        CompletedFrame(s, req, reply);
      } else if FollowUp(s.session.entry, req) {
        FollowedUpFrame(s, req);
      }
    }
  }

  lemma StoredFrame(st: State, req: Header)
    requires st.Valid() && 0 <= BufferOffset(req) && BufferOffset(req) + |Segment(req)| <= MEMORY_SIZE
    ensures st.(session := st.session.(entry := Stored(st.session.entry, req))).Valid()
  {
  }

  lemma CompletedFrame(s: State, req: Header, reply: Reply)
    requires s.Valid() && reply.Valid()
    ensures Completed(s, req, reply).Valid() && SameStanding(s, Completed(s, req, reply))
    ensures Completed(s, req, reply).session == s.session
  {
  }

  lemma FollowedUpFrame(s: State, req: Header)
    requires s.Valid()
    ensures FollowedUp(s, req).Valid() && SameStanding(s, FollowedUp(s, req))
    ensures FollowedUp(s, req).session.transferTag == s.session.transferTag
  {
  }

  lemma FullFeatureFrame(st: State, req: Header, reply: Reply)
    requires st.Valid() && Acceptable(st, req) && reply.Valid() && st.session.fullFeature
    ensures FullFeature(st, req, reply).Valid() && SameStanding(st, FullFeature(st, req, reply))
  {
    if Opcode(req) == SCSI_CMD {
      CmdFrame(st, req, reply);
    } else if Opcode(req) == SCSI_DATA_OUT {
      DataOutFrame(st, req, reply);
    } else {
      OtherFrame(st, req, reply);
    }
  }

  lemma OtherFrame(st: State, req: Header, reply: Reply)
    requires st.Valid() && Acceptable(st, req) && reply.Valid() && st.session.fullFeature
    requires Opcode(req) != SCSI_CMD && Opcode(req) != SCSI_DATA_OUT
    ensures FullFeature(st, req, reply).Valid() && SameStanding(st, FullFeature(st, req, reply))
  {
  }

  lemma GateFrame(st: State, req: Header)
    requires st.Valid()
    ensures var s := Gate(st, req).1;
            s == st.session.(expCmdSn := s.expCmdSn, numberingStarted := s.numberingStarted)
    ensures st.(session := Gate(st, req).1).Valid()
  {
  }

  lemma SetUpFrame(st: State, req: Header)
    requires st.Valid() && KindReadable(st.conn.text, req)
    ensures var t := SetUp(st, req).0;
            t.Valid() && t.conn.params == st.conn.params && t.session.fullFeature == st.session.fullFeature
            && t.target == st.target && t.session.entry == st.session.entry
  {
  }

  lemma FinalLoginKeepsValid(st: State, req: Header)
    requires st.Valid() && WithinLimits(st.conn.params) && st.conn.params.maxReceive >= 1
    ensures FinalLogin(st, req).state.Valid()
  {
    RegeneratedWithinLimits(st.conn.params);
  }

  lemma LoginKeepsValid(st: State, req: Header)
    requires st.Valid() && LoginReadable(st.conn.attached, LoginData(req), req)
    ensures Login(st, req).state.Valid()
  {
    var text := LoginData(req);
    ScanWithinLimits(text, |text|);
    var s := st.(conn := st.conn.(params := Negotiated(text), text := text));
    assert s.Valid();
    if !Continue(req) {
      if s.conn.attached {
        FinalLoginKeepsValid(s, req);
      } else {
        SetUpFrame(s, req);
        FinalLoginKeepsValid(SetUp(s, req).0, req);
      }
    }
  }

  lemma RegeneratedWithinLimits(p: Params)
    requires WithinLimits(p)
    ensures var q := Fold(Updated, p, PrintedPairs(KEYS, p, 10));
            WithinLimits(q) && q.maxReceive == p.maxReceive
  {
    UpdatedUpdatesOwnFields();
    FoldOfPrinted(Updated, KEYS, p, p, 10);
    AllFields(p, p);
  }

  lemma StepKeepsValid(st: State, e: Event)
    requires StepOk(st, e)
    ensures Step(st, e.request, e.reply).state.Valid()
  {
    GateFrame(st, e.request);
    var g := st.(session := Gate(st, e.request).1);
    if Gate(st, e.request).0 {
      if g.conn.attached && g.session.fullFeature {
        FullFeatureFrame(g, e.request, e.reply);
      } else if Opcode(e.request) == LOGIN {
        LoginKeepsValid(g, e.request);
      }
    }
  }

  /** A SCSI command of a normal session always passes the gate. */
  lemma CommandStep(st: State, e: Event, o: Outcome)
    requires st.conn.attached && st.session.fullFeature && !st.session.discovery
    requires StepOk(st, e) && Opcode(e.request) == SCSI_CMD && o == Step(st, e.request, e.reply)
    ensures o == Outcome(Cmd(st, e.request, e.reply), false)
  {
  }

  // What a batch of responses looks like to the initiator.

  /** The bytes a step adds to the output. */
  function Appended(s: State, t: State): seq<byte>
  {
    if |s.out| <= |t.out| then t.out[|s.out|..] else []
  }

  lemma StampedValid(c: Conn, ps: seq<Pdu>)
    requires AllValid(ps) && IsInt(c.expCmdSn)
    ensures AllValid(Stamped(c, ps))
  {
    forall i | 0 <= i < |ps| ensures Stamped(c, ps)[i].Valid() {
      assert ps[i] in ps;
    }
  }

  /** Responses sent in the common layout come out as exactly those responses, numbered. */
  lemma SentParses(c: State, ps: seq<Pdu>)
    requires AllValid(ps) && IsInt(c.conn.expCmdSn)
    ensures c.out <= Sent(c, ps).out
    ensures Parse(Appended(c, Sent(c, ps))) == Stamped(c.conn, ps) && Rest(Appended(c, Sent(c, ps))) == []
  {
    StampedValid(c.conn, ps);
    ParseEncodeAll(Stamped(c.conn, ps), []);
    assert Appended(c, Sent(c, ps)) == EncodeAll(Stamped(c.conn, ps)) + [];
  }

  // Runs in pieces.

  /** Only a Login outside full-feature phase, or the lack of a session, can close the socket. */
  lemma StaysLoggedIn(st: State, e: Event)
    requires StepOk(st, e) && InFullFeature(st)
    ensures var o := Step(st, e.request, e.reply); !o.terminate && InFullFeature(o.state)
  {
    GateFrame(st, e.request);
    if Gate(st, e.request).0 {
      FullFeatureFrame(st.(session := Gate(st, e.request).1), e.request, e.reply);
    }
  }

  /** The socket is still open after the run. */
  predicate Open(st: State, es: seq<Event>)
    requires Admissible(st, es)
    decreases |es|
  {
    es == [] || var o := Step(st, es[0].request, es[0].reply);
                !o.terminate && Open(o.state, es[1..])
  }

  lemma {:induction false} LoggedInStaysOpen(st: State, es: seq<Event>)
    requires InFullFeature(st) && Admissible(st, es)
    ensures Open(st, es)
    decreases |es|
  {
    if es != [] {
      StaysLoggedIn(st, es[0]);
      LoggedInStaysOpen(Step(st, es[0].request, es[0].reply).state, es[1..]);
    }
  }

  lemma HeadOfSum(es: seq<Event>, fs: seq<Event>)
    requires es != []
    ensures es + fs != [] && (es + fs)[0] == es[0] && (es + fs)[1..] == es[1..] + fs
  {
  }

  lemma NothingInFront(es: seq<Event>, fs: seq<Event>)
    requires es == []
    ensures es + fs == fs
  {
  }

  lemma {:induction false} Prefix(st: State, es: seq<Event>, fs: seq<Event>)
    requires Admissible(st, es + fs)
    ensures Admissible(st, es)
    decreases |es|
  {
    if es != [] {
      HeadOfSum(es, fs);
      var o := Step(st, es[0].request, es[0].reply);
      if !o.terminate {
        Prefix(o.state, es[1..], fs);
      }
    }
  }

  lemma {:induction false} RunAppend(st: State, es: seq<Event>, fs: seq<Event>)
    requires Admissible(st, es + fs) && Admissible(st, es) && Open(st, es)
    ensures Admissible(Run(st, es), fs) && Run(st, es + fs) == Run(Run(st, es), fs)
    ensures Open(st, es + fs) == Open(Run(st, es), fs)
    decreases |es|
  {
    if es == [] {
      NothingInFront(es, fs);
    } else {
      HeadOfSum(es, fs);
      RunAppend(Step(st, es[0].request, es[0].reply).state, es[1..], fs);
    }
  }

  /** In full-feature phase a run can be cut anywhere. */
  lemma RunInTwo(st: State, es: seq<Event>, fs: seq<Event>)
    requires InFullFeature(st) && Admissible(st, es + fs)
    ensures Admissible(st, es) && Admissible(Run(st, es), fs) && Run(st, es + fs) == Run(Run(st, es), fs)
  {
    Prefix(st, es, fs);
    LoggedInStaysOpen(st, es);
    RunAppend(st, es, fs);
  }

  /** A closed socket reads nothing more. */
  lemma {:induction false} ClosedRunEnds(st: State, es: seq<Event>, fs: seq<Event>)
    requires Admissible(st, es) && !Open(st, es)
    ensures Admissible(st, es + fs) && !Open(st, es + fs) && Run(st, es + fs) == Run(st, es)
    decreases |es|
  {
    HeadOfSum(es, fs);
    var o := Step(st, es[0].request, es[0].reply);
    if !o.terminate {
      ClosedRunEnds(o.state, es[1..], fs);
    }
  }
}
