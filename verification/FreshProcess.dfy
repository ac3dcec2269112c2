/** The theorems about writes and tags, from the zeroed globals of a fresh process on. */
module FreshProcess {
  import opened Bytes
  import opened Pdus
  import opened Negotiation
  import opened Model
  import opened Runs
  import opened EndToEndWrite
  import opened StaleEntry
  import opened ImmediateData
  import opened SessionSafety
  import opened Tags

  /** Tags are in order, at most n of them, and outside full-feature phase no write has been started. */
  predicate TagsInOrder(st: State, n: nat)
  {
    && 0 <= st.session.entry.tag <= st.session.transferTag <= n
    && (!st.session.fullFeature ==> st.session.entry.tag == 0)
  }

  /** The tags after a Login: those before it, or none. */
  predicate SameOrNoTags(s: State, t: State)
  {
    t.session.entry == s.session.entry && (t.session.transferTag == s.session.transferTag || t.session.transferTag == 0)
  }

  lemma FinalLoginTags(st: State, req: Header)
    ensures SameOrNoTags(st, FinalLogin(st, req).state)
  {
  }

  lemma SetUpTags(st: State, req: Header)
    requires KindReadable(st.conn.text, req)
    ensures SameOrNoTags(st, SetUp(st, req).0)
  {
  }

  lemma LoginFinishedTags(st: State, req: Header)
    requires LoginReadable(st.conn.attached, st.conn.text, req) && !Continue(req)
    ensures SameOrNoTags(st, LoginFinished(st, req).state)
  {
    FinalLoginTags(st, req);
    if !st.conn.attached {
      SetUpTags(st, req);
      FinalLoginTags(SetUp(st, req).0, req);
    }
  }

  lemma LoginTags(st: State, req: Header)
    requires LoginReadable(st.conn.attached, LoginData(req), req)
    ensures SameOrNoTags(st, Login(st, req).state)
  {
    if !Continue(req) {
      LoginFinishedTags(Reparametrised(st, Negotiated(LoginData(req)), LoginData(req)), req);
    }
  }

  lemma FullFeatureKeepsTags(st: State, e: Event, n: nat)
    requires Sound(st) && StepOk(st, e) && st.session.fullFeature && TagsInOrder(st, n) && n + 1 < TWO31
    ensures TagsInOrder(FullFeature(st, e.request, e.reply), if IsCommand(e) then n + 1 else n)
  {
    FullFeatureFrame(st, e.request, e.reply);
    if Opcode(e.request) == SCSI_CMD && !st.session.discovery {
      CmdTags(st, e.request, e.reply);
      AdvanceOne(st.session.transferTag);
    } else if Opcode(e.request) == SCSI_DATA_OUT {
      DataOutFrame(st, e.request, e.reply);
    }
  }

  lemma StepKeepsTags(st: State, e: Event, n: nat, o: Outcome)
    requires Sound(st) && StepOk(st, e) && TagsInOrder(st, n) && n + 1 < TWO31 && o == Step(st, e.request, e.reply)
    ensures TagsInOrder(o.state, if IsCommand(e) then n + 1 else n)
  {
    GateFrame(st, e.request);
    var g := st.(session := Gate(st, e.request).1);
    if Gate(st, e.request).0 {
      if InFullFeature(g) {
        FullFeatureKeepsTags(g, e, n);
      } else if Opcode(e.request) == LOGIN {
        LoginTags(g, e.request);
      }
    }
  }

  lemma {:induction false} RunKeepsTags(st: State, es: seq<Event>, n: nat)
    requires Sound(st) && Admissible(st, es) && TagsInOrder(st, n) && n + CommandCount(es) + 1 < TWO31
    ensures Sound(Run(st, es)) && TagsInOrder(Run(st, es), n + CommandCount(es))
    decreases |es|
  {
    if es != [] {
      var o := Step(st, es[0].request, es[0].reply);
      StepKeepsTags(st, es[0], n, o);
      StepKeepsSound(st, es[0]);
      if !o.terminate {
        RunKeepsTags(o.state, es[1..], if IsCommand(es[0]) then n + 1 else n);
      }
    }
  }

  /** What CmdSN a Data-Out has to carry to pass the gate; any value while the gate is unused. */
  function GateValue(st: State): int
  {
    if st.session.numberingStarted then st.session.expCmdSn else 0
  }

  lemma SoundIsReady(st: State, n: nat)
    requires Sound(st) && TagsInOrder(st, n) && n + 1 < TWO31
    ensures Advance(st.session.transferTag, 1) != DEFAULT_TAG
    ensures st.session.fullFeature && !st.session.discovery ==> Normal(st) && Ready(st, GateValue(st))
  {
    Int32Fixed(st.session.transferTag + 1);
  }

  /**
   * Whatever a fresh process has been through, with fewer than 2^31 - 1 commands: the entry's tag never exceeds the
   * counter, the counter never exceeds the number of commands, and a logged-in normal session is ready for a write.
   */
  lemma FreshSessionIsReady(params: Params, text: seq<byte>, es: seq<Event>)
    requires Admissible(Init(params, text), es) && CommandCount(es) + 1 < TWO31
    ensures var st := Run(Init(params, text), es);
            && 0 <= st.session.entry.tag <= st.session.transferTag <= CommandCount(es)
            && Advance(st.session.transferTag, 1) != DEFAULT_TAG
            && (st.session.fullFeature && !st.session.discovery ==> Normal(st) && Ready(st, GateValue(st)))
  {
    InitSound(params, text);
    RunKeepsTags(Init(params, text), es, 0);
    SoundIsReady(Run(Init(params, text), es), CommandCount(es));
  }

  /** The tag theorem from a fresh process: nothing about the tags is assumed. */
  lemma FreshTagsIncrease(params: Params, text: seq<byte>, es: seq<Event>, fs: seq<Event>)
    requires Admissible(Init(params, text), es) && CommandCount(es) + CommandCount(fs) + 1 < TWO31
    requires var st := Run(Init(params, text), es);
             st.session.fullFeature && !st.session.discovery && Admissible(st, fs)
    ensures var st := Run(Init(params, text), es);
            Tagged(st, Run(st, fs), WriteTags(st, fs), CommandCount(fs))
  {
    FreshSessionIsReady(params, text, es);
    TagsIncrease(Run(Init(params, text), es), fs);
  }

  /** What the device sees of a write that runs. */
  predicate SeenBy(st: State, cmd: Event, data: seq<byte>, sn: int, es: seq<Event>)
    requires StepOk(st, cmd) && Carried(st, cmd, data, sn, es)
  {
    var xs := Outcomes(st, cmd, es);
    if NeedsR2t(cmd.request) then
      && Sees(xs, Front(st, DataLength(cmd.request)))
      && FiredOnce(xs, WriteOf(st, cmd, data, sn), DataLength(cmd.request))
    else
      |xs| == 1 && xs[0].buffer == st.target.buffer
  }

  /**
   * The end-to-end theorem from a fresh process. After any run that leaves it logged in to a normal session, every
   * acceptable write of at least one byte is carried out once if all its R2Ts may be outstanding, and never
   * otherwise. With R2Ts the device sees what the entry held below the end of the immediate data, and the
   * initiator's data from there on; without, its own buffer. So it gets the data exactly under DeliveredIff's
   * condition, and whatever the data exactly under AlwaysDeliveredIff's.
   */
  lemma FreshWrite(params: Params, text: seq<byte>, before: seq<Event>, st: State, cmd: Event, data: seq<byte>,
                   es: seq<Event>)
    requires Admissible(Init(params, text), before) && CommandCount(before) + 1 < TWO31
    requires st == Run(Init(params, text), before) && st.session.fullFeature && !st.session.discovery
    requires StepOk(st, cmd) && Opcode(cmd.request) == SCSI_CMD && IsWrite(cmd.request)
    requires 0 < ExpectedLength(cmd.request) == |data|
    requires var n := ImmediateLength(cmd.request);
             data[..n] == Segment(cmd.request)[..n]
    ensures WriteCommand(st, cmd, data, GateValue(st))
    ensures AlwaysDelivered(st, cmd, GateValue(st)) <==> DataLength(cmd.request) == 0 && Allowed(st, cmd)
    ensures Carried(st, cmd, data, GateValue(st), es) ==>
              var runs := NeedsR2t(cmd.request) ==> Allowed(st, cmd);
              && |Outcomes(st, cmd, es)| == (if runs then 1 else 0)
              && (runs ==> SeenBy(st, cmd, data, GateValue(st), es))
  {
    FreshSessionIsReady(params, text, before);
    AlwaysDeliveredIff(st, cmd, data, GateValue(st));
    if Carried(st, cmd, data, GateValue(st), es) {
      WriteOutcome(st, cmd, data, GateValue(st), es);
    }
  }

  lemma WriteOutcome(st: State, cmd: Event, data: seq<byte>, sn: int, es: seq<Event>)
    requires WriteCommand(st, cmd, data, sn) && Carried(st, cmd, data, sn, es)
    ensures var runs := NeedsR2t(cmd.request) ==> Allowed(st, cmd);
            && |Outcomes(st, cmd, es)| == (if runs then 1 else 0)
            && (runs ==> SeenBy(st, cmd, data, sn, es))
  {
    WriteRunsOnceIff(st, cmd, data, sn, es);
    if !NeedsR2t(cmd.request) {
      WholeOutcome(st, cmd, es);
    } else if Allowed(st, cmd) {
      DeviceSees(st, cmd, data, sn, es);
    }
  }
}
