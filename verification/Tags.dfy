/**
 * Transfer tags keep the writes of a session apart (iscsi_session.c:33-43, request/cmd.c:74,
 * request/data_out.c:20-33).
 */
module Tags {
  import opened Bytes
  import opened Pdus
  import opened Model
  import opened Runs

  predicate IsCommand(e: Event)
  {
    |e.request| >= HEADER && Opcode(e.request) == SCSI_CMD
  }

  predicate StartsWrite(e: Event)
  {
    IsCommand(e) && NeedsR2t(e.request)
  }

  function CommandCount(es: seq<Event>): nat
  {
    if es == [] then 0 else (if IsCommand(es[0]) then 1 else 0) + CommandCount(es[1..])
  }

  /** The tags the R2T writes of a run get, in order. */
  function WriteTags(st: State, es: seq<Event>): seq<int>
    requires Admissible(st, es)
    decreases |es|
  {
    if es == [] then []
    else
      var o := Step(st, es[0].request, es[0].reply);
      (if StartsWrite(es[0]) then [o.state.session.entry.tag] else [])
      + if o.terminate then [] else WriteTags(o.state, es[1..])
  }

  predicate Normal(st: State)
  {
    st.Valid() && st.conn.attached && st.session.fullFeature && !st.session.discovery
  }

  lemma CmdTags(st: State, req: Header, reply: Reply)
    requires st.Valid() && st.session.fullFeature && LengthInRange(req) && reply.Valid()
    ensures var s := Cmd(st, req, reply).session;
            && s.transferTag == Advance(st.session.transferTag, 1)
            && s.entry.tag == if NeedsR2t(req) then s.transferTag else st.session.entry.tag
  {
  }

  lemma TagStep(st: State, e: Event)
    requires Normal(st) && StepOk(st, e)
    ensures var o := Step(st, e.request, e.reply);
            && !o.terminate && Normal(o.state)
            && o.state.session.transferTag
               == (if IsCommand(e) then Advance(st.session.transferTag, 1) else st.session.transferTag)
            && o.state.session.entry.tag
               == (if StartsWrite(e) then o.state.session.transferTag else st.session.entry.tag)
  {
    StaysLoggedIn(st, e);
    StepKeepsValid(st, e);
    GateFrame(st, e.request);
    var g := st.(session := Gate(st, e.request).1);
    if Gate(st, e.request).0 {
      FullFeatureFrame(g, e.request, e.reply);
      if IsCommand(e) {
        CmdTags(g, e.request, e.reply);
      } else if Opcode(e.request) == SCSI_DATA_OUT {
        DataOutFrame(g, e.request, e.reply);
      }
    }
  }

  predicate Increasing(ts: seq<int>, above: int)
  {
    && (forall i :: 0 <= i < |ts| ==> ts[i] > above)
    && (forall i, j :: 0 <= i < j < |ts| ==> ts[i] < ts[j])
  }

  lemma IncreasingCons(t: int, ts: seq<int>, above: int)
    requires t > above && Increasing(ts, t)
    ensures Increasing([t] + ts, above)
  {
  }

  /** TagStep below the wrap-around. */
  lemma CounterStep(st: State, e: Event, o: Outcome)
    requires Normal(st) && StepOk(st, e) && st.session.entry.tag <= st.session.transferTag
    requires IsCommand(e) ==> st.session.transferTag < TWO31 - 1
    requires o == Step(st, e.request, e.reply)
    ensures !o.terminate && Normal(o.state) && o.state.session.entry.tag <= o.state.session.transferTag
            && o.state.session.transferTag == st.session.transferTag + (if IsCommand(e) then 1 else 0)
            && o.state.session.entry.tag
               == (if StartsWrite(e) then o.state.session.transferTag else st.session.entry.tag)
  {
    TagStep(st, e);
    AdvanceOne(st.session.transferTag);
  }

  lemma AdvanceOne(k: int)
    requires IsInt(k)
    ensures k < TWO31 - 1 ==> Advance(k, 1) == k + 1
  {
    if k < TWO31 - 1 {
      Int32Fixed(k + 1);
    }
  }

  lemma UnfoldTags(st: State, es: seq<Event>, o: Outcome)
    requires Admissible(st, es) && es != [] && o == Step(st, es[0].request, es[0].reply) && !o.terminate
    ensures Admissible(o.state, es[1..]) && Run(st, es) == Run(o.state, es[1..])
    ensures WriteTags(st, es)
            == (if StartsWrite(es[0]) then [o.state.session.entry.tag] else []) + WriteTags(o.state, es[1..])
  {
  }

  /** What TagsIncrease says of a run from s to t with the write tags ts. */
  predicate Tagged(s: State, t: State, ts: seq<int>, commands: nat)
  {
    && Normal(t) && t.session.transferTag == s.session.transferTag + commands
    && Increasing(ts, s.session.transferTag)
    && t.session.entry.tag == (if ts == [] then s.session.entry.tag else ts[|ts| - 1])
    && t.session.entry.tag <= t.session.transferTag
  }

  lemma TaggedCons(st: State, s: State, t: State, writes: bool, ts: seq<int>, one: nat, more: nat)
    requires Tagged(s, t, ts, more) && s.session.transferTag == st.session.transferTag + one && (writes ==> one == 1)
    requires s.session.entry.tag == if writes then s.session.transferTag else st.session.entry.tag
    ensures Tagged(st, t, (if writes then [s.session.entry.tag] else []) + ts, one + more)
  {
    if writes {
      IncreasingCons(s.session.entry.tag, ts, st.session.transferTag);
    } else {
      assert [] + ts == ts;
    }
  }

  /**
   * As long as the tag counter does not run over, every command raises it by one, the tags of the R2T writes strictly
   * increase, and the entry carries the tag of the latest write, never above the counter.
   */
  lemma {:induction false} TagsIncrease(st: State, es: seq<Event>)
    requires Normal(st) && Admissible(st, es) && st.session.entry.tag <= st.session.transferTag
    requires st.session.transferTag + CommandCount(es) < TWO31
    ensures Tagged(st, Run(st, es), WriteTags(st, es), CommandCount(es))
    decreases |es|
  {
    if es != [] {
      var o := Step(st, es[0].request, es[0].reply);
      CounterStep(st, es[0], o);
      UnfoldTags(st, es, o);
      TagsIncrease(o.state, es[1..]);
      TaggedCons(st, o.state, Run(o.state, es[1..]), StartsWrite(es[0]), WriteTags(o.state, es[1..]),
                 if IsCommand(es[0]) then 1 else 0, CommandCount(es[1..]));
    }
  }

  /** A Data-Out whose tag is not the entry's leaves the entry, the responses and the device alone. */
  lemma ForeignTagIsInert(st: State, e: Event)
    requires Normal(st) && StepOk(st, e) && Opcode(e.request) == SCSI_DATA_OUT
    requires TransferTag(e.request) != st.session.entry.tag
    ensures var t := Step(st, e.request, e.reply).state;
            t.session.entry == st.session.entry && t.out == st.out && t.target == st.target && t.conn == st.conn
  {
    GateFrame(st, e.request);
  }

  /** A Data-Out for a superseded write, its tag handed out earlier in the run or before it, changes nothing. */
  lemma SupersededTagIsInert(st: State, es: seq<Event>, e: Event, i: nat)
    requires Normal(st) && Admissible(st, es) && st.session.entry.tag <= st.session.transferTag
    requires st.session.transferTag + CommandCount(es) < TWO31
    requires StepOk(Run(st, es), e) && Opcode(e.request) == SCSI_DATA_OUT
    requires i < |WriteTags(st, es)|
    requires if i == 0 then TransferTag(e.request) == st.session.entry.tag
             else TransferTag(e.request) == WriteTags(st, es)[i - 1]
    ensures var s := Run(st, es);
            var t := Step(s, e.request, e.reply).state;
            t.session.entry == s.session.entry && t.out == s.out && t.target == s.target && t.conn == s.conn
  {
    TagsIncrease(st, es);
    ForeignTagIsInert(Run(st, es), e);
  }
}
