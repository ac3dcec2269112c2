/** The response stream: whole PDUs, consecutive StatSN, command counts (iscsi_pdu.c:9-15 and the response builders). */
module Numbering {
  import opened Bytes
  import opened Lookup
  import opened Pdus
  import opened Model
  import opened Runs
  import opened ReadPath
  import opened EndToEndWrite
  import opened SessionSafety
  import opened Tags

  /** Requests answered by whole, numbered PDUs: all but Text, and NOP-Out with data that needs padding. */
  predicate Framed(e: Event)
  {
    && |e.request| >= HEADER && Opcode(e.request) != TEXT
    && (Opcode(e.request) == NOP_OUT ==> DataLength(e.request) % 4 == 0)
  }

  /** `t` is `s` after the responses ps, numbered in order, with expCmdSn counted up by n commands. */
  predicate Answered(s: State, t: State, ps: seq<Pdu>, n: nat)
  {
    && AllValid(ps)
    && t.conn.expCmdSn == Advance(s.conn.expCmdSn, n)
    && t.conn.statSn == Advance(s.conn.statSn, |ps|)
    && t.out == s.out + EncodeAll(Stamped(s.conn.(expCmdSn := t.conn.expCmdSn), ps))
  }

  lemma Unchanged(s: State, t: State)
    requires s.Valid() && t.conn == s.conn && t.out == s.out
    ensures Answered(s, t, [], 0)
  {
    AdvanceZero(s.conn.expCmdSn);
    AdvanceZero(s.conn.statSn);
    assert s.out + [] == s.out;
  }

  lemma SentAnswers(s: State, c: State, ps: seq<Pdu>, t: State)
    requires AllValid(ps) && s.Valid() && c.conn == s.conn && c.out == s.out
    requires t.conn == Sent(c, ps).conn && t.out == Sent(c, ps).out
    ensures Answered(s, t, ps, 0)
  {
    AdvanceZero(s.conn.expCmdSn);
  }

  lemma CmdResponseValid(taskTag: int, t: Target)
    requires |t.sense| <= 32 && IsInt(taskTag)
    ensures AllValid([CmdResponse(taskTag, t)])
  {
  }

  lemma WriteAnswers(st: State, req: Header) returns (ps: seq<Pdu>)
    requires st.Valid() && st.session.fullFeature && NeedsR2t(req) && ExpectedLength(req) <= MEMORY_SIZE
    ensures Answered(st, StartWrite(st, req), ps, 1)
  {
    ps := R2tPdus(TaskTag(req), Counted(st).session.transferTag, PlanOf(st.conn.params, req));
    R2tsValid(st.conn.params, TaskTag(req), Counted(st).session.transferTag, req);
  }

  lemma CommandAnswers(st: State, req: Header, reply: Reply) returns (ps: seq<Pdu>)
    requires st.Valid() && st.session.fullFeature && (IsRead(req) ==> 0 <= ExpectedLength(req)) && reply.Valid()
    ensures Answered(st, RunCommand(st, req, reply), ps, 1)
  {
    var t := Executed(st.target, Cdb(req), None, reply);
    if IsRead(req) {
      var n := Min(ExpectedLength(req), MEMORY_SIZE - t.resid);
      ps := DataIns(TaskTag(req), t.buffer, n, st.conn.params.maxReceive);
      SegmentsValid(TaskTag(req), t.buffer, n, st.conn.params.maxReceive);
    } else {
      ps := [CmdResponse(TaskTag(req), t)];
      CmdResponseValid(TaskTag(req), t);
    }
  }

  lemma DataOutIsAnswered(st: State, e: Event) returns (ps: seq<Pdu>)
    requires Sound(st) && StepOk(st, e) && Opcode(e.request) == SCSI_DATA_OUT
             && |Segment(e.request)| == DataLength(e.request)
    ensures Answered(st, DataOut(st, e.request, e.reply), ps, 0)
  {
    var req := e.request;
    var t := DataOut(st, req, e.reply);
    if Addressed(st, req) && Ends(st.session.entry, req) {
      var stored := Stored(st.session.entry, req);
      var c := st.(session := st.session.(entry := stored), target := ExecutedEntry(st.target, stored, e.reply));
      ps := [CmdResponse(TaskTag(req), c.target)];
      CmdResponseValid(TaskTag(req), c.target);
      SentAnswers(st, c, ps, t);
    } else {
      ps := [];
      Unchanged(st, t);
    }
  }

  lemma RejectAnswers(st: State, reason: byte) returns (ps: seq<Pdu>)
    requires st.Valid()
    ensures Answered(st, Rejected(st, reason), ps, 0)
  {
    ps := [RejectPdu(reason, [])];
    SentAnswers(st, st, ps, Rejected(st, reason));
  }

  lemma UnpaddedEncoding(p: Pdu)
    requires |p.data| % 4 == 0
    ensures HeaderBytes(p) + p.data == Encode(p)
  {
    assert Padded(HEADER + |p.data|) == HEADER + |p.data|;
  }

  /** A cut that pads nothing keeps the remainder of the length. */
  lemma EchoLength(max: int, req: Header)
    requires IsFrame(req) && req[4] == 0 && max >= 0 && EchoPadsNothing(max, req)
    ensures |EchoData(max, req)| <= DataLength(req) && |EchoData(max, req)| % 4 == DataLength(req) % 4
  {
  }

  lemma NopReplyIs(c: Conn, req: Header)
    requires IsInt(c.statSn) && |EchoData(c.params.maxReceive, req)| % 4 == 0
    ensures NopReply(c, req) == Encode(Stamp(c, NopPdu(c.params.maxReceive, req), 0))
  {
    AdvanceZero(c.statSn);
    UnpaddedEncoding(Stamp(c, NopPdu(c.params.maxReceive, req), 0));
  }

  lemma NopAnswers(st: State, req: Header) returns (ps: seq<Pdu>)
    requires st.Valid() && IsFrame(req) && req[4] == 0 && DataLength(req) % 4 == 0
    requires st.conn.params.maxReceive >= 0 && EchoPadsNothing(st.conn.params.maxReceive, req)
    ensures Answered(st, Advanced(Emit(st, NopReply(st.conn, req))), ps, 0)
  {
    ps := [NopPdu(st.conn.params.maxReceive, req)];
    EchoLength(st.conn.params.maxReceive, req);
    NopReplyIs(st.conn, req);
    SentSingleBytes(st, NopPdu(st.conn.params.maxReceive, req));
    NopPduValid(st.conn.params.maxReceive, req);
    SentAnswers(st, st, ps, Sent(st, ps));
  }

  lemma NopPduValid(max: int, req: Header)
    requires |EchoData(max, req)| < 0x100_0000
    ensures AllValid([NopPdu(max, req)])
  {
  }

  lemma SentSingleBytes(st: State, p: Pdu)
    requires IsInt(st.conn.statSn)
    ensures Sent(st, [p]) == Advanced(Emit(st, Encode(Stamp(st.conn, p, 0))))
  {
    var q := Stamp(st.conn, p, 0);
    assert Stamped(st.conn, [p]) == [q];
    assert [q][1..] == [];
    assert EncodeAll([q]) == Encode(q);
  }

  /** Commands a request adds to ExpCmdSN. */
  function Commands(st: State, e: Event): nat
  {
    if IsCommand(e) && !st.session.discovery then 1 else 0
  }

  lemma FullFeatureAnswers(st: State, e: Event) returns (ps: seq<Pdu>)
    requires Sound(st) && StepOk(st, e) && st.session.fullFeature && Framed(e)
    ensures Answered(st, FullFeature(st, e.request, e.reply), ps, Commands(st, e))
  {
    var req := e.request;
    if Opcode(req) == LOGOUT {
      ps := [LogoutPdu];
      SentAnswers(st, st, ps, LoggedOut(st));
    } else if st.session.discovery {
      ps := RejectAnswers(st, PROTOCOL_ERROR);
    } else if Opcode(req) == NOP_OUT {
      ps := NopAnswers(st, req);
    } else if Opcode(req) == SCSI_DATA_OUT {
      ps := DataOutIsAnswered(st, e);
    } else if Opcode(req) == SCSI_CMD {
      if NeedsR2t(req) {
        ps := WriteAnswers(st, req);
      } else {
        ps := CommandAnswers(st, req, e.reply);
      }
    } else if Opcode(req) == LOGIN {
      ps := RejectAnswers(st, PROTOCOL_ERROR);
    } else {
      ps := RejectAnswers(st, CMD_NOT_SUPPORTED);
    }
  }

  ghost predicate AnsweredSomehow(s: State, t: State, n: nat)
  {
    exists ps :: Answered(s, t, ps, n)
  }

  lemma StepAnswers(st: State, e: Event)
    requires Sound(st) && StepOk(st, e) && st.session.fullFeature && Framed(e)
    ensures AnsweredSomehow(st, Step(st, e.request, e.reply).state, Commands(st, e))
  {
    GateFrame(st, e.request);
    var g := st.(session := Gate(st, e.request).1);
    if Gate(st, e.request).0 {
      var ps := FullFeatureAnswers(g, e);
      assert Answered(st, FullFeature(g, e.request, e.reply), ps, Commands(st, e));
    } else {
      Unchanged(st, st);
    }
  }

  lemma ParseConcat(a: seq<byte>, b: seq<byte>)
    requires Rest(a) == []
    ensures Parse(a + b) == Parse(a) + Parse(b) && Rest(a + b) == Rest(b)
  {
    FramesRebuild(a);
    assert Flatten(Frames(a)) == a;
    FramesOfFlatten(Frames(a), b);
  }

  function Repeat(n: nat, v: nat): (s: seq<nat>)
    ensures |s| == n && forall i :: 0 <= i < n ==> s[i] == v
  {
    seq(n, i => v)
  }

  function AddAll(s: seq<nat>, n: nat): (r: seq<nat>)
    ensures |r| == |s| && forall i :: 0 <= i < |s| ==> r[i] == s[i] + n
  {
    seq(|s|, i requires 0 <= i < |s| => s[i] + n)
  }

  /** For each response of a run, the number of commands of the run that were counted when it was built. */
  function CommandCounts(st: State, es: seq<Event>): seq<nat>
    requires Admissible(st, es)
    decreases |es|
  {
    if es == [] then []
    else
      var o := Step(st, es[0].request, es[0].reply);
      var n := Commands(st, es[0]);
      Repeat(|Parse(Appended(st, o.state))|, n) + if o.terminate then [] else AddAll(CommandCounts(o.state, es[1..]), n)
  }

  predicate AllFramed(es: seq<Event>)
  {
    forall i :: 0 <= i < |es| ==> Framed(es[i])
  }

  /** The responses qs carry StatSN s, s + 1, ... and, as ExpCmdSN and MaxCmdSN, e plus their command counts. */
  predicate Numbered(qs: seq<Pdu>, s: int, e: int, counts: seq<nat>)
  {
    |qs| == |counts|
    && forall k :: 0 <= k < |qs| ==>
         qs[k].statSn == Advance(s, k) && qs[k].expCmdSn == qs[k].maxCmdSn == Advance(e, counts[k])
  }

  lemma NumberedConcat(qs: seq<Pdu>, rs: seq<Pdu>, s: int, e: int, cs: seq<nat>, ds: seq<nat>, n: nat)
    requires Numbered(qs, s, e, cs) && Numbered(rs, Advance(s, |qs|), Advance(e, n), ds)
    ensures Numbered(qs + rs, s, e, cs + AddAll(ds, n))
  {
    forall k | 0 <= k < |qs + rs|
      ensures var q := (qs + rs)[k];
              q.statSn == Advance(s, k) && q.expCmdSn == q.maxCmdSn == Advance(e, (cs + AddAll(ds, n))[k])
    {
      if k >= |qs| {
        AdvanceTwice(s, |qs|, k - |qs|);
        AdvanceTwice(e, n, ds[k - |qs|]);
      }
    }
  }

  /** Whole PDUs, numbered from s and e, s1 being the next StatSN. */
  predicate OnTheWire(bytes: seq<byte>, s: int, e: int, counts: seq<nat>, s1: int)
  {
    Rest(bytes) == [] && Numbered(Parse(bytes), s, e, counts) && s1 == Advance(s, |Parse(bytes)|)
  }

  lemma Joined(a: seq<byte>, b: seq<byte>, s: int, s1: int, s2: int, e: int, n: nat, cs: seq<nat>, ds: seq<nat>)
    requires OnTheWire(a, s, e, cs, s1) && OnTheWire(b, s1, Advance(e, n), ds, s2)
    ensures OnTheWire(a + b, s, e, cs + AddAll(ds, n), s2)
  {
    ParseConcat(a, b);
    NumberedConcat(Parse(a), Parse(b), s, e, cs, ds, n);
    AdvanceTwice(s, |Parse(a)|, |Parse(b)|);
  }

  lemma ParseStamped(c: Conn, ps: seq<Pdu>)
    requires AllValid(ps) && IsInt(c.expCmdSn)
    ensures Parse(EncodeAll(Stamped(c, ps))) == Stamped(c, ps) && Rest(EncodeAll(Stamped(c, ps))) == []
  {
    StampedValid(c, ps);
    ParseEncodeAll(Stamped(c, ps), []);
    assert EncodeAll(Stamped(c, ps)) + [] == EncodeAll(Stamped(c, ps));
  }

  lemma StampedNumbered(c: Conn, ps: seq<Pdu>, e: int, n: nat)
    requires c.expCmdSn == Advance(e, n)
    ensures Numbered(Stamped(c, ps), c.statSn, e, Repeat(|ps|, n))
  {
  }

  lemma WireOf(b: seq<byte>, qs: seq<Pdu>, s: int, e: int, n: nat, s1: int)
    requires Parse(b) == qs && Rest(b) == [] && s1 == Advance(s, |qs|) && Numbered(qs, s, e, Repeat(|qs|, n))
    ensures OnTheWire(b, s, e, Repeat(|Parse(b)|, n), s1)
  {
  }

  /** One request's responses: whole PDUs, numbered on from s, built when the request's n commands were counted. */
  predicate StepNumbered(s: State, t: State, n: nat)
  {
    var b := Appended(s, t);
    && s.out <= t.out && t.conn.expCmdSn == Advance(s.conn.expCmdSn, n)
    && OnTheWire(b, s.conn.statSn, s.conn.expCmdSn, Repeat(|Parse(b)|, n), t.conn.statSn)
  }

  lemma AnsweredOnTheWire(s: State, t: State, ps: seq<Pdu>, n: nat)
    requires Answered(s, t, ps, n)
    ensures StepNumbered(s, t, n)
  {
    var c := s.conn.(expCmdSn := t.conn.expCmdSn);
    var b := EncodeAll(Stamped(c, ps));
    ParseStamped(c, ps);
    StampedNumbered(c, ps, s.conn.expCmdSn, n);
    WireOf(b, Stamped(c, ps), s.conn.statSn, s.conn.expCmdSn, n, t.conn.statSn);
    assert Appended(s, t) == b;
  }

  lemma AnswersOnTheWire(s: State, t: State, n: nat)
    requires AnsweredSomehow(s, t, n)
    ensures StepNumbered(s, t, n)
  {
    var ps :| Answered(s, t, ps, n);
    AnsweredOnTheWire(s, t, ps, n);
  }

  lemma StepOnTheWire(st: State, ev: Event, o: Outcome)
    requires Sound(st) && StepOk(st, ev) && st.session.fullFeature && Framed(ev) && o == Step(st, ev.request, ev.reply)
    ensures !o.terminate && Sound(o.state) && o.state.session.fullFeature && StepNumbered(st, o.state, Commands(st, ev))
  {
    FullFeatureStep(st, ev);
    StepAnswers(st, ev);
    AnswersOnTheWire(st, o.state, Commands(st, ev));
  }

  /** A run's responses: whole PDUs, numbered on from s. */
  predicate RunNumbered(s: State, t: State, counts: seq<nat>)
  {
    s.out <= t.out && OnTheWire(Appended(s, t), s.conn.statSn, s.conn.expCmdSn, counts, t.conn.statSn)
  }

  lemma TwoBatches(s: State, t: State, u: State, n: nat, ds: seq<nat>)
    requires StepNumbered(s, t, n) && RunNumbered(t, u, ds)
    ensures RunNumbered(s, u, Repeat(|Parse(Appended(s, t))|, n) + AddAll(ds, n))
  {
    assert Appended(s, u) == Appended(s, t) + Appended(t, u);
    Joined(Appended(s, t), Appended(t, u), s.conn.statSn, t.conn.statSn, u.conn.statSn, s.conn.expCmdSn, n,
           Repeat(|Parse(Appended(s, t))|, n), ds);
  }

  lemma NothingAppended(s: State)
    requires s.Valid()
    ensures RunNumbered(s, s, [])
  {
    AdvanceZero(s.conn.statSn);
    assert Appended(s, s) == [];
  }

  /**
   * Every full-feature run without Text, its NOP-Outs with data that needs no padding: the bytes it appends are whole
   * PDUs; the k-th carries StatSN s0 + k; its ExpCmdSN equals its MaxCmdSN and is e0 plus the number of SCSI commands
   * the run processed by then; and the connection is left at the next StatSN. All modulo 2^32.
   */
  lemma {:induction false} ResponsesAreNumbered(st: State, es: seq<Event>)
    requires Sound(st) && Admissible(st, es) && st.session.fullFeature && AllFramed(es)
    ensures RunNumbered(st, Run(st, es), CommandCounts(st, es))
    decreases |es|
  {
    if es == [] {
      NothingAppended(st);
    } else {
      var o := Step(st, es[0].request, es[0].reply);
      StepOnTheWire(st, es[0], o);
      ResponsesAreNumbered(o.state, es[1..]);
      TwoBatches(st, o.state, Run(o.state, es[1..]), Commands(st, es[0]), CommandCounts(o.state, es[1..]));
    }
  }

  // Where the framing claim stops.

  lemma HeaderFrameLength(p: Pdu, f: seq<byte>)
    requires |f| >= HEADER && f[..HEADER] == HeaderBytes(p) && |p.data| < 0x100_0000
    ensures FrameLength(f) == Padded(HEADER + |p.data|)
  {
    HeaderFields(p, f);
    Nat24RoundTrip(f, 5, |p.data|);
  }

  lemma NoPadding(n: nat)
    ensures Padded(HEADER + n) == HEADER + n <==> n % 4 == 0
  {
  }

  lemma UnpaddedIsFramedIff(p: Pdu, f: seq<byte>)
    requires f == HeaderBytes(p) + p.data && |p.data| < 0x100_0000
    ensures IsFrame(f) <==> |p.data| % 4 == 0
  {
    HeaderFrameLength(p, f);
    NoPadding(|p.data|);
  }

  /** A NOP-In is a whole PDU exactly when the echoed data needs no padding. */
  lemma NopReplyIsFramedIff(c: Conn, req: Header)
    requires IsFrame(req) && req[4] == 0
    requires c.params.maxReceive >= 0 && EchoPadsNothing(c.params.maxReceive, req)
    ensures IsFrame(NopReply(c, req)) <==> DataLength(req) % 4 == 0
  {
    EchoLength(c.params.maxReceive, req);
    var p := NopPdu(c.params.maxReceive, req).(statSn := c.statSn, expCmdSn := c.expCmdSn, maxCmdSn := c.expCmdSn);
    UnpaddedIsFramedIff(p, NopReply(c, req));
  }

  lemma HeaderOnlyFramedIff(f: seq<byte>, req: Header)
    requires |f| == HEADER && req[4] == 0
    requires f[4] == req[4] && f[5] == req[5] && f[6] == req[6] && f[7] == req[7]
    ensures IsFrame(f) <==> DataLength(req) == 0
  {
  }

  /**
   * A reply that copies the request's header keeps its data length: refused and partial Logins and the Text echo are
   * whole PDUs only when that is zero.
   */
  lemma CopiedReplyIsFramedIff(c: Conn, req: Header, status: int)
    requires IsFrame(req) && req[4] == 0
    ensures IsFrame(StatusReply(CopiedHeader(req, LOGIN_RES), status)) <==> DataLength(req) == 0
    ensures IsFrame(PartialReply(c, req)) <==> DataLength(req) == 0
    ensures IsFrame(TextHeader(req)) <==> DataLength(req) == 0
  {
    HeaderOnlyFramedIff(StatusReply(CopiedHeader(req, LOGIN_RES), status), req);
    HeaderOnlyFramedIff(PartialReply(c, req), req);
    HeaderOnlyFramedIff(TextHeader(req), req);
  }
}
