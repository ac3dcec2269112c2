/**
 * What the initiator reads when a response is shorter than its header says: the transmitter waits for the missing
 * bytes and takes them from the next response (main.c:137-153, iscsi_pdu.c:17-19).
 */
module Misframing {
  import opened Bytes
  import opened Pdus
  import opened Model
  import opened Runs
  import opened SessionSafety
  import opened Tags
  import opened Numbering
  import opened UnsetSessions

  /** The header of f announces k bytes more than there are. */
  predicate Short(f: seq<byte>, k: nat)
  {
    |f| >= HEADER && k > 0 && FrameLength(f) == |f| + k
  }

  lemma SameHead(f: seq<byte>, more: seq<byte>)
    requires |f| >= HEADER
    ensures FrameLength(f + more) == FrameLength(f) && DataLength(f + more) == DataLength(f)
  {
    var s := f + more;
    assert s[4] == f[4] && s[5] == f[5] && s[6] == f[6] && s[7] == f[7];
  }

  /** Until enough follows, nothing is sent, neither the short response nor what comes after it. */
  lemma ShortWaits(f: seq<byte>, k: nat, more: seq<byte>)
    requires Short(f, k) && |more| < k
    ensures !Complete(f + more) && Frames(f + more) == []
  {
    SameHead(f, more);
  }

  lemma Recut(f: seq<byte>, more: seq<byte>, k: nat)
    requires k <= |more|
    ensures f + more == f + more[..k] + more[k..]
  {
  }

  /** Then the first k bytes of what follows are read as the end of the short response. */
  lemma ShortSwallows(f: seq<byte>, k: nat, more: seq<byte>)
    requires Short(f, k) && |more| >= k
    ensures IsFrame(f + more[..k]) && Frames(f + more) == [f + more[..k]] + Frames(more[k..])
  {
    SameHead(f, more[..k]);
    Recut(f, more, k);
    FramesHead(f + more[..k], more[k..]);
  }

  /** What the initiator reads of the bytes appended from s to u, the first of them being the short response f. */
  predicate ReadShort(s: State, u: State, f: seq<byte>, k: nat)
  {
    var all := Appended(s, u);
    && f <= all
    && var more := all[|f|..];
       if |more| < k then !Complete(all) && Frames(all) == []
       else Frames(all) == [f + more[..k]] + Frames(more[k..])
  }

  lemma ShortIsRead(s: State, t: State, u: State, f: seq<byte>, k: nat)
    requires t.out == s.out + f && t.out <= u.out && Short(f, k)
    ensures ReadShort(s, u, f, k)
  {
    var all := Appended(s, u);
    assert u.out[..|t.out|] == t.out;
    assert f == all[..|f|] && all == f + all[|f|..];
    if |all| - |f| < k {
      ShortWaits(f, k, all[|f|..]);
    } else {
      ShortSwallows(f, k, all[|f|..]);
    }
  }

  /**
   * A refused half Login with data: whatever is sent later, the first bytes of it, as many as the Login had data with
   * its padding, are read as data of the refusal; before that nothing is sent at all.
   */
  lemma RefusalSwallows(st: State, e: Event, o: Outcome, u: State)
    requires Sound(st) && StepOk(st, e) && !st.conn.attached && HalfLogin(e) && o == Step(st, e.request, e.reply)
    requires DataLength(e.request) > 0 && o.state.out <= u.out
    ensures |Appended(st, o.state)| == HEADER && DataLength(Appended(st, o.state)) == DataLength(e.request)
    ensures ReadShort(st, u, Appended(st, o.state), Padded(DataLength(e.request)))
  {
    var f := StatusReply(CopiedHeader(e.request, LOGIN_RES), INITIATOR_ERROR);
    RefusalIsSent(st, e, o);
    RefusalIsShort(e.request, f);
    assert Appended(st, o.state) == f;
    ShortIsRead(st, o.state, u, f, Padded(DataLength(e.request)));
  }

  lemma RefusalIsSent(st: State, e: Event, o: Outcome)
    requires Sound(st) && StepOk(st, e) && !st.conn.attached && HalfLogin(e) && o == Step(st, e.request, e.reply)
    ensures o.state.out == st.out + StatusReply(CopiedHeader(e.request, LOGIN_RES), INITIATOR_ERROR)
  {
    FinalLoginStep(st, e, o);
    SetUpCases(Read(st, e.request), e.request);
    FirstFinalLogin(Read(st, e.request), e.request, o);
  }

  lemma RefusalIsShort(req: Header, f: seq<byte>)
    requires req[4] == 0 && DataLength(req) > 0 && f == StatusReply(CopiedHeader(req, LOGIN_RES), INITIATOR_ERROR)
    ensures |f| == HEADER && DataLength(f) == DataLength(req) && Short(f, Padded(DataLength(req)))
  {
    assert f[4] == req[4] && f[5] == req[5] && f[6] == req[6] && f[7] == req[7];
  }

  /** The echo of a NOP-Out whose data needs padding: the padding is taken from the next response. */
  lemma EchoSwallows(st: State, e: Event, t: State, u: State)
    requires Normal(st) && StepOk(st, e) && Opcode(e.request) == NOP_OUT && DataLength(e.request) % 4 != 0
    requires t == Step(st, e.request, e.reply).state && t.out <= u.out
    ensures var n := |EchoData(st.conn.params.maxReceive, e.request)|;
            |Appended(st, t)| == HEADER + n && ReadShort(st, u, Appended(st, t), Missing(n))
  {
    var f := NopReply(st.conn, e.request);
    EchoBytes(st, e, t);
    EchoIsShort(st.conn, e.request, f);
    assert Appended(st, t) == f;
    ShortIsRead(st, t, u, f, Missing(|EchoData(st.conn.params.maxReceive, e.request)|));
  }

  /** The padding n bytes of data should have. */
  function Missing(n: nat): nat
  {
    Padded(n) - n
  }

  lemma EchoBytes(st: State, e: Event, t: State)
    requires Normal(st) && StepOk(st, e) && Opcode(e.request) == NOP_OUT && t == Step(st, e.request, e.reply).state
    ensures t.out == st.out + NopReply(st.conn, e.request)
  {
  }

  lemma EchoIsShort(c: Conn, req: Header, f: seq<byte>)
    requires IsFrame(req) && req[4] == 0 && DataLength(req) % 4 != 0 && f == NopReply(c, req)
    requires c.params.maxReceive >= 0 && EchoPadsNothing(c.params.maxReceive, req)
    ensures var n := |EchoData(c.params.maxReceive, req)|;
            |f| == HEADER + n && Short(f, Missing(n))
  {
    EchoLength(c.params.maxReceive, req);
    var p := NopPdu(c.params.maxReceive, req).(statSn := c.statSn, expCmdSn := c.expCmdSn, maxCmdSn := c.expCmdSn);
    HeaderFrameLength(p, f);
    PaddedHeader(|EchoData(c.params.maxReceive, req)|);
  }

  lemma PaddedHeader(n: nat)
    ensures Padded(HEADER + n) == HEADER + n + Missing(n) && (n % 4 != 0 ==> Missing(n) > 0)
  {
  }
}
