/** The receiver thread over a whole stream: chunks in, one run of requests out (main.c:92-123). */
module ReceiverThread {
  import opened Bytes
  import opened Pdus
  import opened Buffers
  import opened Reassembly
  import opened Room
  import opened Model
  import opened Runs
  import opened Objects
  import opened Server

  /** The delivered PDUs as requests, each with the device's answer for it. */
  function Events(fs: seq<seq<byte>>, replies: seq<Reply>): (es: seq<Event>)
    requires |fs| <= |replies|
    ensures |es| == |fs|
  {
    seq(|fs|, i requires 0 <= i < |fs| => Event(fs[i], replies[i]))
  }

  lemma EventsAppend(fs: seq<seq<byte>>, gs: seq<seq<byte>>, replies: seq<Reply>)
    requires |fs| + |gs| <= |replies|
    ensures Events(fs + gs, replies) == Events(fs, replies) + Events(gs, replies[|fs|..])
  {
  }

  /** Delivered PDUs are never taken back. */
  lemma {:induction false} DeliveredGrows(chunks: seq<seq<byte>>, k: nat)
    requires k <= |chunks|
    ensures IncomingAll(chunks[..k]).delivered <= IncomingAll(chunks).delivered
    decreases |chunks|
  {
    if k < |chunks| {
      var init := chunks[..|chunks| - 1];
      DeliveredGrows(init, k);
      assert init[..k] == chunks[..k];
      assert IncomingAll(init).delivered <= Incoming(IncomingAll(init), chunks[|chunks| - 1]).delivered;
    } else {
      assert chunks[..k] == chunks;
    }
  }

  lemma EventsOfPrefix(st: State, gs: seq<seq<byte>>, fs: seq<seq<byte>>, replies: seq<Reply>)
    requires gs <= fs && |fs| <= |replies| && Admissible(st, Events(fs, replies))
    ensures Admissible(st, Events(gs, replies))
    ensures Events(gs, replies) <= Events(fs, replies)
  {
    var n := |gs|;
    assert fs == gs + fs[n..];
    EventsAppend(gs, fs[n..], replies);
    Prefix(st, Events(gs, replies), Events(fs[n..], replies[n..]));
  }

  /** What one more chunk does to the list of requests. */
  lemma NextChunk(st: State, chunks: seq<seq<byte>>, replies: seq<Reply>, k: nat, r: Receiver, t: Receiver)
    requires k < |chunks| && |IncomingAll(chunks).delivered| <= |replies|
    requires Admissible(st, Events(IncomingAll(chunks).delivered, replies))
    requires r == IncomingAll(chunks[..k]) && t == IncomingAll(chunks[..k + 1])
    ensures t == Incoming(r, chunks[k]) && |r.delivered| <= |t.delivered| <= |replies|
    ensures Admissible(st, Events(r.delivered, replies)) && Admissible(st, Events(t.delivered, replies))
  {
    assert chunks[..k + 1][..k] == chunks[..k];
    DeliveredGrows(chunks, k);
    DeliveredGrows(chunks, k + 1);
    EventsOfPrefix(st, r.delivered, IncomingAll(chunks).delivered, replies);
    EventsOfPrefix(st, t.delivered, IncomingAll(chunks).delivered, replies);
  }

  lemma EventsMore(fs: seq<seq<byte>>, f: seq<byte>, replies: seq<Reply>)
    requires |fs| < |replies|
    ensures Events(fs + [f], replies) == Events(fs, replies) + [Event(f, replies[|fs|])]
  {
  }

  /** One more request. */
  lemma RunOneMore(st: State, es: seq<Event>, e: Event)
    requires Admissible(st, es + [e]) && Admissible(st, es) && Open(st, es)
    ensures StepOk(Run(st, es), e)
    ensures Run(st, es + [e]) == Step(Run(st, es), e.request, e.reply).state
    ensures Open(st, es + [e]) == !Step(Run(st, es), e.request, e.reply).terminate
  {
    RunAppend(st, es, [e]);
    var s := Run(st, es);
    var o := Step(s, e.request, e.reply);
    assert [e][1..] == [];
    assert Run(s, [e]) == o.state;
  }

  lemma NextRequest(st: State, fs: seq<seq<byte>>, f: seq<byte>, replies: seq<Reply>, reply: Reply)
    requires |fs| < |replies| && reply == replies[|fs|] && Admissible(st, Events(fs + [f], replies))
    requires Admissible(st, Events(fs, replies)) && Open(st, Events(fs, replies))
    ensures var s := Run(st, Events(fs, replies));
            && StepOk(s, Event(f, reply)) && Run(st, Events(fs + [f], replies)) == Step(s, f, reply).state
            && Open(st, Events(fs + [f], replies)) == !Step(s, f, reply).terminate
    ensures Flatten(fs + [f]) == Flatten(fs) + f
  {
    EventsMore(fs, f, replies);
    RunOneMore(st, Events(fs, replies), Event(f, reply));
    FlattenAppend(fs, [f]);
    FlattenOne(f);
  }

  /** What the round for chunk k does: nothing more than keep the chunk, or one request. */
  lemma RoundResult(st: State, chunks: seq<seq<byte>>, replies: seq<Reply>, k: nat, reply: Reply, r: Receiver,
                  t: Receiver)
    requires k < |chunks| && |IncomingAll(chunks).delivered| <= |replies| && |r.delivered| <= |replies|
    requires Admissible(st, Events(IncomingAll(chunks).delivered, replies))
    requires r == IncomingAll(chunks[..k]) && t == IncomingAll(chunks[..k + 1])
    requires Admissible(st, Events(r.delivered, replies)) && Open(st, Events(r.delivered, replies))
    requires |r.delivered| < |replies| ==> reply == replies[|r.delivered|]
    ensures |t.delivered| <= |replies| && Admissible(st, Events(t.delivered, replies))
    ensures var b := r.backlog + chunks[k];
            if !Complete(b) then t == Receiver(r.delivered, b)
            else
              var f, s := b[..FrameLength(b)], Run(st, Events(r.delivered, replies));
              && t == Receiver(r.delivered + [f], b[FrameLength(b)..]) && StepOk(s, Event(f, reply))
              && Run(st, Events(t.delivered, replies)) == Step(s, f, reply).state
              && Open(st, Events(t.delivered, replies)) == !Step(s, f, reply).terminate
              && Flatten(t.delivered) == Flatten(r.delivered) + f
  {
    NextChunk(st, chunks, replies, k, r, t);
    var b := r.backlog + chunks[k];
    if Complete(b) {
      NextRequest(st, r.delivered, b[..FrameLength(b)], replies, reply);
    }
  }

  /** The state of the objects once k chunks have been received. */
  ghost predicate CaughtUp(c: Connection, st: State, chunks: seq<seq<byte>>, replies: seq<Reply>, k: nat)
    requires k <= |chunks|
    reads c, c.session, c.session.target, c.session.target.buffer, c.session.entry, c.session.entry.data,
          c.receive, c.receive.data, c.response, c.response.data, c.parameter, c.parameter.buffer
  {
    var r := IncomingAll(chunks[..k]);
    && |r.delivered| <= |replies|
    && var es := Events(r.delivered, replies);
       && Admissible(st, es) && Open(st, es)
       && c.Valid() && c.View().Valid() && c.View() == Run(st, es)
       && c.receive.Contents() == r.backlog && c.receive.drained == Flatten(r.delivered)
  }

  /** The socket is closed by the last request of the first k chunks. */
  ghost predicate ClosedBy(c: Connection, st: State, chunks: seq<seq<byte>>, replies: seq<Reply>, k: nat)
    requires k <= |chunks|
    reads c, c.session, c.session.target, c.session.target.buffer, c.session.entry, c.session.entry.data,
          c.receive, c.receive.data, c.response, c.response.data, c.parameter, c.parameter.buffer
  {
    var fs := IncomingAll(chunks[..k]).delivered;
    && |fs| <= |replies| && Admissible(st, Events(fs, replies)) && !Open(st, Events(fs, replies))
    && c.Valid() && c.View() == Run(st, Events(fs, replies))
  }

  /** One round of the receiver thread. */
  method ReceiveChunk(c: Connection, ghost st: State, ghost chunks: seq<seq<byte>>, ghost replies: seq<Reply>,
                      ghost k: nat, chunk: seq<byte>, reply: Reply) returns (status: Status)
    requires k < |chunks| && chunk == chunks[k] && |chunk| <= BUFFER_SIZE
    requires |IncomingAll(chunks).delivered| <= |replies| && reply.Valid()
    requires Admissible(st, Events(IncomingAll(chunks).delivered, replies)) && CaughtUp(c, st, chunks, replies, k)
    requires var r := IncomingAll(chunks[..k]); |r.delivered| < |replies| ==> reply == replies[|r.delivered|]
    modifies c, c.session, c.session.entry, c.session.entry.data, c.session.target, c.session.target.buffer
    modifies c.parameter, c.parameter.buffer, c.receive, c.receive.data, c.digits, c.response, c.response.data
    ensures status.Blocked? <==> !HasRoom(chunks, k)
    ensures var more := |IncomingAll(chunks[..k + 1]).delivered| - |IncomingAll(chunks[..k]).delivered|;
            status.Incomplete? ==> more == 0
    ensures var more := |IncomingAll(chunks[..k + 1]).delivered| - |IncomingAll(chunks[..k]).delivered|;
            status.Processed? ==> more == 1
    ensures match status
            case Blocked => CaughtUp(c, st, chunks, replies, k)
            case Terminate => ClosedBy(c, st, chunks, replies, k + 1)
            case _ => CaughtUp(c, st, chunks, replies, k + 1)
  {
    RoundResult(st, chunks, replies, k, reply, IncomingAll(chunks[..k]), IncomingAll(chunks[..k + 1]));
    status := IncomingRequest(c, chunk, reply);
  }

  /** The round for chunk k, with the device's answer for the next request. */
  method ReceiveNext(c: Connection, ghost st: State, chunks: seq<seq<byte>>, replies: seq<Reply>, k: nat, served: nat)
    returns (status: Status, next: nat)
    requires k < |chunks| && |chunks[k]| <= BUFFER_SIZE && AllReplies(replies)
    requires |IncomingAll(chunks).delivered| <= |replies| && served == |IncomingAll(chunks[..k]).delivered|
    requires Admissible(st, Events(IncomingAll(chunks).delivered, replies)) && CaughtUp(c, st, chunks, replies, k)
    modifies c, c.session, c.session.entry, c.session.entry.data, c.session.target, c.session.target.buffer
    modifies c.parameter, c.parameter.buffer, c.receive, c.receive.data, c.digits, c.response, c.response.data
    ensures status.Blocked? <==> !HasRoom(chunks, k)
    ensures match status
            case Blocked => CaughtUp(c, st, chunks, replies, k)
            case Terminate => ClosedBy(c, st, chunks, replies, k + 1)
            case _ =>
              CaughtUp(c, st, chunks, replies, k + 1) && next == |IncomingAll(chunks[..k + 1]).delivered|
  {
    var reply := if served < |replies| then replies[served] else Failed;
    status := ReceiveChunk(c, st, chunks, replies, k, chunks[k], reply);
    next := if status.Processed? then served + 1 else served;
  }

  /** How a stream ends for the receiver thread: all read, the socket closed, or no room for chunk `at`, for ever. */
  datatype End = Finished | SocketClosed | Stuck(at: nat)

  /**
   * start_receiver on a stream that arrives in the given chunks, from a fresh connection: whatever the split, the
   * target has gone through exactly the run of the PDUs the chunks deliver, each PDU once and in stream order. It gets
   * stuck at the first chunk without room, if there is one before the socket closes, and not otherwise.
   */
  method ReceiveAll(c: Connection, chunks: seq<seq<byte>>, replies: seq<Reply>) returns (end: End)
    requires c.Valid() && c.View().Valid() && c.receive.Contents() == [] && c.receive.drained == []
    requires (forall k :: 0 <= k < |chunks| ==> |chunks[k]| <= BUFFER_SIZE) && AllReplies(replies)
    requires |IncomingAll(chunks).delivered| <= |replies|
    requires Admissible(c.View(), Events(IncomingAll(chunks).delivered, replies))
    modifies c, c.session, c.session.entry, c.session.entry.data, c.session.target, c.session.target.buffer
    modifies c.parameter, c.parameter.buffer, c.receive, c.receive.data, c.digits, c.response, c.response.data
    ensures c.Valid()
    ensures var es := Events(IncomingAll(chunks).delivered, replies);
            match end
            case Finished =>
              && Open(old(c.View()), es) && c.View() == Run(old(c.View()), es) && AlwaysRoom(chunks)
              && c.receive.Contents() == IncomingAll(chunks).backlog
              && c.receive.drained + c.receive.Contents() == Flatten(chunks)
            case SocketClosed => !Open(old(c.View()), es) && c.View() == Run(old(c.View()), es)
            case Stuck(at) =>
              && at < |chunks| && !HasRoom(chunks, at) && AlwaysRoom(chunks[..at])
              && CaughtUp(c, old(c.View()), chunks, replies, at)
  {
    ghost var st := c.View();
    assert chunks[..0] == [];
    var served := 0;
    for k := 0 to |chunks|
      invariant CaughtUp(c, st, chunks, replies, k) && served == |IncomingAll(chunks[..k]).delivered|
      invariant RoomSoFar(chunks, k)
    {
      var status;
      status, served := ReceiveNext(c, st, chunks, replies, k, served);
      if status.Blocked? {
        RoomOfPrefix(chunks, k);
        return Stuck(k);
      }
      if status.Terminate? {
        ClosedForGood(c, st, chunks, replies, k + 1);
        return SocketClosed;
      }
    }
    AllReceived(c, st, chunks, replies);
    return Finished;
  }

  lemma AllReceived(c: Connection, st: State, chunks: seq<seq<byte>>, replies: seq<Reply>)
    requires CaughtUp(c, st, chunks, replies, |chunks|) && RoomSoFar(chunks, |chunks|)
    ensures |IncomingAll(chunks).delivered| <= |replies|
    ensures Admissible(st, Events(IncomingAll(chunks).delivered, replies))
    ensures var es := Events(IncomingAll(chunks).delivered, replies);
            && c.Valid() && Open(st, es) && c.View() == Run(st, es) && AlwaysRoom(chunks)
            && c.receive.Contents() == IncomingAll(chunks).backlog
            && c.receive.drained + c.receive.Contents() == Flatten(chunks)
  {
    assert chunks[..|chunks|] == chunks;
    NothingLost(chunks);
  }

  lemma ClosedForGood(c: Connection, st: State, chunks: seq<seq<byte>>, replies: seq<Reply>, k: nat)
    requires k <= |chunks| && |IncomingAll(chunks).delivered| <= |replies| && ClosedBy(c, st, chunks, replies, k)
    requires Admissible(st, Events(IncomingAll(chunks).delivered, replies))
    ensures var es := Events(IncomingAll(chunks).delivered, replies);
            c.Valid() && !Open(st, es) && c.View() == Run(st, es)
  {
    Closed(st, chunks, replies, k);
  }

  predicate RoomSoFar(chunks: seq<seq<byte>>, k: nat)
    requires k <= |chunks|
  {
    forall i :: 0 <= i < k ==> HasRoom(chunks, i)
  }

  lemma RoomOfPrefix(chunks: seq<seq<byte>>, k: nat)
    requires k <= |chunks| && RoomSoFar(chunks, k)
    ensures AlwaysRoom(chunks[..k])
  {
    forall i | 0 <= i < k ensures HasRoom(chunks[..k], i) {
      assert HasRoom(chunks, i) && chunks[..k][..i] == chunks[..i];
    }
  }

  predicate AllReplies(replies: seq<Reply>)
  {
    forall i :: 0 <= i < |replies| ==> replies[i].Valid()
  }

  /** After the socket is closed, the rest of the stream makes no difference. */
  lemma Closed(st: State, chunks: seq<seq<byte>>, replies: seq<Reply>, k: nat)
    requires k <= |chunks| && |IncomingAll(chunks).delivered| <= |replies|
    requires Admissible(st, Events(IncomingAll(chunks).delivered, replies))
    requires |IncomingAll(chunks[..k]).delivered| <= |replies|
    requires Admissible(st, Events(IncomingAll(chunks[..k]).delivered, replies))
    requires !Open(st, Events(IncomingAll(chunks[..k]).delivered, replies))
    ensures var es := Events(IncomingAll(chunks[..k]).delivered, replies);
            var fs := Events(IncomingAll(chunks).delivered, replies);
            !Open(st, fs) && Run(st, fs) == Run(st, es)
  {
    DeliveredGrows(chunks, k);
    var es, fs := Events(IncomingAll(chunks[..k]).delivered, replies), Events(IncomingAll(chunks).delivered, replies);
    EventsOfPrefix(st, IncomingAll(chunks[..k]).delivered, IncomingAll(chunks).delivered, replies);
    assert fs == es + fs[|es|..];
    ClosedRunEnds(st, es, fs[|es|..]);
  }
}
