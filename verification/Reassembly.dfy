/** Turning TCP chunks into PDUs, one PDU a call at most (iscsi_connection.c:30-51). */
module Reassembly {
  import opened Bytes
  import opened Pdus

  datatype Receiver = Receiver(delivered: seq<seq<byte>>, backlog: seq<byte>)

  /** incoming_request on one chunk. */
  function Incoming(r: Receiver, chunk: seq<byte>): Receiver
  {
    var b := r.backlog + chunk;
    if Complete(b) then Receiver(r.delivered + [b[..FrameLength(b)]], b[FrameLength(b)..])
    else r.(backlog := b)
  }

  function IncomingAll(chunks: seq<seq<byte>>): Receiver
  {
    if chunks == [] then Receiver([], [])
    else Incoming(IncomingAll(chunks[..|chunks| - 1]), chunks[|chunks| - 1])
  }

  lemma FlattenLast(chunks: seq<seq<byte>>)
    requires chunks != []
    ensures Flatten(chunks) == Flatten(chunks[..|chunks| - 1]) + chunks[|chunks| - 1]
  {
    var last := chunks[|chunks| - 1];
    assert chunks == chunks[..|chunks| - 1] + [last];
    FlattenAppend(chunks[..|chunks| - 1], [last]);
    FlattenOne(last);
  }

  lemma OneCall(r: Receiver, chunk: seq<byte>)
    requires AllFrames(r.delivered)
    ensures var t := Incoming(r, chunk);
            AllFrames(t.delivered) && Flatten(t.delivered) + t.backlog == Flatten(r.delivered) + r.backlog + chunk
  {
    var b := r.backlog + chunk;
    if Complete(b) {
      var f := b[..FrameLength(b)];
      HeadIsFrame(b);
      FlattenAppend(r.delivered, [f]);
      FlattenOne(f);
      assert b == f + b[FrameLength(b)..];
    }
  }

  /**
   * For every split of a stream into chunks: the PDUs delivered and the backlog are the stream, and the PDUs are the
   * first frames of the stream's own framing, the backlog holding the others.
   */
  lemma {:induction false} NothingLost(chunks: seq<seq<byte>>)
    ensures var r := IncomingAll(chunks);
            && AllFrames(r.delivered)
            && Flatten(r.delivered) + r.backlog == Flatten(chunks)
            && Frames(Flatten(chunks)) == r.delivered + Frames(r.backlog)
  {
    var r := IncomingAll(chunks);
    if chunks != [] {
      NothingLost(chunks[..|chunks| - 1]);
      FlattenLast(chunks);
      OneCall(IncomingAll(chunks[..|chunks| - 1]), chunks[|chunks| - 1]);
    }
    FramesOfFlatten(r.delivered, r.backlog);
  }

  predicate UpToDate(chunks: seq<seq<byte>>)
  {
    IncomingAll(chunks).delivered == Frames(Flatten(chunks))
  }

  /** The k-th chunk does not complete two frames of the stream. */
  predicate OneFrameAtMost(chunks: seq<seq<byte>>, k: nat)
    requires k < |chunks|
  {
    |Frames(Flatten(chunks[..k + 1]))| <= |Frames(Flatten(chunks[..k]))| + 1
  }

  lemma UpToDateMeansIncompleteBacklog(chunks: seq<seq<byte>>)
    ensures UpToDate(chunks) <==> !Complete(IncomingAll(chunks).backlog)
  {
    NothingLost(chunks);
    var r := IncomingAll(chunks);
    if !Complete(r.backlog) {
      assert r.delivered + [] == r.delivered;
    }
  }

  lemma NextCall(chunks: seq<seq<byte>>, k: nat)
    requires k < |chunks| && UpToDate(chunks[..k])
    ensures UpToDate(chunks[..k + 1]) <==> OneFrameAtMost(chunks, k)
  {
    var now := chunks[..k + 1];
    assert now[..|now| - 1] == chunks[..k];
    NothingLost(now);
    NothingLost(chunks[..k]);
    var r := IncomingAll(now);
    assert |Frames(Flatten(now))| == |r.delivered| + |Frames(r.backlog)|;
    UpToDateMeansIncompleteBacklog(now);
    UpToDateMeansIncompleteBacklog(chunks[..k]);
    if Complete(IncomingAll(chunks[..k]).backlog + chunks[k]) {
      assert |r.delivered| == |Frames(Flatten(chunks[..k]))| + 1;
    } else {
      assert r.delivered == Frames(Flatten(chunks[..k]));
      assert !Complete(r.backlog);
    }
  }

  /** The receiver is up to date after every call exactly when no chunk completes two frames. */
  lemma {:induction false} KeepsUp(chunks: seq<seq<byte>>)
    ensures (forall k :: 0 <= k <= |chunks| ==> UpToDate(chunks[..k]))
            <==> (forall k :: 0 <= k < |chunks| ==> OneFrameAtMost(chunks, k))
  {
    assert UpToDate(chunks[..0]);
    if forall k :: 0 <= k <= |chunks| ==> UpToDate(chunks[..k]) {
      forall k | 0 <= k < |chunks| ensures OneFrameAtMost(chunks, k) {
        assert UpToDate(chunks[..k]) && UpToDate(chunks[..k + 1]);
        NextCall(chunks, k);
      }
    }
    if forall k :: 0 <= k < |chunks| ==> OneFrameAtMost(chunks, k) {
      var i := 0;
      while i < |chunks|
        invariant i <= |chunks| && forall k :: 0 <= k <= i ==> UpToDate(chunks[..k])
      {
        assert OneFrameAtMost(chunks, i);
        NextCall(chunks, i);
        i := i + 1;
      }
    }
  }

  /** Chunks of at most 48 bytes never complete two frames, so every complete PDU is delivered at once. */
  lemma {:induction false} SmallChunksKeepUp(chunks: seq<seq<byte>>)
    requires forall k :: 0 <= k < |chunks| ==> |chunks[k]| <= HEADER
    ensures UpToDate(chunks)
  {
    if chunks != [] {
      SmallChunksKeepUp(chunks[..|chunks| - 1]);
      UpToDateMeansIncompleteBacklog(chunks[..|chunks| - 1]);
    }
    UpToDateMeansIncompleteBacklog(chunks);
  }

  lemma TwoChunks(a: seq<byte>, b: seq<byte>)
    ensures IncomingAll([a, b]) == Incoming(Incoming(Receiver([], []), a), b)
  {
    assert [a, b][..1] == [a] && [a][..0] == [];
    assert IncomingAll([a]) == Incoming(IncomingAll([]), a);
  }

  /**
   * One byte more is too many: of any two header-only PDUs, the first cut before its last byte, the second stays
   * behind.
   */
  lemma FortyNineBytesFallBehind(f: seq<byte>, g: seq<byte>)
    requires IsFrame(f) && IsFrame(g) && |f| == HEADER && |g| == HEADER
    ensures var chunks := [f[..47], f[47..] + g];
            && |chunks[0]| <= HEADER && |chunks[1]| == HEADER + 1
            && IncomingAll(chunks) == Receiver([f], g) && !UpToDate(chunks)
  {
    var a, b := f[..47], f[47..] + g;
    TwoChunks(a, b);
    assert [] + a == a && !Complete(a);
    CutAt(f, 47, g);
    SecondStays(f, g);
    assert IncomingAll([a, b]) == Receiver([f], g);
    UpToDateMeansIncompleteBacklog([a, b]);
  }

  lemma CutAt(f: seq<byte>, k: nat, g: seq<byte>)
    requires k <= |f|
    ensures f[..k] + (f[k..] + g) == [] + (f + g)
  {
  }

  lemma SecondStays(f: seq<byte>, g: seq<byte>)
    requires IsFrame(f)
    ensures Incoming(Receiver([], []), f + g) == Receiver([f], g)
  {
    HeaderOfConcat(f, g);
    assert [] + (f + g) == f + g;
    assert (f + g)[..|f|] == f && (f + g)[|f|..] == g;
  }

  lemma HeaderOfConcat(f: seq<byte>, g: seq<byte>)
    requires IsFrame(f)
    ensures Complete(f + g) && FrameLength(f + g) == |f|
  {
    var s := f + g;
    assert s[4] == f[4] && s[5] == f[5] && s[6] == f[6] && s[7] == f[7];
  }
}
