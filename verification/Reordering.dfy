/** The order of the Data-Outs before the last one does not matter (request/data_out.c:41-59). */
module Reordering {
  import opened Bytes
  import opened Pdus
  import opened Model
  import opened Runs
  import opened Transfers

  /** A Data-Out of the write in progress that does not end it. */
  predicate Piece(e: Event, w: Write)
  {
    && IsFrame(e.request) && e.request[4] == 0 && GateFriendly(e.request, w.sn)
    && Opcode(e.request) == SCSI_DATA_OUT && TransferTag(e.request) == w.tag
    && 0 <= BufferOffset(e.request) && BufferOffset(e.request) + DataLength(e.request) <= MEMORY_SIZE
    && BufferOffset(e.request) + DataLength(e.request) != w.total
  }

  predicate Touches(e: Event, x: int)
    requires |e.request| >= HEADER
  {
    BufferOffset(e.request) <= x < BufferOffset(e.request) + |Segment(e.request)|
  }

  function ByteAt(e: Event, x: int): byte
    requires |e.request| >= HEADER && Touches(e, x)
  {
    Segment(e.request)[x - BufferOffset(e.request)]
  }

  predicate AllPieces(es: seq<Event>, w: Write)
  {
    forall i :: 0 <= i < |es| ==> Piece(es[i], w)
  }

  /** Different pieces do not overlap; in particular, pairwise disjoint ones. */
  ghost predicate Disjoint(es: seq<Event>, w: Write)
    requires AllPieces(es, w)
  {
    forall i, j, x :: 0 <= i < |es| && 0 <= j < |es| && Touches(es[i], x) && Touches(es[j], x) ==> es[i] == es[j]
  }

  function StoredAll(e: Entry, es: seq<Event>, w: Write): (r: Entry)
    requires AllPieces(es, w) && |e.data| == MEMORY_SIZE
    ensures |r.data| == MEMORY_SIZE && r == e.(data := r.data)
    decreases |es|
  {
    if es == [] then e
    else
      FrameHasSegment(es[0].request);
      StoredAll(Stored(e, es[0].request), es[1..], w)
  }

  /** The session once the gate has been passed with sn. */
  function Opened(s: Session, sn: int): Session
  {
    s.(expCmdSn := sn, numberingStarted := true)
  }

  lemma PieceStep(st: State, w: Write, e: Event)
    requires InProgress(st, w) && StepOk(st, e) && Piece(e, w)
    ensures |Segment(e.request)| == DataLength(e.request)
    ensures Step(st, e.request, e.reply)
            == Outcome(st.(session := Opened(st.session, w.sn).(entry := Stored(st.session.entry, e.request))), false)
    ensures InProgress(Step(st, e.request, e.reply).state, w)
  {
    FrameHasSegment(e.request);
    GatePasses(st, w, e);
    var g := st.(session := Gate(st, e.request).1);
    FullFeatureFrame(g, e.request, e.reply);
  }

  /** Pieces only fill the entry: nothing runs, nothing is sent. */
  lemma {:induction false} PiecesRun(st: State, w: Write, es: seq<Event>)
    requires InProgress(st, w) && Admissible(st, es) && AllPieces(es, w) && es != []
    ensures Run(st, es) == st.(session := Opened(st.session, w.sn).(entry := StoredAll(st.session.entry, es, w)))
    decreases |es|
  {
    PieceStep(st, w, es[0]);
    if |es| > 1 {
      PiecesRun(Step(st, es[0].request, es[0].reply).state, w, es[1..]);
    }
  }

  lemma {:induction false} UntouchedStays(e: Entry, es: seq<Event>, w: Write, x: nat)
    requires AllPieces(es, w) && |e.data| == MEMORY_SIZE && x < MEMORY_SIZE
    requires forall i :: 0 <= i < |es| ==> !Touches(es[i], x)
    ensures StoredAll(e, es, w).data[x] == e.data[x]
    decreases |es|
  {
    if es != [] {
      FrameHasSegment(es[0].request);
      UntouchedStays(Stored(e, es[0].request), es[1..], w, x);
    }
  }

  lemma DisjointTail(es: seq<Event>, w: Write)
    requires AllPieces(es, w) && Disjoint(es, w) && es != []
    ensures AllPieces(es[1..], w) && Disjoint(es[1..], w)
  {
    var tail := es[1..];
    assert forall j :: 0 <= j < |tail| ==> tail[j] == es[j + 1];
  }

  /** The piece es[i] is es[0] or one of the tail. */
  lemma TouchedByTail(es: seq<Event>, w: Write, x: int, i: nat, j: nat)
    requires AllPieces(es, w) && Disjoint(es, w) && i < |es| && Touches(es[i], x)
    requires j < |es| - 1 && Touches(es[1..][j], x)
    ensures es[1..][j] == es[i]
  {
    assert es[1..][j] == es[j + 1];
  }

  lemma TouchedLater(es: seq<Event>, w: Write, x: int, i: nat)
    requires 0 < i < |es| && AllPieces(es, w) && AllPieces(es[1..], w) && Touches(es[i], x)
    ensures exists j :: 0 <= j < |es[1..]| && Touches(es[1..][j], x)
  {
    assert es[1..][i - 1] == es[i];
  }

  lemma UntouchedLater(es: seq<Event>, w: Write, x: int, i: nat)
    requires i < |es| && AllPieces(es, w) && AllPieces(es[1..], w) && Touches(es[i], x)
    requires forall j :: 0 <= j < |es[1..]| ==> !Touches(es[1..][j], x)
    ensures i == 0
  {
    if i > 0 {
      TouchedLater(es, w, x, i);
      assert false;
    }
  }

  lemma StoredByte(e: Entry, req: Header, x: nat)
    requires |e.data| == MEMORY_SIZE && x < MEMORY_SIZE && 0 <= BufferOffset(req)
    requires BufferOffset(req) + |Segment(req)| <= MEMORY_SIZE
    requires BufferOffset(req) <= x < BufferOffset(req) + |Segment(req)|
    ensures Stored(e, req).data[x] == Segment(req)[x - BufferOffset(req)]
  {
  }

  lemma {:induction false} TouchedIsWritten(e: Entry, es: seq<Event>, w: Write, x: nat, i: nat)
    requires AllPieces(es, w) && |e.data| == MEMORY_SIZE && x < MEMORY_SIZE && Disjoint(es, w)
    requires i < |es| && Touches(es[i], x)
    ensures StoredAll(e, es, w).data[x] == ByteAt(es[i], x)
    decreases |es|
  {
    FrameHasSegment(es[0].request);
    DisjointTail(es, w);
    var next, tail := Stored(e, es[0].request), es[1..];
    if j :| 0 <= j < |tail| && Touches(tail[j], x) {
      TouchedByTail(es, w, x, i, j);
      TouchedIsWritten(next, tail, w, x, j);
    } else {
      UntouchedLater(es, w, x, i);
      UntouchedStays(next, tail, w, x);
      StoredByte(e, es[0].request, x);
    }
  }

  predicate SameEvents(es: seq<Event>, fs: seq<Event>)
  {
    && (forall i :: 0 <= i < |es| ==> es[i] in fs)
    && (forall i :: 0 <= i < |fs| ==> fs[i] in es)
  }

  lemma SameEventsDisjoint(es: seq<Event>, fs: seq<Event>, w: Write)
    requires AllPieces(es, w) && AllPieces(fs, w) && SameEvents(es, fs) && Disjoint(es, w)
    ensures Disjoint(fs, w)
  {
    forall i, j, x | 0 <= i < |fs| && 0 <= j < |fs| && Touches(fs[i], x) && Touches(fs[j], x) ensures fs[i] == fs[j] {
      assert fs[i] in es && fs[j] in es;
    }
  }

  lemma StoringCommutes(e: Entry, es: seq<Event>, fs: seq<Event>, w: Write)
    requires AllPieces(es, w) && AllPieces(fs, w) && |e.data| == MEMORY_SIZE
    requires SameEvents(es, fs) && Disjoint(es, w)
    ensures StoredAll(e, es, w) == StoredAll(e, fs, w)
  {
    SameEventsDisjoint(es, fs, w);
    var a, b := StoredAll(e, es, w).data, StoredAll(e, fs, w).data;
    forall x | 0 <= x < MEMORY_SIZE ensures a[x] == b[x] {
      if i :| 0 <= i < |es| && Touches(es[i], x) {
        assert es[i] in fs;
        var j :| 0 <= j < |fs| && fs[j] == es[i];
        TouchedIsWritten(e, es, w, x, i);
        TouchedIsWritten(e, fs, w, x, j);
      } else {
        forall j | 0 <= j < |fs| ensures !Touches(fs[j], x) {
          assert fs[j] in es;
        }
        UntouchedStays(e, es, w, x);
        UntouchedStays(e, fs, w, x);
      }
    }
    assert a == b;
  }

  lemma PermutationSame(es: seq<Event>, fs: seq<Event>)
    requires multiset(es) == multiset(fs)
    ensures SameEvents(es, fs) && |es| == |fs|
  {
    assert |multiset(es)| == |es| && |multiset(fs)| == |fs|;
    forall i | 0 <= i < |es| ensures es[i] in fs {
      assert es[i] in multiset(es);
    }
    forall i | 0 <= i < |fs| ensures fs[i] in es {
      assert fs[i] in multiset(fs);
    }
  }

  /**
   * Pieces that do not overlap, in any two orders: nothing runs before the Data-Out that ends the transfer, and the
   * whole state after the pieces, and after whatever follows them, is the same.
   */
  lemma OrderDoesNotMatter(st: State, w: Write, es: seq<Event>, fs: seq<Event>, rest: seq<Event>)
    requires InProgress(st, w) && AllPieces(es, w) && AllPieces(fs, w) && Disjoint(es, w)
    requires multiset(es) == multiset(fs)
    requires Admissible(st, es + rest) && Admissible(st, fs + rest)
    ensures Admissible(st, es) && Run(st, es).target == st.target && Run(st, es).out == st.out
    ensures Run(st, es + rest) == Run(st, fs + rest)
  {
    PermutationSame(es, fs);
    RunInTwo(st, es, rest);
    RunInTwo(st, fs, rest);
    if es != [] {
      PiecesRun(st, w, es);
      PiecesRun(st, w, fs);
      StoringCommutes(st.session.entry, es, fs, w);
    }
  }
}
