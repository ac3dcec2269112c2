/** Data-In segmentation: a read cut into PDUs and put together again by the initiator (request/data_in.c). */
module ReadPath {
  import opened Bytes
  import opened Lookup
  import opened Pdus
  import opened Model
  import opened Runs
  import opened Tags

  lemma CountBounds(n: nat, max: nat)
    requires max > 0
    ensures n <= SegmentCount(n, max) * max
    ensures SegmentCount(n, max) > 1 ==> (SegmentCount(n, max) - 1) * max < n
    ensures SegmentCount(n, max) == Max(1, DivideRoundUp(n, max))
  {
    DivideRoundUpIsCeiling(n, max);
    if n == 0 {
      assert DivideRoundUp(0, max) == 0;
    }
  }

  /** The i-th segment lies where the one before it ended; only the last one is final. */
  lemma SegmentBounds(n: nat, max: nat, i: nat)
    requires max > 0 && i < SegmentCount(n, max)
    ensures 0 <= i * max <= n && (n > 0 ==> i * max < n)
    ensures (i + 1) * max == i * max + max
    ensures i * max + max >= n <==> i == SegmentCount(n, max) - 1
  {
    CountBounds(n, max);
    var k := SegmentCount(n, max);
    assert (i + 1) * max == i * max + max;
    if i == k - 1 {
      assert k * max == i * max + max;
    } else {
      MulMonotone(i + 1, k - 1, max);
    }
    if k == 1 {
      assert i * max == 0;
    } else {
      MulMonotone(i, k - 1, max);
    }
  }

  lemma MulMonotone(a: nat, b: nat, m: nat)
    requires a <= b
    ensures a * m <= b * m
  {
  }

  function Place(b: seq<byte>, p: Pdu): seq<byte>
  {
    if 0 <= p.word40 && p.word40 + |p.data| <= |b| then Patch(b, p.word40, p.data) else b
  }

  /** The initiator's buffer after storing the segments in order of arrival. */
  function PlaceAll(b: seq<byte>, ps: seq<Pdu>): seq<byte>
  {
    if ps == [] then b else Place(PlaceAll(b, ps[..|ps| - 1]), ps[|ps| - 1])
  }

  lemma SegmentFields(taskTag: int, data: seq<byte>, n: nat, max: nat, i: nat)
    requires max > 0 && n <= |data| && i < SegmentCount(n, max)
    ensures var p := DataIns(taskTag, data, n, max)[i];
            && p.word36 == i && p.word40 == i * max
            && 0 <= i * max <= Min(n, i * max + max) && p.data == Slice(data, i * max, Min(n, i * max + max))
            && |p.data| <= max
            && (BitSet(p.flags, 0) <==> i == SegmentCount(n, max) - 1)
            && p.word40 + |p.data| == if i == SegmentCount(n, max) - 1 then n else (i + 1) * max
  {
    SegmentBounds(n, max, i);
  }

  lemma {:induction false} PlacedSoFar(b: seq<byte>, taskTag: int, data: seq<byte>, n: nat, max: nat, i: nat)
    requires max > 0 && n <= |data| && |b| == n && i <= SegmentCount(n, max)
    ensures var r := PlaceAll(b, DataIns(taskTag, data, n, max)[..i]);
            |r| == n && forall x :: 0 <= x < n && x < i * max ==> r[x] == data[x]
  {
    if i > 0 {
      PlacedSoFar(b, taskTag, data, n, max, i - 1);
      SegmentFields(taskTag, data, n, max, i - 1);
      SegmentBounds(n, max, i - 1);
      var ps := DataIns(taskTag, data, n, max);
      assert ps[..i][..i - 1] == ps[..i - 1];
    }
  }

  lemma SegmentsMeet(taskTag: int, data: seq<byte>, n: nat, max: nat, i: nat)
    requires max > 0 && n <= |data| && i < SegmentCount(n, max)
    ensures var ps := DataIns(taskTag, data, n, max);
            i < |ps| - 1 ==> ps[i + 1].word40 == ps[i].word40 + |ps[i].data|
  {
    SegmentFields(taskTag, data, n, max, i);
    if i < SegmentCount(n, max) - 1 {
      SegmentFields(taskTag, data, n, max, i + 1);
    }
  }

  /**
   * Reading n bytes: max(1, ceil(n / max)) PDUs numbered 0, 1, 2, ..., contiguous, none longer than max, only the last
   * one final; storing each at its offset rebuilds the n bytes.
   */
  lemma SegmentsRebuildTheRead(b: seq<byte>, taskTag: int, data: seq<byte>, n: nat, max: nat)
    requires max > 0 && n <= |data| && |b| == n
    ensures var ps := DataIns(taskTag, data, n, max);
            && |ps| == Max(1, DivideRoundUp(n, max))
            && ps[0].word40 == 0
            && (forall i :: 0 <= i < |ps| ==> ps[i].word36 == i && |ps[i].data| <= max)
            && (forall i :: 0 <= i < |ps| - 1 ==> ps[i + 1].word40 == ps[i].word40 + |ps[i].data|)
            && (forall i :: 0 <= i < |ps| ==> (BitSet(ps[i].flags, 0) <==> i == |ps| - 1))
            && PlaceAll(b, ps) == data[..n]
  {
    var ps := DataIns(taskTag, data, n, max);
    CountBounds(n, max);
    SegmentFields(taskTag, data, n, max, 0);
    forall i | 0 <= i < |ps|
      ensures ps[i].word36 == i && |ps[i].data| <= max && (BitSet(ps[i].flags, 0) <==> i == |ps| - 1)
      ensures i < |ps| - 1 ==> ps[i + 1].word40 == ps[i].word40 + |ps[i].data|
    {
      SegmentFields(taskTag, data, n, max, i);
      SegmentsMeet(taskTag, data, n, max, i);
    }
    PlacedSoFar(b, taskTag, data, n, max, |ps|);
    assert ps[..|ps|] == ps;
  }

  lemma IndexBelowOffset(i: nat, max: nat)
    requires max > 0
    ensures i <= i * max
  {
  }

  lemma SegmentValid(taskTag: int, data: seq<byte>, n: nat, max: nat, i: nat)
    requires 0 < max < 0x100_0000 && n <= |data| && n <= MEMORY_SIZE && IsInt(taskTag) && i < SegmentCount(n, max)
    ensures DataIns(taskTag, data, n, max)[i].Valid()
  {
    SegmentFields(taskTag, data, n, max, i);
    SegmentBounds(n, max, i);
    IndexBelowOffset(i, max);
  }

  lemma SegmentsValid(taskTag: int, data: seq<byte>, n: nat, max: nat)
    requires 0 < max < 0x100_0000 && n <= |data| && n <= MEMORY_SIZE && IsInt(taskTag)
    ensures AllValid(DataIns(taskTag, data, n, max))
  {
    forall i | 0 <= i < SegmentCount(n, max) ensures DataIns(taskTag, data, n, max)[i].Valid() {
      SegmentValid(taskTag, data, n, max, i);
    }
  }

  lemma {:induction false} PlaceAllStamped(b: seq<byte>, c: Conn, ps: seq<Pdu>)
    ensures PlaceAll(b, Stamped(c, ps)) == PlaceAll(b, ps)
  {
    if ps != [] {
      PlaceAllStamped(b, c, ps[..|ps| - 1]);
      assert Stamped(c, ps)[..|ps| - 1] == Stamped(c, ps[..|ps| - 1]);
    }
  }

  /** Every PDU is a Data-In for the request's task, for no transfer, with the S bit and status 0. */
  predicate AllGood(ps: seq<Pdu>, req: Header)
  {
    forall i :: 0 <= i < |ps| ==>
      && ps[i].opcode == 0x25 && ps[i].flags % 2 == 1 && ps[i].byte2 == 0 && ps[i].byte3 == 0
      && ps[i].taskTag == Int32At(req, 16) && ps[i].transferTag == -1
  }

  /** The initiator gets `data` into its buffer b: numbered PDUs of at most max bytes, only the last of them final. */
  predicate Carries(ps: seq<Pdu>, req: Header, b: seq<byte>, data: seq<byte>, max: nat)
    requires max > 0
  {
    && PlaceAll(b, ps) == data && AllGood(ps, req) && |ps| == Max(1, DivideRoundUp(|b|, max))
    && forall i :: 0 <= i < |ps| ==>
         ps[i].word36 == i && |ps[i].data| <= max && (BitSet(ps[i].flags, 0) <==> i == |ps| - 1)
  }

  lemma DataInsAreGood(c: Conn, req: Header, data: seq<byte>, n: nat, max: nat)
    requires max > 0
    ensures AllGood(Stamped(c, DataIns(TaskTag(req), data, n, max)), req)
  {
  }

  /** How much a read returns: what was asked for, cut to what the device did not leave out of its 4 MB. */
  function Returned(req: Header, reply: Reply): int
  {
    match reply
    case Failed => Min(ExpectedLength(req), 0x40_0000)
    case Done(_, resid, _, _) => Min(ExpectedLength(req), 0x40_0000 - resid)
  }

  /** The device buffer after a command that saw `seen`. */
  function BufferAfter(seen: seq<byte>, reply: Reply): seq<byte>
  {
    match reply
    case Failed => seen
    case Done(buffer, _, _, _) => buffer
  }

  lemma ExecutedFields(s: Target, cdb: seq<byte>, x: Option<int>, req: Header, reply: Reply)
    requires reply.Valid()
    ensures var t := Executed(s, cdb, x, reply);
            t.buffer == BufferAfter(s.buffer, reply) && ReadLength(req, t) == Returned(req, reply)
  {
  }

  /** A read command in a normal session. */
  predicate ReadCommand(st: State, e: Event)
  {
    && Normal(st) && StepOk(st, e) && Opcode(e.request) == SCSI_CMD && IsRead(e.request) && !NeedsR2t(e.request)
  }

  /**
   * A read command, from the request to the initiator's buffer: the bytes the command appends are whole PDUs for the
   * request's task, none longer than the negotiated length, whose data, stored at their offsets, are the device buffer
   * as the command left it, cut to what was asked for and what there is; and every one of them reports status GOOD,
   * whatever the device answered.
   */
  lemma ReadEndToEnd(st: State, e: Event, b: seq<byte>)
    requires ReadCommand(st, e) && |b| == Returned(e.request, e.reply)
    ensures var after := Step(st, e.request, e.reply).state;
            var bytes, seen := Appended(st, after), BufferAfter(st.target.buffer, e.reply);
            && st.out <= after.out && Rest(bytes) == [] && |b| <= |seen| && after.target.buffer == seen
            && Carries(Parse(bytes), e.request, b, seen[..|b|], st.conn.params.maxReceive)
  {
    var req := e.request;
    var t := Executed(st.target, Cdb(req), None, e.reply);
    var c := Counted(st).(target := t);
    var n, max := |b|, st.conn.params.maxReceive;
    CommandStep(st, e, Step(st, req, e.reply));
    ExecutedFields(st.target, Cdb(req), None, req, e.reply);
    ReadIsSent(st, req, e.reply, t);
    ReadOnTheWire(c, req, t.buffer, n, max, b);
    assert Appended(st, Sent(c, DataIns(TaskTag(req), t.buffer, n, max)))
        == Appended(c, Sent(c, DataIns(TaskTag(req), t.buffer, n, max)));
  }

  lemma ReadIsSent(st: State, req: Header, reply: Reply, t: Target)
    requires st.Valid() && st.session.fullFeature && Acceptable(st, req) && reply.Valid()
    requires Opcode(req) == SCSI_CMD && IsRead(req) && !NeedsR2t(req) && t == Executed(st.target, Cdb(req), None, reply)
    requires ReadLength(req, t) >= 0
    ensures Cmd(st, req, reply)
            == Sent(Counted(st).(target := t),
                    DataIns(TaskTag(req), t.buffer, ReadLength(req, t), st.conn.params.maxReceive))
  {
  }

  /** The segments, once they are on the wire. */
  lemma ReadOnTheWire(c: State, req: Header, data: seq<byte>, n: nat, max: nat, b: seq<byte>)
    requires IsInt(c.conn.expCmdSn) && 0 < max < 0x100_0000 && n <= |data| && n <= MEMORY_SIZE && |b| == n
    ensures var t := Sent(c, DataIns(TaskTag(req), data, n, max));
            var ps := Parse(Appended(c, t));
            c.out <= t.out && Rest(Appended(c, t)) == [] && Carries(ps, req, b, data[..n], max)
  {
    var ps := DataIns(TaskTag(req), data, n, max);
    SegmentsValid(TaskTag(req), data, n, max);
    SentParses(c, ps);
    PlaceAllStamped(b, c.conn, ps);
    SegmentsRebuildTheRead(b, TaskTag(req), data, n, max);
    DataInsAreGood(c.conn, req, data, n, max);
  }

  /** The status and the success the initiator reads are the device's. */
  predicate Honest(ps: seq<Pdu>, reply: Reply)
  {
    reply.Done? && forall i :: 0 <= i < |ps| ==> ps[i].byte3 == reply.status
  }

  /**
   * What a read reports is what happened exactly when the device succeeded with status 0. A read the device did not
   * execute at all returns what its buffer held before, in full, as a success.
   */
  lemma ReadIsHonestIff(st: State, e: Event, b: seq<byte>)
    requires ReadCommand(st, e) && |b| == Returned(e.request, e.reply)
    ensures var ps := Parse(Appended(st, Step(st, e.request, e.reply).state));
            && ps != [] && (Honest(ps, e.reply) <==> e.reply.Done? && e.reply.status == 0)
            && (e.reply.Failed? ==>
                  PlaceAll(b, ps) == Slice(st.target.buffer, 0, Min(ExpectedLength(e.request), 0x40_0000)))
  {
    ReadEndToEnd(st, e, b);
    var ps := Parse(Appended(st, Step(st, e.request, e.reply).state));
    HonestIffGood(ps, e.request, e.reply);
    FrontOfBuffer(st.target.buffer, |b|);
  }

  lemma HonestIffGood(ps: seq<Pdu>, req: Header, reply: Reply)
    requires ps != [] && AllGood(ps, req)
    ensures Honest(ps, reply) <==> reply.Done? && reply.status == 0
  {
    assert ps[0].byte3 == 0;
  }

  lemma FrontOfBuffer(buffer: seq<byte>, n: nat)
    ensures n <= |buffer| ==> buffer[..n] == Slice(buffer, 0, n)
  {
  }
}
