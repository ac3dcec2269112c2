/**
 * The response buffer between two threads: the receiver thread appends responses, the transmitter thread peeks
 * without the lock, sends under it and flushes under it (main.c:126-159, iscsi_buffer.c:14-67). Every action below
 * is one atomic step; a run is any interleaving.
 */
module Transmit {
  import opened Bytes
  import opened Pdus
  import opened Buffers

  datatype Producer =
    | Idle
    | Waiting(pdu: seq<byte>)   // wants room, does not hold the lock
    | Checking(pdu: seq<byte>)  // holds the lock, has not looked at the free space yet
    | Filling(pdu: seq<byte>)   // holds the lock, writes its reserved region

  datatype Consumer =
    | ReadLength                // iscsi_buffer_length, no lock
    | ReadHeader(length: nat)   // iscsi_pdu_valid on the length read before, no lock
    | Measure                   // iscsi_pdu_length, no lock
    | Lock(n: nat)
    | Send(n: nat)              // holds the lock
    | Unlock(n: nat)            // holds the lock
    | CheckFlush(n: nat)        // the assertion of iscsi_buffer_flush, no lock
    | FlushLock(n: nat)
    | Shift(n: nat, i: nat)     // holds the lock; bytes below i are moved

  datatype State = State(
    data: seq<byte>, length: nat, held: bool, producer: Producer, consumer: Consumer,
    appended: seq<byte>, sent: seq<byte>, flushed: nat)

  datatype Action =
    | Request(pdu: seq<byte>) | TryLock | Retry | Reserve | Write(at: nat, b: byte) | Publish
    | Consume

  function Init(data: seq<byte>): State
  {
    State(data, 0, false, Idle, ReadLength, [], [], 0)
  }

  predicate Enabled(s: State, a: Action)
  {
    match a
    case Request(pdu) => s.producer.Idle? && IsFrame(pdu) && |pdu| <= BUFFER_SIZE
    case TryLock => s.producer.Waiting? && !s.held
    case Retry => s.producer.Checking? && BUFFER_SIZE - s.length < |s.producer.pdu|
    case Reserve => s.producer.Checking? && BUFFER_SIZE - s.length >= |s.producer.pdu|
    case Write(at, b) => s.producer.Filling? && at < |s.producer.pdu| && s.length + at < |s.data|
    case Publish =>
      && s.producer.Filling? && s.length + |s.producer.pdu| <= |s.data|
      && s.data[s.length..s.length + |s.producer.pdu|] == s.producer.pdu
    case Consume => (s.consumer.Lock? || s.consumer.FlushLock?) ==> !s.held
  }

  function Do(s: State, a: Action): State
    requires Enabled(s, a)
  {
    match a
    case Request(pdu) => s.(producer := Waiting(pdu))
    case TryLock => s.(producer := Checking(s.producer.pdu), held := true)
    case Retry => s.(producer := Waiting(s.producer.pdu), held := false)
    case Reserve =>
      var n := |s.producer.pdu|;
      s.(producer := Filling(s.producer.pdu),
         data := if s.length + n <= |s.data| then Patch(s.data, s.length, Zeros(n)) else s.data)
    case Write(at, b) => s.(data := s.data[s.length + at := b])
    case Publish =>
      s.(producer := Idle, length := s.length + |s.producer.pdu|, held := false,
         appended := s.appended + s.producer.pdu)
    case Consume => ConsumerStep(s)
  }

  function ConsumerStep(s: State): State
  {
    match s.consumer
    case ReadLength => s.(consumer := ReadHeader(s.length))
    case ReadHeader(l) => s.(consumer := if HeaderFits(s.data, l) then Measure else ReadLength)
    case Measure => s.(consumer := Lock(if |s.data| >= HEADER then FrameLength(s.data) else 0))
    case Lock(n) => s.(consumer := Send(n), held := true)
    case Send(n) => s.(consumer := Unlock(n), sent := s.sent + if n <= |s.data| then s.data[..n] else s.data)
    case Unlock(n) => s.(consumer := CheckFlush(n), held := false)
    case CheckFlush(n) => s.(consumer := FlushLock(n))
    case FlushLock(n) => s.(consumer := Shift(n, 0), held := true)
    case Shift(n, i) =>
      if i + n < s.length && i + n < |s.data| then
        s.(consumer := Shift(n, i + 1), data := s.data[i := s.data[i + n]])
      else
        s.(consumer := ReadLength, held := false,
           length := if n <= s.length then s.length - n else 0, flushed := s.flushed + n)
  }

  predicate HeaderFits(data: seq<byte>, l: nat)
  {
    |data| >= HEADER && Max(FrameLength(data), HEADER) <= l
  }

  predicate Legal(s: State, run: seq<Action>)
    decreases |run|
  {
    run == [] || (Enabled(s, run[0]) && Legal(Do(s, run[0]), run[1..]))
  }

  function Run(s: State, run: seq<Action>): State
    requires Legal(s, run)
    decreases |run|
  {
    if run == [] then s else Run(Do(s, run[0]), run[1..])
  }

  // Streams of whole frames.

  predicate Whole(s: seq<byte>)
  {
    Rest(s) == []
  }

  lemma WholeAppend(s: seq<byte>, f: seq<byte>)
    requires Whole(s) && IsFrame(f)
    ensures Whole(s + f)
  {
    FramesRebuild(s);
    assert Flatten(Frames(s)) == s;
    FramesOfFlatten(Frames(s), f);
    assert f[FrameLength(f)..] == [];
  }

  lemma WholeHead(s: seq<byte>)
    requires Whole(s) && s != []
    ensures Complete(s) && Whole(s[FrameLength(s)..]) && IsFrame(s[..FrameLength(s)])
  {
    HeadIsFrame(s);
  }

  // What every interleaving keeps.

  function Pending(s: State): seq<byte>
    requires s.flushed <= |s.appended|
  {
    s.appended[s.flushed..]
  }

  predicate ProducerHolds(s: State) { s.producer.Checking? || s.producer.Filling? }

  predicate ConsumerHolds(s: State) { s.consumer.Send? || s.consumer.Unlock? || s.consumer.Shift? }

  /** The transmitter has sent its PDU and not flushed it yet. */
  predicate SentNotFlushed(c: Consumer) { c.Unlock? || c.CheckFlush? || c.FlushLock? || c.Shift? }

  predicate Measured(c: Consumer) { c.Lock? || c.Send? || SentNotFlushed(c) }

  predicate ArrayOk(s: State)
    requires s.flushed <= |s.appended|
  {
    && |s.data| == BUFFER_SIZE && s.length <= BUFFER_SIZE && s.length == |Pending(s)|
    && var p := Pending(s);
       if s.consumer.Shift? then
         && s.consumer.n + s.consumer.i <= s.length
         && (forall k :: 0 <= k < s.consumer.i ==> s.data[k] == p[s.consumer.n + k])
         && (forall k :: s.consumer.i <= k < s.length ==> s.data[k] == p[k])
       else s.data[..s.length] == p
  }

  predicate ProducerOk(s: State)
  {
    && (!s.producer.Idle? ==> IsFrame(s.producer.pdu) && |s.producer.pdu| <= BUFFER_SIZE)
    && (s.producer.Filling? ==> s.length + |s.producer.pdu| <= BUFFER_SIZE)
  }

  predicate ConsumerOk(s: State)
    requires s.flushed <= |s.appended|
  {
    var p := Pending(s);
    && (s.consumer.ReadHeader? ==>
          && s.consumer.length <= s.length
          && (s.consumer.length > 0 ==> Complete(p) && FrameLength(p) <= s.consumer.length))
    && (s.consumer.Measure? ==> Complete(p))
    && (Measured(s.consumer) ==> Complete(p) && s.consumer.n == FrameLength(p))
  }

  predicate SentOk(s: State)
    requires s.flushed <= |s.appended|
  {
    var p := Pending(s);
    if SentNotFlushed(s.consumer) then s.consumer.n <= |p| && s.sent == s.appended[..s.flushed] + p[..s.consumer.n]
    else s.sent == s.appended[..s.flushed]
  }

  predicate Inv(s: State)
  {
    && s.held == (ProducerHolds(s) || ConsumerHolds(s)) && !(ProducerHolds(s) && ConsumerHolds(s))
    && s.flushed <= |s.appended|
    && Whole(Pending(s)) && Whole(s.sent)
    && ArrayOk(s) && ProducerOk(s) && ConsumerOk(s) && SentOk(s)
  }

  lemma InitInv(data: seq<byte>)
    requires |data| == BUFFER_SIZE
    ensures Inv(Init(data))
  {
  }

  lemma SameHeader(s: seq<byte>, t: seq<byte>)
    requires |s| >= HEADER && |t| >= HEADER && s[..HEADER] == t[..HEADER]
    ensures FrameLength(s) == FrameLength(t)
  {
    assert s[4] == s[..HEADER][4] && s[5] == s[..HEADER][5] && s[6] == s[..HEADER][6] && s[7] == s[..HEADER][7];
  }

  /** While the head is not being shifted away, the array shows the header of the oldest unflushed PDU. */
  lemma HeadVisible(s: State)
    requires Inv(s) && !s.consumer.Shift? && s.length > 0
    ensures Complete(Pending(s)) && FrameLength(s.data) == FrameLength(Pending(s)) <= s.length
    ensures s.data[..FrameLength(s.data)] == Pending(s)[..FrameLength(s.data)]
  {
    var p := Pending(s);
    WholeHead(p);
    assert s.data[..HEADER] == s.data[..s.length][..HEADER];
    SameHeader(s.data, p);
    assert s.data[..FrameLength(p)] == s.data[..s.length][..FrameLength(p)];
  }

  lemma ProducerKeepsInv(s: State, a: Action)
    requires Inv(s) && Enabled(s, a) && !a.Consume? && !a.Publish?
    ensures Inv(Do(s, a))
  {
    var t := Do(s, a);
    if !s.consumer.Shift? {
      assert t.data[..s.length] == s.data[..s.length];
    }
  }

  lemma HeadStays(p: seq<byte>, pdu: seq<byte>)
    requires Complete(p)
    ensures Complete(p + pdu) && FrameLength(p + pdu) == FrameLength(p)
    ensures (p + pdu)[..FrameLength(p)] == p[..FrameLength(p)]
  {
    assert (p + pdu)[..HEADER] == p[..HEADER];
    SameHeader(p, p + pdu);
  }

  // Three facts about slices of plain sequences.

  lemma FilledSlice(data: seq<byte>, length: nat, pdu: seq<byte>)
    requires length + |pdu| <= |data| && data[length..length + |pdu|] == pdu
    ensures data[..length + |pdu|] == data[..length] + pdu
  {
  }

  lemma FlushedSlices(appended: seq<byte>, flushed: nat, n: nat)
    requires flushed + n <= |appended|
    ensures appended[flushed + n..] == appended[flushed..][n..]
    ensures appended[..flushed + n] == appended[..flushed] + appended[flushed..][..n]
  {
  }

  lemma ShiftedSlice(data: seq<byte>, p: seq<byte>, n: nat)
    requires n <= |p| <= |data| && forall k :: 0 <= k < |p| - n ==> data[k] == p[n + k]
    ensures data[..|p| - n] == p[n..]
  {
  }

  lemma AppendedSlices(appended: seq<byte>, flushed: nat, pdu: seq<byte>)
    requires flushed <= |appended|
    ensures (appended + pdu)[flushed..] == appended[flushed..] + pdu
    ensures (appended + pdu)[..flushed] == appended[..flushed]
  {
  }

  lemma PublishedPending(s: State)
    requires Inv(s) && Enabled(s, Publish)
    ensures var t := Do(s, Publish);
            && t.flushed <= |t.appended| && Pending(t) == Pending(s) + s.producer.pdu && Whole(Pending(t))
            && t.appended[..t.flushed] == s.appended[..s.flushed] && ArrayOk(t)
  {
    AppendedSlices(s.appended, s.flushed, s.producer.pdu);
    WholeAppend(Pending(s), s.producer.pdu);
    FilledSlice(s.data, s.length, s.producer.pdu);
  }

  lemma PublishedConsumer(s: State)
    requires Inv(s) && Enabled(s, Publish)
    requires var t := Do(s, Publish);
             && t.flushed <= |t.appended| && Pending(t) == Pending(s) + s.producer.pdu
             && t.appended[..t.flushed] == s.appended[..s.flushed]
    ensures ConsumerOk(Do(s, Publish)) && SentOk(Do(s, Publish))
  {
    if Complete(Pending(s)) {
      HeadStays(Pending(s), s.producer.pdu);
    }
  }

  lemma PublishKeepsInv(s: State)
    requires Inv(s) && Enabled(s, Publish)
    ensures Inv(Do(s, Publish))
  {
    PublishedPending(s);
    PublishedConsumer(s);
  }

  lemma PeekKeepsInv(s: State)
    requires Inv(s) && (s.consumer.ReadLength? || s.consumer.ReadHeader? || s.consumer.Measure? || s.consumer.Lock?)
    requires Enabled(s, Consume)
    ensures Inv(Do(s, Consume))
  {
    if s.length > 0 {
      HeadVisible(s);
    }
  }

  lemma SendKeepsInv(s: State)
    requires Inv(s) && s.consumer.Send?
    ensures Inv(Do(s, Consume))
  {
    HeadVisible(s);
    var n := s.consumer.n;
    WholeHead(Pending(s));
    WholeAppend(s.sent, Pending(s)[..n]);
  }

  lemma FlushKeepsInv(s: State)
    requires Inv(s) && Enabled(s, Consume)
    requires s.consumer.Unlock? || s.consumer.CheckFlush? || s.consumer.FlushLock?
    ensures Inv(Do(s, Consume))
  {
    assert forall k :: 0 <= k < s.length ==> s.data[k] == s.data[..s.length][k];
  }

  lemma ShiftKeepsInv(s: State)
    requires Inv(s) && s.consumer.Shift?
    ensures Inv(Do(s, Consume))
  {
    if Do(s, Consume).consumer.ReadLength? {
      LastShiftKeepsInv(s);
    }
  }

  /** The shift is over: what follows the flushed PDU is at the front. */
  predicate ShiftOver(s: State)
  {
    && s.flushed <= |s.appended| && s.consumer.Shift? && s.length == |Pending(s)| <= |s.data| == BUFFER_SIZE
    && s.consumer.n <= s.length && s.consumer.i == s.length - s.consumer.n
    && forall k :: 0 <= k < s.consumer.i ==> s.data[k] == Pending(s)[s.consumer.n + k]
  }

  lemma InvShiftOver(s: State)
    requires Inv(s) && s.consumer.Shift? && Do(s, Consume).consumer.ReadLength?
    ensures ShiftOver(s) && Whole(Pending(s)[s.consumer.n..])
    ensures s.sent == s.appended[..s.flushed] + Pending(s)[..s.consumer.n]
  {
    WholeHead(Pending(s));
  }

  lemma FlushedPending(s: State)
    requires ShiftOver(s)
    ensures var t := Do(s, Consume);
            && t.consumer.ReadLength? && t.flushed <= |t.appended| && Pending(t) == Pending(s)[s.consumer.n..]
            && t.length == |Pending(t)| && t.data == s.data && t.data[..t.length] == Pending(t)
            && t.appended[..t.flushed] == s.appended[..s.flushed] + Pending(s)[..s.consumer.n]
  {
    FlushedSlices(s.appended, s.flushed, s.consumer.n);
    ShiftedSlice(s.data, Pending(s), s.consumer.n);
  }

  lemma LastShiftKeepsInv(s: State)
    requires Inv(s) && s.consumer.Shift? && Do(s, Consume).consumer.ReadLength?
    ensures Inv(Do(s, Consume))
  {
    InvShiftOver(s);
    FlushedPending(s);
  }

  lemma StepKeepsInv(s: State, a: Action)
    requires Inv(s) && Enabled(s, a)
    ensures Inv(Do(s, a))
  {
    if a.Publish? {
      PublishKeepsInv(s);
    } else if !a.Consume? {
      ProducerKeepsInv(s, a);
    } else {
      match s.consumer
      case Send(_) => SendKeepsInv(s);
      case Shift(_, _) => ShiftKeepsInv(s);
      case Unlock(_) => FlushKeepsInv(s);
      case CheckFlush(_) => FlushKeepsInv(s);
      case FlushLock(_) => FlushKeepsInv(s);
      case _ => PeekKeepsInv(s);
    }
  }

  lemma {:induction false} RunKeepsInv(s: State, run: seq<Action>)
    requires Inv(s) && Legal(s, run)
    ensures Inv(Run(s, run))
    decreases |run|
  {
    if run != [] {
      StepKeepsInv(s, run[0]);
      RunKeepsInv(Do(s, run[0]), run[1..]);
    }
  }

  // Safety.

  /** Bytes in the array that have not been sent, wherever the transmitter is. */
  function Unsent(s: State): seq<byte>
    requires Inv(s)
  {
    match s.consumer
    case Unlock(n) => s.data[n..s.length]
    case CheckFlush(n) => s.data[n..s.length]
    case FlushLock(n) => s.data[n..s.length]
    case Shift(n, i) => s.data[..i] + s.data[i + n..s.length]
    case _ => s.data[..s.length]
  }

  lemma MiddleSlice(data: seq<byte>, n: nat, length: nat)
    requires n <= length <= |data|
    ensures data[n..length] == data[..length][n..]
  {
  }

  lemma ShiftingSlice(data: seq<byte>, p: seq<byte>, n: nat, i: nat)
    requires n + i <= |p| <= |data|
    requires forall k :: 0 <= k < i ==> data[k] == p[n + k]
    requires forall k :: i <= k < |p| ==> data[k] == p[k]
    ensures data[..i] + data[i + n..|p|] == p[n..]
  {
  }

  lemma UnsentIsPending(s: State)
    requires Inv(s)
    ensures Unsent(s) == if SentNotFlushed(s.consumer) then Pending(s)[s.consumer.n..] else Pending(s)
  {
    if s.consumer.Shift? {
      ShiftingSlice(s.data, Pending(s), s.consumer.n, s.consumer.i);
    } else if SentNotFlushed(s.consumer) {
      MiddleSlice(s.data, s.consumer.n, s.length);
    }
  }

  lemma SplitThree(appended: seq<byte>, flushed: nat, n: nat)
    requires flushed + n <= |appended|
    ensures appended[..flushed] + appended[flushed..][..n] + appended[flushed..][n..] == appended
    ensures appended[..flushed] + appended[flushed..] == appended
  {
  }

  lemma SentThenUnsent(s: State)
    requires Inv(s)
    ensures s.sent + Unsent(s) == s.appended
  {
    UnsentIsPending(s);
    SplitThree(s.appended, s.flushed, if SentNotFlushed(s.consumer) then s.consumer.n else 0);
  }

  lemma SentIsFramePrefix(s: State)
    requires Inv(s)
    ensures Frames(s.sent) <= Frames(s.appended)
  {
    SentThenUnsent(s);
    FramesRebuild(s.sent);
    assert Flatten(Frames(s.sent)) == s.sent;
    FramesOfFlatten(Frames(s.sent), Unsent(s));
  }

  /**
   * Every run: nothing is lost, duplicated or reordered, only whole PDUs are sent, both threads never hold the lock
   * together, and from the peek to the flush the transmitter's length is the length of the PDU at the head, so the
   * assertion of the flush holds.
   */
  lemma EveryRunIsSafe(data: seq<byte>, run: seq<Action>)
    requires |data| == BUFFER_SIZE && Legal(Init(data), run)
    ensures var s := Run(Init(data), run);
            && Inv(s)
            && s.sent + Unsent(s) == s.appended
            && Rest(s.sent) == [] && Frames(s.sent) <= Frames(s.appended)
            && !(ProducerHolds(s) && ConsumerHolds(s))
            && (Measured(s.consumer) ==> HEADER <= s.consumer.n <= s.length)
            && (Measured(s.consumer) && !s.consumer.Shift? ==> s.consumer.n == FrameLength(s.data))
  {
    InitInv(data);
    RunKeepsInv(Init(data), run);
    var s := Run(Init(data), run);
    SentThenUnsent(s);
    SentIsFramePrefix(s);
    if s.length > 0 && !s.consumer.Shift? {
      HeadVisible(s);
    }
  }

  // Waiting for room ends.

  /** The producer wants room that is not there. */
  predicate Starved(s: State)
  {
    && (s.producer.Waiting? || s.producer.Checking?)
    && s.length <= BUFFER_SIZE && BUFFER_SIZE - s.length < |s.producer.pdu|
  }

  const ROUND := BUFFER_SIZE + 20

  /** Bounds the transmitter's remaining steps of the current round. */
  function Phase(s: State): int
  {
    match s.consumer
    case ReadHeader(l) => if HeaderFits(s.data, l) then ROUND - 2 else ROUND
    case ReadLength => ROUND - 1
    case Measure => ROUND - 3
    case Lock(_) => ROUND - 4
    case Send(_) => ROUND - 5
    case Unlock(_) => ROUND - 6
    case CheckFlush(_) => ROUND - 7
    case FlushLock(_) => ROUND - 8
    case Shift(n, i) => s.length - n - i
  }

  function Rank(s: State): int
  {
    s.length * (ROUND + 1) + Phase(s)
  }

  /** What the rank depends on. */
  predicate Placed(s: State)
  {
    s.consumer.Shift? ==> 1 <= s.consumer.n && s.consumer.n + s.consumer.i <= s.length <= |s.data|
  }

  lemma InvPlaced(s: State)
    requires Inv(s)
    ensures Placed(s)
  {
  }

  lemma RankBounded(s: State)
    requires Placed(s)
    ensures 0 <= Rank(s)
  {
  }

  lemma ShorterIsLower(length: int, n: int, rest: int)
    requires n >= 1 && rest >= 0
    ensures (length - n) * (ROUND + 1) + ROUND - 1 < length * (ROUND + 1) + rest
  {
    assert (length - n) * (ROUND + 1) == length * (ROUND + 1) - n * (ROUND + 1);
  }

  lemma FlushingLowersRank(s: State)
    requires Placed(s) && s.consumer.Shift?
    ensures Rank(Do(s, Consume)) < Rank(s)
  {
    ShorterIsLower(s.length, s.consumer.n, s.length - s.consumer.n - s.consumer.i);
  }

  /** Past a peek that cannot fail, every step but the shift lowers the phase and keeps the length. */
  lemma PhaseFalls(s: State)
    requires !s.consumer.Shift? && Enabled(s, Consume)
    requires s.consumer.ReadHeader? || s.consumer.ReadLength? ==> HeaderFits(s.data, s.length)
    requires s.consumer.FlushLock? ==> 0 <= s.length - s.consumer.n <= BUFFER_SIZE
    ensures var t := Do(s, Consume); t.length == s.length && Phase(t) < Phase(s)
  {
  }

  lemma TransmitterAdvances(s: State)
    requires Inv(s) && s.length > 0 && Enabled(s, Consume)
    ensures Rank(Do(s, Consume)) < Rank(s)
  {
    if s.consumer.Shift? {
      InvPlaced(s);
      FlushingLowersRank(s);
    } else {
      HeadVisible(s);
      PhaseFalls(s);
    }
  }

  lemma SpinningCostsNothing(s: State, a: Action)
    requires Starved(s) && Enabled(s, a) && !a.Consume?
    ensures (a.TryLock? || a.Retry?) && Rank(Do(s, a)) == Rank(s)
  {
  }

  function TransmitterSteps(run: seq<Action>): nat
  {
    if run == [] then 0 else (if run[0].Consume? then 1 else 0) + TransmitterSteps(run[1..])
  }

  predicate StarvedThroughout(s: State, run: seq<Action>)
    requires Legal(s, run)
    decreases |run|
  {
    Starved(s) && (run == [] || StarvedThroughout(Do(s, run[0]), run[1..]))
  }

  /**
   * Under every schedule: as long as the producer is short of room, the transmitter has taken at most Rank(s) steps.
   * A transmitter that keeps running therefore makes the room.
   */
  lemma {:induction false} WaitEnds(s: State, run: seq<Action>)
    requires Inv(s) && Legal(s, run) && StarvedThroughout(s, run)
    ensures TransmitterSteps(run) <= Rank(s)
    decreases |run|
  {
    InvPlaced(s);
    RankBounded(s);
    if run != [] {
      StepKeepsInv(s, run[0]);
      WaitEnds(Do(s, run[0]), run[1..]);
      if run[0].Consume? {
        TransmitterAdvances(s);
      } else {
        SpinningCostsNothing(s, run[0]);
      }
    }
  }

  lemma PublishFilled(s: State) returns (run: seq<Action>)
    requires s.producer.Filling? && s.length + |s.producer.pdu| <= |s.data|
    requires s.data[s.length..s.length + |s.producer.pdu|] == s.producer.pdu
    ensures Legal(s, run) && Run(s, run).appended == s.appended + s.producer.pdu
  {
    run := [Publish];
    assert Run(Do(s, Publish), []) == Do(s, Publish);
  }

  lemma OneByteMore(data: seq<byte>, at: nat, pdu: seq<byte>, k: nat)
    requires k < |pdu| && at + |pdu| <= |data| && data[at..at + k] == pdu[..k]
    ensures data[at + k := pdu[k]][at..at + k + 1] == pdu[..k + 1]
  {
    assert pdu[..k + 1] == pdu[..k] + [pdu[k]];
    assert data[at + k := pdu[k]][at..at + k + 1] == data[at..at + k] + [pdu[k]];
  }

  lemma FillingFits(s: State)
    requires Inv(s) && s.producer.Filling?
    ensures s.length + |s.producer.pdu| <= |s.data|
  {
  }

  lemma {:induction false} FillAndPublish(s: State, k: nat) returns (run: seq<Action>)
    requires s.producer.Filling? && s.length + |s.producer.pdu| <= |s.data| && k <= |s.producer.pdu|
    requires s.data[s.length..s.length + k] == s.producer.pdu[..k]
    ensures Legal(s, run) && Run(s, run).appended == s.appended + s.producer.pdu
    decreases |s.producer.pdu| - k
  {
    var pdu := s.producer.pdu;
    if k == |pdu| {
      assert pdu[..k] == pdu;
      run := PublishFilled(s);
    } else {
      var a := Write(k, pdu[k]);
      OneByteMore(s.data, s.length, pdu, k);
      var more := FillAndPublish(Do(s, a), k + 1);
      run := [a] + more;
    }
  }

  /** Orders the states on the way to the reserved region. */
  function Distance(s: State): int
  {
    if s.producer.Filling? then 0
    else if s.producer.Checking? && !Starved(s) then 1
    else if s.producer.Waiting? && !Starved(s) && !s.held then 2
    else 3 + 2 * Rank(s) + if s.producer.Checking? then 1 else 0
  }

  lemma ConsumingIsNearer(s: State)
    requires Inv(s) && s.producer.Waiting? && (Starved(s) || s.held)
    ensures Enabled(s, Consume) && 0 <= Distance(Do(s, Consume)) < Distance(s)
  {
    StepKeepsInv(s, Consume);
    InvPlaced(Do(s, Consume));
    RankBounded(Do(s, Consume));
    TransmitterAdvances(s);
    DistanceFalls(s, Do(s, Consume));
  }

  lemma DistanceFalls(s: State, t: State)
    requires s.producer.Waiting? && (Starved(s) || s.held) && t.producer == s.producer && 0 <= Rank(t) < Rank(s)
    ensures 0 <= Distance(t) < Distance(s)
  {
  }

  lemma SpinningIsNearer(s: State)
    requires Inv(s) && s.producer.Checking? && Starved(s)
    ensures Enabled(s, Retry) && 0 <= Distance(Do(s, Retry)) < Distance(s)
  {
    InvPlaced(s);
    RankBounded(s);
    SpinningCostsNothing(s, Retry);
  }

  lemma LockingIsNearer(s: State, a: Action)
    requires Placed(s) && Enabled(s, a)
    requires !Starved(s) && ((a.Reserve? && s.producer.Checking?) || (a.TryLock? && s.producer.Waiting? && !s.held))
    ensures 0 <= Distance(Do(s, a)) < Distance(s)
  {
  }

  /** The action that brings a waiting producer nearer to its region. */
  function NextAction(s: State): Action
  {
    if s.producer.Checking? then (if Starved(s) then Retry else Reserve)
    else if Starved(s) || s.held then Consume else TryLock
  }

  lemma NextIsNearer(s: State, a: Action)
    requires Inv(s) && !s.producer.Idle? && !s.producer.Filling? && a == NextAction(s)
    ensures Enabled(s, a) && 0 <= Distance(Do(s, a)) < Distance(s)
  {
    if a.Consume? {
      ConsumingIsNearer(s);
    } else if a.Retry? {
      SpinningIsNearer(s);
    } else {
      InvPlaced(s);
      LockingIsNearer(s, a);
    }
  }

  lemma OnTheWay(s: State) returns (a: Action)
    requires Inv(s) && !s.producer.Idle? && !s.producer.Filling?
    ensures Enabled(s, a) && Inv(Do(s, a)) && 0 <= Distance(Do(s, a)) < Distance(s)
    ensures !Do(s, a).producer.Idle? && Do(s, a).producer.pdu == s.producer.pdu && Do(s, a).appended == s.appended
  {
    a := NextAction(s);
    NextIsNearer(s, a);
    StepKeepsInv(s, a);
    SameRequest(s, a);
  }

  lemma SameRequest(s: State, a: Action)
    requires !s.producer.Idle? && Enabled(s, a) && !a.Publish?
    ensures !Do(s, a).producer.Idle? && Do(s, a).producer.pdu == s.producer.pdu && Do(s, a).appended == s.appended
  {
  }

  /**
   * No deadlock: from every reachable state in which the receiver has a PDU to append, some run appends it, however
   * full the buffer and wherever the transmitter is.
   */
  lemma {:induction false} RequestIsServed(s: State) returns (run: seq<Action>)
    requires Inv(s) && !s.producer.Idle?
    ensures Legal(s, run) && Run(s, run).appended == s.appended + s.producer.pdu
    decreases Distance(s)
  {
    InvPlaced(s);
    RankBounded(s);
    if s.producer.Filling? {
      FillingFits(s);
      run := FillAndPublish(s, 0);
    } else {
      var a := OnTheWay(s);
      var more := RequestIsServed(Do(s, a));
      run := [a] + more;
    }
  }
}
