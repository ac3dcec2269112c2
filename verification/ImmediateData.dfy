/**
 * Immediate data, over all write commands: those that ask for the rest by R2Ts, and those that bring all of it
 * (request/cmd.c:84, 128-145), which run at once on whatever the device buffer holds.
 */
module ImmediateData {
  import opened Bytes
  import opened Lookup
  import opened Pdus
  import opened Model
  import opened Runs
  import opened Transfers
  import opened EndToEndWrite
  import opened WriteCompletes
  import opened StaleEntry
  import opened Tags

  /** How many bytes of the transfer come with the command itself. */
  function ImmediateLength(req: Header): int
  {
    Min(DataLength(req), ExpectedLength(req))
  }

  /** `cmd` is a write of at least one byte, `data` what the initiator wants written; it starts with what is sent. */
  predicate WriteCommand(st: State, cmd: Event, data: seq<byte>, sn: int)
  {
    && Ready(st, sn) && StepOk(st, cmd) && Opcode(cmd.request) == SCSI_CMD && IsWrite(cmd.request)
    && 0 < ExpectedLength(cmd.request) == |data|
    && (NeedsR2t(cmd.request) ==> Advance(st.session.transferTag, 1) != DEFAULT_TAG)
    && data[..ImmediateLength(cmd.request)] == Segment(cmd.request)[..ImmediateLength(cmd.request)]
  }

  lemma SegmentOfFrame(st: State, cmd: Event)
    requires StepOk(st, cmd)
    ensures |Segment(cmd.request)| == DataLength(cmd.request)
  {
    FrameHasSegment(cmd.request);
  }

  /** What follows the command: answers to its R2Ts if it has any, anything otherwise. */
  predicate Carried(st: State, cmd: Event, data: seq<byte>, sn: int, es: seq<Event>)
    requires StepOk(st, cmd)
  {
    if NeedsR2t(cmd.request) then Exchange(st, cmd, data, sn, es) else Admissible(Started(st, cmd), es)
  }

  /** The executions of the command: those of its transfer, or what the command itself adds to the log. */
  function Outcomes(st: State, cmd: Event, es: seq<Event>): seq<Execution>
    requires StepOk(st, cmd) && Admissible(Started(st, cmd), es)
  {
    if NeedsR2t(cmd.request) then Executions(st, cmd, es)
    else if |st.target.log| <= |Started(st, cmd).target.log| then Started(st, cmd).target.log[|st.target.log|..]
    else []
  }

  /** The device runs the command once, on a buffer that starts with the initiator's data. */
  predicate Delivered(st: State, cmd: Event, data: seq<byte>, es: seq<Event>)
    requires StepOk(st, cmd) && Admissible(Started(st, cmd), es)
  {
    |Outcomes(st, cmd, es)| == 1 && data <= Outcomes(st, cmd, es)[0].buffer
  }

  /**
   * A write that needs no R2T: the command adds one execution, on the device buffer as it is. Not a byte of the
   * request is in it.
   */
  lemma WholeWriteRuns(st: State, cmd: Event, t: State)
    requires Normal(st) && StepOk(st, cmd) && Opcode(cmd.request) == SCSI_CMD && !NeedsR2t(cmd.request)
    requires t == Started(st, cmd)
    ensures t.target.log == st.target.log + [Execution(Cdb(cmd.request), st.target.buffer, None)]
    ensures t.session.entry == st.session.entry
  {
    CommandStep(st, cmd, Step(st, cmd.request, cmd.reply));
    RunCommandLog(st, cmd.request, cmd.reply);
  }

  lemma WholeOutcome(st: State, cmd: Event, es: seq<Event>)
    requires Normal(st) && StepOk(st, cmd) && Opcode(cmd.request) == SCSI_CMD && !NeedsR2t(cmd.request)
    requires Admissible(Started(st, cmd), es)
    ensures Outcomes(st, cmd, es) == [Execution(Cdb(cmd.request), st.target.buffer, None)]
  {
    WholeWriteRuns(st, cmd, Started(st, cmd));
  }

  /** What the device finds where the immediate data should be. */
  function Stale(st: State, req: Header): seq<byte>
  {
    if NeedsR2t(req) then Front(st, DataLength(req)) else Slice(st.target.buffer, 0, ExpectedLength(req))
  }

  lemma PrefixIsSlice(buffer: seq<byte>, data: seq<byte>)
    ensures data <= buffer <==> |data| <= |buffer| && Slice(buffer, 0, |data|) == data
  {
  }

  /** How often a write runs: once, or not at all if it needs more R2Ts than may be outstanding. */
  lemma WriteRunsOnceIff(st: State, cmd: Event, data: seq<byte>, sn: int, es: seq<Event>)
    requires WriteCommand(st, cmd, data, sn) && Carried(st, cmd, data, sn, es)
    ensures |Outcomes(st, cmd, es)| == if NeedsR2t(cmd.request) && !Allowed(st, cmd) then 0 else 1
  {
    if NeedsR2t(cmd.request) {
      WriteRunsIff(st, cmd, data, sn, es);
    } else {
      WholeOutcome(st, cmd, es);
    }
  }

  /**
   * The device gets the initiator's data exactly when the write may run and the immediate part of it was there
   * already: in the transfer entry if there are R2Ts, in the device buffer if there are none.
   */
  lemma DeliveredIff(st: State, cmd: Event, data: seq<byte>, sn: int, es: seq<Event>)
    requires WriteCommand(st, cmd, data, sn) && Carried(st, cmd, data, sn, es)
    ensures Delivered(st, cmd, data, es)
            <==> (NeedsR2t(cmd.request) ==> Allowed(st, cmd))
                 && Stale(st, cmd.request) == data[..ImmediateLength(cmd.request)]
  {
    WriteRunsOnceIff(st, cmd, data, sn, es);
    if !NeedsR2t(cmd.request) {
      WholeOutcome(st, cmd, es);
      PrefixIsSlice(st.target.buffer, data);
    } else if Allowed(st, cmd) {
      IntactIff(st, cmd, data, sn, es);
    }
  }

  // The same command with other immediate data.

  /** A command with the header of cmd and other data. */
  predicate Variant(st: State, cmd: Event, c: Event, data: seq<byte>, sn: int)
    requires |cmd.request| >= HEADER
  {
    WriteCommand(st, c, data, sn) && c.request[..HEADER] == cmd.request[..HEADER]
  }

  ghost predicate AlwaysDelivered(st: State, cmd: Event, sn: int)
    requires |cmd.request| >= HEADER
  {
    forall c, data, es :: Variant(st, cmd, c, data, sn) && Carried(st, c, data, sn, es) ==> Delivered(st, c, data, es)
  }

  lemma SameHeaderSameFields(a: seq<byte>, b: seq<byte>)
    requires |a| >= HEADER && |b| >= HEADER && a[..HEADER] == b[..HEADER]
    ensures DataLength(a) == DataLength(b) && ExpectedLength(a) == ExpectedLength(b) && FrameLength(a) == FrameLength(b)
    ensures Opcode(a) == Opcode(b) && NeedsR2t(a) == NeedsR2t(b) && a[4] == b[4] && a[1] == b[1]
  {
    assert forall i :: 0 <= i < HEADER ==> a[i] == a[..HEADER][i] && b[i] == b[..HEADER][i];
  }

  lemma VariantKeepsFields(st: State, cmd: Event, c: Event, data: seq<byte>, sn: int)
    requires st.Valid() && st.session.fullFeature && |cmd.request| >= HEADER && Variant(st, cmd, c, data, sn)
    ensures DataLength(c.request) == DataLength(cmd.request) && Allowed(st, c) == Allowed(st, cmd)
    ensures NeedsR2t(c.request) == NeedsR2t(cmd.request)
  {
    SameHeaderSameFields(c.request, cmd.request);
  }

  /** The first byte of the data, changed. */
  lemma OtherFirstByte(st: State, cmd: Event, data: seq<byte>, sn: int, b: byte) returns (c: Event, d: seq<byte>)
    requires WriteCommand(st, cmd, data, sn) && DataLength(cmd.request) > 0
    ensures Variant(st, cmd, c, d, sn) && d[0] == b
  {
    SegmentOfFrame(st, cmd);
    c := Event(cmd.request[HEADER := b], cmd.reply);
    assert c.request[..HEADER] == cmd.request[..HEADER];
    SameHeaderSameFields(c.request, cmd.request);
    d := data[0 := b];
    FirstByteOfSegment(cmd.request, b);
    assert Segment(c.request) == Segment(cmd.request)[0 := b];
    var n := ImmediateLength(cmd.request);
    assert d[..n] == data[..n][0 := b] && Segment(c.request)[..n] == Segment(cmd.request)[..n][0 := b];
  }

  lemma FirstByteOfSegment(req: seq<byte>, b: byte)
    requires |req| >= HEADER && DataLength(req) > 0 && HEADER + DataLength(req) <= |req|
    ensures DataLength(req[HEADER := b]) == DataLength(req) && Segment(req[HEADER := b]) == Segment(req)[0 := b]
  {
    assert req[HEADER := b][5..8] == req[5..8];
  }

  /** Some way to carry the command out. */
  lemma CanBeCarried(st: State, cmd: Event, data: seq<byte>, sn: int) returns (es: seq<Event>)
    requires WriteCommand(st, cmd, data, sn) && IsInt(sn)
    ensures Carried(st, cmd, data, sn, es)
  {
    if NeedsR2t(cmd.request) {
      es := EveryWriteHasAnExchange(st, cmd, data, sn);
    } else {
      es := [];
    }
  }

  lemma NotDelivered(st: State, cmd: Event, data: seq<byte>, sn: int)
    requires WriteCommand(st, cmd, data, sn) && IsInt(sn) && DataLength(cmd.request) > 0
    ensures !AlwaysDelivered(st, cmd, sn)
  {
    var stale := Stale(st, cmd.request);
    var b: byte := if stale != [] && stale[0] == 0 then 1 else 0;
    var c, d := OtherFirstByte(st, cmd, data, sn, b);
    var es := CanBeCarried(st, c, d, sn);
    VariantKeepsFields(st, cmd, c, d, sn);
    SameHeaderSameFields(c.request, cmd.request);
    DeliveredIff(st, c, d, sn, es);
    assert d[..ImmediateLength(c.request)][0] == b;
  }

  /**
   * Over all write commands: whatever the initiator's data, the device gets all of it, exactly when the command
   * carries none of it and all its R2Ts may be outstanding at once.
   */
  lemma AlwaysDeliveredIff(st: State, cmd: Event, data: seq<byte>, sn: int)
    requires WriteCommand(st, cmd, data, sn) && IsInt(sn)
    ensures AlwaysDelivered(st, cmd, sn) <==> DataLength(cmd.request) == 0 && Allowed(st, cmd)
  {
    if DataLength(cmd.request) > 0 {
      NotDelivered(st, cmd, data, sn);
    } else if !Allowed(st, cmd) {
      var es := CanBeCarried(st, cmd, data, sn);
      DeliveredIff(st, cmd, data, sn, es);
      assert Variant(st, cmd, cmd, data, sn);
    } else {
      forall c, d, es | Variant(st, cmd, c, d, sn) && Carried(st, c, d, sn, es) ensures Delivered(st, c, d, es) {
        VariantKeepsFields(st, cmd, c, d, sn);
        DeliveredIff(st, c, d, sn, es);
        assert Front(st, 0) == d[..0];
      }
    }
  }
}
