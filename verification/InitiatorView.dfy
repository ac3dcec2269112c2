/** What the initiator reads while both threads run: the responses of the receiver thread, sent by the transmitter. */
module InitiatorView {
  import opened Bytes
  import opened Pdus
  import opened Buffers
  import opened Model
  import opened Runs
  import opened SessionSafety
  import opened Numbering
  import Transmit

  /** Whole PDUs at the start of a stream are the first PDUs of the stream. */
  lemma WholePrefix(a: seq<byte>, all: seq<byte>)
    requires Rest(a) == [] && a <= all
    ensures Parse(a) <= Parse(all)
  {
    assert all == a + all[|a|..];
    ParseConcat(a, all[|a|..]);
  }

  lemma NumberedPrefix(qs: seq<Pdu>, all: seq<Pdu>, s: int, e: int, counts: seq<nat>)
    requires qs <= all && Numbered(all, s, e, counts)
    ensures |qs| <= |counts| && Numbered(qs, s, e, counts[..|qs|])
  {
  }

  /**
   * Under every interleaving in which the receiver thread appends the responses of a full-feature run, or has appended
   * a part of them so far: what has been sent are whole PDUs, the first of the run's responses, each once and in
   * order, with consecutive StatSN and the command counts of the run.
   */
  lemma InitiatorReadsResponses(data: seq<byte>, run: seq<Transmit.Action>, st: State, es: seq<Event>)
    requires |data| == BUFFER_SIZE && Transmit.Legal(Transmit.Init(data), run)
    requires Sound(st) && Admissible(st, es) && st.session.fullFeature && AllFramed(es)
    requires Transmit.Run(Transmit.Init(data), run).appended <= Appended(st, Run(st, es))
    ensures var sent := Transmit.Run(Transmit.Init(data), run).sent;
            var counts := CommandCounts(st, es);
            && Rest(sent) == [] && Parse(sent) <= Parse(Appended(st, Run(st, es))) && |Parse(sent)| <= |counts|
            && Numbered(Parse(sent), st.conn.statSn, st.conn.expCmdSn, counts[..|Parse(sent)|])
  {
    Transmit.EveryRunIsSafe(data, run);
    ResponsesAreNumbered(st, es);
    var s := Transmit.Run(Transmit.Init(data), run);
    SentOfRun(s.sent, s.appended, Transmit.Unsent(s), Appended(st, Run(st, es)), st.conn.statSn, st.conn.expCmdSn,
              CommandCounts(st, es));
  }

  lemma SentOfRun(sent: seq<byte>, appended: seq<byte>, unsent: seq<byte>, all: seq<byte>, s: int, e: int,
                  counts: seq<nat>)
    requires Rest(sent) == [] && sent + unsent == appended && appended <= all && Numbered(Parse(all), s, e, counts)
    ensures Parse(sent) <= Parse(all) && |Parse(sent)| <= |counts|
    ensures Numbered(Parse(sent), s, e, counts[..|Parse(sent)|])
  {
    assert sent <= all;
    WholePrefix(sent, all);
    NumberedPrefix(Parse(sent), Parse(all), s, e, counts);
  }
}
