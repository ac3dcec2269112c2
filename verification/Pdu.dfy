/** PDUs as bytes: header fields, frame lengths, framing of a byte stream (iscsi_pdu.h, iscsi_pdu.c). */
module Pdus {
  import opened Bytes

  const HEADER := 48  // BASIC_HEADER_SEGMENT_LENGTH

  const NOP_OUT: byte := 0x00
  const SCSI_CMD: byte := 0x01
  const LOGIN: byte := 0x03
  const TEXT: byte := 0x04
  const SCSI_DATA_OUT: byte := 0x05
  const LOGOUT: byte := 0x06
  const NOP_IN: byte := 0x20
  const SCSI_CMD_RES: byte := 0x21
  const LOGIN_RES: byte := 0x23
  const TEXT_RES: byte := 0x24
  const SCSI_DATA_IN: byte := 0x25
  const LOGOUT_RES: byte := 0x26
  const R2T: byte := 0x31
  const REJECT: byte := 0x3f

  function Padded(n: nat): (r: nat)
    ensures r % 4 == 0 && n <= r < n + 4
  {
    (n + 3) / 4 * 4
  }

  // Header getters. A request always has its 48 header bytes: nothing looks at it before.

  type Header = s: seq<byte> | |s| >= HEADER witness Zeros(HEADER)

  function Opcode(s: Header): byte { s[0] % 64 }

  /** iscsi_pdu_immediate reads the top bit of byte 0, not the I bit of RFC 3720. */
  predicate Immediate(s: Header) { BitSet(s[0], 0) }

  predicate Final(s: Header) { BitSet(s[1], 0) }

  function DataLength(s: Header): nat { Nat24At(s, 5) }

  function TaskTag(s: Header): int { Int32At(s, 16) }

  function TransferTag(s: Header): int { Int32At(s, 20) }

  function CmdSn(s: Header): int { Int32At(s, 24) }

  /** The length iscsi_pdu_length computes from the first eight bytes. */
  function FrameLength(s: Header): (n: nat)
    ensures n >= HEADER && n % 4 == 0
  {
    Padded(HEADER + s[4] + Nat24At(s, 5))
  }

  /** iscsi_pdu_valid: the buffer starts with a whole PDU. */
  predicate Complete(s: seq<byte>)
  {
    |s| >= HEADER && FrameLength(s) <= |s|
  }

  predicate IsFrame(s: seq<byte>)
  {
    |s| >= HEADER && FrameLength(s) == |s|
  }

  // A stream cut into frames.

  predicate AllFrames(fs: seq<seq<byte>>)
  {
    forall i :: 0 <= i < |fs| ==> IsFrame(fs[i])
  }

  function Frames(s: seq<byte>): (fs: seq<seq<byte>>)
    ensures AllFrames(fs)
    decreases |s|
  {
    if Complete(s) then
      var n := FrameLength(s);
      HeadIsFrame(s);
      [s[..n]] + Frames(s[n..])
    else []
  }

  function Rest(s: seq<byte>): (r: seq<byte>)
    ensures !Complete(r)
    decreases |s|
  {
    if Complete(s) then Rest(s[FrameLength(s)..]) else s
  }

  lemma HeadIsFrame(s: seq<byte>)
    requires Complete(s)
    ensures IsFrame(s[..FrameLength(s)])
  {
  }

  function Flatten(fs: seq<seq<byte>>): seq<byte>
  {
    if fs == [] then [] else fs[0] + Flatten(fs[1..])
  }

  lemma FlattenAppend(fs: seq<seq<byte>>, gs: seq<seq<byte>>)
    ensures Flatten(fs + gs) == Flatten(fs) + Flatten(gs)
  {
    if fs == [] {
      assert fs + gs == gs;
    } else {
      assert (fs + gs)[1..] == fs[1..] + gs;
      FlattenAppend(fs[1..], gs);
    }
  }

  lemma FlattenOne(f: seq<byte>)
    ensures Flatten([f]) == f
  {
  }

  /** Framing loses nothing: the frames and the incomplete rest are the stream. */
  lemma {:induction false} FramesRebuild(s: seq<byte>)
    ensures Flatten(Frames(s)) + Rest(s) == s
    decreases |s|
  {
    if Complete(s) {
      var n := FrameLength(s);
      FramesRebuild(s[n..]);
      Rejoined(s, n, Frames(s[n..]), Rest(s[n..]));
    }
  }

  lemma Rejoined(s: seq<byte>, n: nat, fs: seq<seq<byte>>, rest: seq<byte>)
    requires n <= |s| && Flatten(fs) + rest == s[n..]
    ensures Flatten([s[..n]] + fs) + rest == s
  {
    FlattenCons(s[..n], fs);
    assert s[..n] + Flatten(fs) + rest == s[..n] + s[n..];
  }

  lemma FlattenCons(f: seq<byte>, fs: seq<seq<byte>>)
    ensures Flatten([f] + fs) == f + Flatten(fs)
  {
    assert ([f] + fs)[1..] == fs;
  }

  lemma FramesHead(f: seq<byte>, tail: seq<byte>)
    requires IsFrame(f)
    ensures Frames(f + tail) == [f] + Frames(tail) && Rest(f + tail) == Rest(tail)
  {
    var s := f + tail;
    assert s[4] == f[4] && s[5] == f[5] && s[6] == f[6] && s[7] == f[7];
    assert FrameLength(s) == |f|;
    assert s[..|f|] == f && s[|f|..] == tail;
  }

  lemma FramesInFront(f: seq<byte>, mid: seq<byte>, tail: seq<byte>)
    requires IsFrame(f)
    ensures Frames(f + mid + tail) == [f] + Frames(mid + tail) && Rest(f + mid + tail) == Rest(mid + tail)
  {
    Associative(f, mid, tail);
    FramesHead(f, mid + tail);
  }

  lemma Associative(a: seq<byte>, b: seq<byte>, c: seq<byte>)
    ensures a + b + c == a + (b + c)
  {
  }

  /** Whole frames in front do not disturb the framing of what follows. */
  lemma {:induction false} FramesOfFlatten(fs: seq<seq<byte>>, tail: seq<byte>)
    requires AllFrames(fs)
    ensures Frames(Flatten(fs) + tail) == fs + Frames(tail)
    ensures Rest(Flatten(fs) + tail) == Rest(tail)
  {
    if fs == [] {
      assert Flatten(fs) + tail == tail;
    } else {
      FramesOfFlatten(fs[1..], tail);
      FramesInFront(fs[0], Flatten(fs[1..]), tail);
      ConsAppend(fs, Frames(tail));
    }
  }

  lemma ConsAppend(fs: seq<seq<byte>>, gs: seq<seq<byte>>)
    requires fs != []
    ensures fs + gs == [fs[0]] + (fs[1..] + gs)
  {
  }

  // Responses: the fields every response builder fills, and their bytes.

  datatype Pdu = Pdu(
    opcode: byte, flags: byte, byte2: byte, byte3: byte,
    taskTag: int, transferTag: int, statSn: int, expCmdSn: int, maxCmdSn: int,
    word36: int, word40: int, word44: int, data: seq<byte>)
  {
    predicate Valid() {
      && opcode < 64
      && |data| < 0x100_0000
      && IsInt(taskTag) && IsInt(transferTag) && IsInt(statSn) && IsInt(expCmdSn) && IsInt(maxCmdSn)
      && IsInt(word36) && IsInt(word40) && IsInt(word44)
    }
  }

  function HeaderBytes(p: Pdu): (s: seq<byte>)
    ensures |s| == HEADER
  {
    [p.opcode, p.flags, p.byte2, p.byte3, 0] + Int24Bytes(|p.data|) + Zeros(8)
    + Int32Bytes(p.taskTag) + Int32Bytes(p.transferTag)
    + Int32Bytes(p.statSn) + Int32Bytes(p.expCmdSn) + Int32Bytes(p.maxCmdSn)
    + Int32Bytes(p.word36) + Int32Bytes(p.word40) + Int32Bytes(p.word44)
  }

  function Encode(p: Pdu): (s: seq<byte>)
    ensures |s| == Padded(HEADER + |p.data|)
  {
    HeaderBytes(p) + p.data + Zeros(Padded(HEADER + |p.data|) - HEADER - |p.data|)
  }

  function EncodeAll(ps: seq<Pdu>): seq<byte>
  {
    if ps == [] then [] else Encode(ps[0]) + EncodeAll(ps[1..])
  }

  /** What the initiator reads out of one frame without additional header segments. */
  function Decode(f: seq<byte>): Pdu
    requires IsFrame(f)
  {
    var n := DataLength(f);
    Pdu(f[0] % 64, f[1], f[2], f[3],
        Int32At(f, 16), Int32At(f, 20), Int32At(f, 24), Int32At(f, 28), Int32At(f, 32),
        Int32At(f, 36), Int32At(f, 40), Int32At(f, 44), f[HEADER..HEADER + n])
  }

  function DecodeAll(fs: seq<seq<byte>>): (ps: seq<Pdu>)
    requires AllFrames(fs)
    ensures |ps| == |fs|
  {
    seq(|fs|, i requires 0 <= i < |fs| => Decode(fs[i]))
  }

  /** The initiator's view of a byte stream. */
  function Parse(s: seq<byte>): seq<Pdu>
  {
    DecodeAll(Frames(s))
  }

  lemma HeaderFields(p: Pdu, s: seq<byte>)
    requires |s| >= HEADER && s[..HEADER] == HeaderBytes(p)
    ensures s[0] == p.opcode && s[1] == p.flags && s[2] == p.byte2 && s[3] == p.byte3 && s[4] == 0
    ensures s[5..8] == Int24Bytes(|p.data|)
    ensures s[16..20] == Int32Bytes(p.taskTag) && s[20..24] == Int32Bytes(p.transferTag)
    ensures s[24..28] == Int32Bytes(p.statSn) && s[28..32] == Int32Bytes(p.expCmdSn)
    ensures s[32..36] == Int32Bytes(p.maxCmdSn) && s[36..40] == Int32Bytes(p.word36)
    ensures s[40..44] == Int32Bytes(p.word40) && s[44..48] == Int32Bytes(p.word44)
  {
    var h := HeaderBytes(p);
    assert s[0] == h[0] && s[1] == h[1] && s[2] == h[2] && s[3] == h[3] && s[4] == h[4];
    assert s[5..8] == h[5..8] && s[16..20] == h[16..20] && s[20..24] == h[20..24] && s[24..28] == h[24..28];
    assert s[28..32] == h[28..32] && s[32..36] == h[32..36] && s[36..40] == h[36..40];
    assert s[40..44] == h[40..44] && s[44..48] == h[44..48];
  }

  /** Every field of a response can be read back from its bytes, which are one whole frame. */
  lemma EncodeDecode(p: Pdu)
    requires p.Valid()
    ensures IsFrame(Encode(p))
    ensures Decode(Encode(p)) == p
  {
    EncodedLength(p, Encode(p));
    DecodedFields(p, Encode(p));
  }

  lemma EncodedLength(p: Pdu, f: seq<byte>)
    requires |p.data| < 0x100_0000 && f == Encode(p)
    ensures DataLength(f) == |p.data| && IsFrame(f)
  {
    EncodedParts(p);
    HeaderFields(p, f);
    Nat24RoundTrip(f, 5, |p.data|);
  }

  lemma DecodedFields(p: Pdu, f: seq<byte>)
    requires p.Valid() && f == Encode(p) && IsFrame(f) && DataLength(f) == |p.data|
    ensures Decode(f) == p
  {
    EncodedParts(p);
    DecodedBytes(p, f);
    DecodeWords(p, f);
  }

  lemma DecodedBytes(p: Pdu, f: seq<byte>)
    requires |f| >= HEADER && f[..HEADER] == HeaderBytes(p) && p.Valid()
    ensures f[0] % 64 == p.opcode && f[1] == p.flags && f[2] == p.byte2 && f[3] == p.byte3
  {
    HeaderFields(p, f);
  }

  lemma EncodedParts(p: Pdu)
    ensures Encode(p)[..HEADER] == HeaderBytes(p) && Encode(p)[HEADER..HEADER + |p.data|] == p.data
  {
  }

  lemma DecodeWord(f: seq<byte>, at: nat, w: int)
    requires at + 4 <= |f| && f[at..at + 4] == Int32Bytes(w) && IsInt(w)
    ensures Int32At(f, at) == w
  {
    Int32RoundTrip(f, at, w);
    Int32Fixed(w);
  }

  lemma DecodeWords(p: Pdu, f: seq<byte>)
    requires |f| >= HEADER && f[..HEADER] == HeaderBytes(p) && p.Valid()
    ensures Int32At(f, 16) == p.taskTag && Int32At(f, 20) == p.transferTag
    ensures Int32At(f, 24) == p.statSn && Int32At(f, 28) == p.expCmdSn
    ensures Int32At(f, 32) == p.maxCmdSn && Int32At(f, 36) == p.word36
    ensures Int32At(f, 40) == p.word40 && Int32At(f, 44) == p.word44
  {
    HeaderFields(p, f);
    DecodeWord(f, 16, p.taskTag);
    DecodeWord(f, 20, p.transferTag);
    DecodeWord(f, 24, p.statSn);
    DecodeWord(f, 28, p.expCmdSn);
    DecodeWord(f, 32, p.maxCmdSn);
    DecodeWord(f, 36, p.word36);
    DecodeWord(f, 40, p.word40);
    DecodeWord(f, 44, p.word44);
  }

  predicate AllValid(ps: seq<Pdu>)
  {
    forall p :: p in ps ==> p.Valid()
  }

  lemma DecodeAllHead(f: seq<byte>, fs: seq<seq<byte>>)
    requires IsFrame(f) && AllFrames(fs)
    ensures DecodeAll([f] + fs) == [Decode(f)] + DecodeAll(fs)
  {
  }

  lemma ParseHead(p: Pdu, after: seq<byte>)
    requires p.Valid()
    ensures Parse(Encode(p) + after) == [p] + Parse(after)
    ensures Rest(Encode(p) + after) == Rest(after)
  {
    EncodeDecode(p);
    FramesHead(Encode(p), after);
    DecodeAllHead(Encode(p), Frames(after));
  }

  /** Printing a list of responses and framing the bytes gives the list back: the parse is unique. */
  lemma {:induction false} ParseEncodeAll(ps: seq<Pdu>, tail: seq<byte>)
    requires AllValid(ps) && !Complete(tail)
    ensures Parse(EncodeAll(ps) + tail) == ps
    ensures Rest(EncodeAll(ps) + tail) == tail
  {
    if ps == [] {
      assert EncodeAll(ps) + tail == tail;
    } else {
      var after := EncodeAll(ps[1..]) + tail;
      assert EncodeAll(ps) + tail == Encode(ps[0]) + after;
      assert ps[0].Valid() by { assert ps[0] in ps; }
      ParseHead(ps[0], after);
      ParseEncodeAll(ps[1..], tail);
    }
  }

  lemma {:induction false} EncodeAllAppend(ps: seq<Pdu>, qs: seq<Pdu>)
    ensures EncodeAll(ps + qs) == EncodeAll(ps) + EncodeAll(qs)
  {
    if ps == [] {
      assert ps + qs == qs;
    } else {
      assert (ps + qs)[1..] == ps[1..] + qs;
      EncodeAllAppend(ps[1..], qs);
    }
  }
}
