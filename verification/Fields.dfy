/**
 * Filling a reserved region of the response buffer in place, field by field (iscsi_pdu.h:92-130, iscsi_pdu.c:21-24).
 * A region of n bytes that starts at `base` holds the image of a response; a setter changes the image in one field.
 */
module Fields {
  import opened Bytes
  import opened Pdus
  import opened Buffers
  import opened Model

  const BLANK := Pdu(0, 0, 0, 0, 0, 0, 0, 0, 0, 0, 0, 0, [])

  /** The header and data of p, and zeros up to n bytes. */
  function Image(p: Pdu, n: nat): (s: seq<byte>)
    requires HEADER + |p.data| <= n
    ensures |s| == n
  {
    HeaderBytes(p) + p.data + Zeros(n - HEADER - |p.data|)
  }

  ghost predicate Holds(a: array<byte>, base: nat, n: nat, p: Pdu)
    reads a
  {
    base + n <= a.Length && HEADER + |p.data| <= n && a[base..base + n] == Image(p, n)
  }

  lemma BlankImage(n: nat)
    requires n >= HEADER
    ensures Image(BLANK, n) == Zeros(n)
  {
    assert Int32Bytes(0) == Zeros(4) && Int24Bytes(0) == Zeros(3);
  }

  /** The eight words of the header from byte 16 on. */
  function Word(p: Pdu, i: nat): int
    requires i < 8
  {
    [p.taskTag, p.transferTag, p.statSn, p.expCmdSn, p.maxCmdSn, p.word36, p.word40, p.word44][i]
  }

  function WithWord(p: Pdu, i: nat, v: int): Pdu
    requires i < 8
  {
    match i
    case 0 => p.(taskTag := v)
    case 1 => p.(transferTag := v)
    case 2 => p.(statSn := v)
    case 3 => p.(expCmdSn := v)
    case 4 => p.(maxCmdSn := v)
    case 5 => p.(word36 := v)
    case 6 => p.(word40 := v)
    case _ => p.(word44 := v)
  }

  function WordBytes(p: Pdu, i: nat): (s: seq<byte>)
    requires i <= 8
    ensures |s| == 4 * i
  {
    if i == 0 then [] else WordBytes(p, i - 1) + Int32Bytes(Word(p, i - 1))
  }

  function FirstBytes(p: Pdu): (s: seq<byte>)
    ensures |s| == 16
  {
    [p.opcode, p.flags, p.byte2, p.byte3, 0] + Int24Bytes(|p.data|) + Zeros(8)
  }

  lemma TwoWords(p: Pdu, i: nat)
    requires i <= 6
    ensures WordBytes(p, i + 2) == WordBytes(p, i) + Int32Bytes(Word(p, i)) + Int32Bytes(Word(p, i + 1))
  {
  }

  lemma HeaderWords(p: Pdu)
    ensures HeaderBytes(p) == FirstBytes(p) + WordBytes(p, 8)
  {
    TwoWords(p, 0);
    TwoWords(p, 2);
    TwoWords(p, 4);
    TwoWords(p, 6);
    EightParts(FirstBytes(p), Int32Bytes(p.taskTag), Int32Bytes(p.transferTag), Int32Bytes(p.statSn),
               Int32Bytes(p.expCmdSn), Int32Bytes(p.maxCmdSn), Int32Bytes(p.word36), Int32Bytes(p.word40),
               Int32Bytes(p.word44), WordBytes(p, 2), WordBytes(p, 4), WordBytes(p, 6), WordBytes(p, 8));
  }

  lemma EightParts(f: seq<byte>, a: seq<byte>, b: seq<byte>, c: seq<byte>, d: seq<byte>, e: seq<byte>, g: seq<byte>,
                   h: seq<byte>, i: seq<byte>, w2: seq<byte>, w4: seq<byte>, w6: seq<byte>, w8: seq<byte>)
    requires w2 == [] + a + b && w4 == w2 + c + d && w6 == w4 + e + g && w8 == w6 + h + i
    ensures f + a + b + c + d + e + g + h + i == f + w8
  {
    assert f + w2 == f + a + b;
    assert f + w4 == f + w2 + c + d;
    assert f + w6 == f + w4 + e + g;
    assert f + w8 == f + w6 + h + i;
  }

  lemma {:induction false} PatchWords(p: Pdu, i: nat, v: int, j: nat)
    requires i < j <= 8
    ensures Patch(WordBytes(p, j), 4 * i, Int32Bytes(v)) == WordBytes(WithWord(p, i, v), j)
  {
    var q := WithWord(p, i, v);
    var front, last := WordBytes(p, j - 1), Int32Bytes(Word(p, j - 1));
    if i == j - 1 {
      SameWords(p, q, i, i);
      PatchSuffix(front, last, Int32Bytes(v));
      assert Patch(last, 0, Int32Bytes(v)) == Int32Bytes(v);
    } else {
      PatchWords(p, i, v, j - 1);
      PatchPrefix(front + last, front, last, 4 * i, Int32Bytes(v));
      assert Word(p, j - 1) == Word(q, j - 1);
    }
  }

  lemma {:induction false} SameWords(p: Pdu, q: Pdu, i: nat, j: nat)
    requires j <= i < 8 && q == WithWord(p, i, Word(q, i))
    ensures WordBytes(p, j) == WordBytes(q, j)
  {
    if j > 0 {
      SameWords(p, q, i, j - 1);
      assert Word(p, j - 1) == Word(q, j - 1);
    }
  }

  lemma PatchInside(pre: seq<byte>, mid: seq<byte>, post: seq<byte>, off: nat, b: seq<byte>)
    requires off + |b| <= |mid|
    ensures Patch(pre + mid + post, |pre| + off, b) == pre + Patch(mid, off, b) + post
  {
  }

  /** The bytes after the header. */
  function Tail(p: Pdu, n: nat): (s: seq<byte>)
    requires HEADER + |p.data| <= n
    ensures |s| == n - HEADER
  {
    p.data + Zeros(n - HEADER - |p.data|)
  }

  lemma ImageParts(p: Pdu, n: nat)
    requires HEADER + |p.data| <= n
    ensures Image(p, n) == FirstBytes(p) + WordBytes(p, 8) + Tail(p, n)
  {
    HeaderWords(p);
  }

  lemma OtherPartsStay(p: Pdu, n: nat, i: nat, v: int)
    requires HEADER + |p.data| <= n && i < 8
    ensures FirstBytes(WithWord(p, i, v)) == FirstBytes(p) && Tail(WithWord(p, i, v), n) == Tail(p, n)
    ensures HEADER + |WithWord(p, i, v).data| <= n
  {
  }

  lemma PatchWord(p: Pdu, n: nat, i: nat, v: int)
    requires HEADER + |p.data| <= n && i < 8
    ensures HEADER + |WithWord(p, i, v).data| <= n
    ensures Patch(Image(p, n), 16 + 4 * i, Int32Bytes(v)) == Image(WithWord(p, i, v), n)
  {
    OtherPartsStay(p, n, i, v);
    ImageParts(p, n);
    ImageParts(WithWord(p, i, v), n);
    PatchWords(p, i, v, 8);
    PatchInside(FirstBytes(p), WordBytes(p, 8), Tail(p, n), 4 * i, Int32Bytes(v));
  }

  function WithFirst(p: Pdu, i: nat, b: byte): Pdu
    requires i < 4
  {
    match i
    case 0 => p.(opcode := b)
    case 1 => p.(flags := b)
    case 2 => p.(byte2 := b)
    case _ => p.(byte3 := b)
  }

  lemma {:induction false} SameWordsAll(p: Pdu, q: Pdu, j: nat)
    requires j <= 8 && forall i :: 0 <= i < 8 ==> Word(p, i) == Word(q, i)
    ensures WordBytes(p, j) == WordBytes(q, j)
  {
    if j > 0 {
      SameWordsAll(p, q, j - 1);
    }
  }

  lemma PatchPrefix(s: seq<byte>, pre: seq<byte>, post: seq<byte>, off: nat, b: seq<byte>)
    requires s == pre + post && off + |b| <= |pre|
    ensures Patch(s, off, b) == Patch(pre, off, b) + post
  {
  }

  /** Everything after the first sixteen bytes. */
  function Remainder(p: Pdu, n: nat): (s: seq<byte>)
    requires HEADER + |p.data| <= n
    ensures |s| == n - 16
  {
    WordBytes(p, 8) + Tail(p, n)
  }

  lemma ImageHalves(p: Pdu, n: nat)
    requires HEADER + |p.data| <= n
    ensures Image(p, n) == FirstBytes(p) + Remainder(p, n)
  {
    ImageParts(p, n);
  }

  lemma PatchFirstBytes(p: Pdu, i: nat, b: byte)
    requires i < 4
    ensures Patch(FirstBytes(p), i, [b]) == FirstBytes(WithFirst(p, i, b))
  {
  }

  lemma PatchFirst(p: Pdu, n: nat, i: nat, b: byte)
    requires HEADER + |p.data| <= n && i < 4
    ensures Patch(Image(p, n), i, [b]) == Image(WithFirst(p, i, b), n)
  {
    ImageHalves(p, n);
    ImageHalves(WithFirst(p, i, b), n);
    PatchPrefix(Image(p, n), FirstBytes(p), Remainder(p, n), i, [b]);
    PatchFirstBytes(p, i, b);
    SameWordsAll(p, WithFirst(p, i, b), 8);
  }

  lemma PatchLengthBytes(p: Pdu, data: seq<byte>)
    ensures Patch(FirstBytes(p), 5, Int24Bytes(|data|)) == FirstBytes(p.(data := data))
  {
  }

  /** Data over data no longer than it. */
  lemma PatchTail(p: Pdu, n: nat, data: seq<byte>)
    requires |p.data| <= |data| && HEADER + |data| <= n
    ensures Patch(Tail(p, n), 0, data) == Tail(p.(data := data), n)
  {
  }

  lemma LengthPatched(p: Pdu, n: nat, data: seq<byte>)
    requires HEADER + |p.data| <= n
    ensures Patch(Image(p, n), 5, Int24Bytes(|data|)) == FirstBytes(p.(data := data)) + Remainder(p, n)
  {
    ImageHalves(p, n);
    PatchPrefix(Image(p, n), FirstBytes(p), Remainder(p, n), 5, Int24Bytes(|data|));
    PatchLengthBytes(p, data);
  }

  lemma DataPatched(first: seq<byte>, words: seq<byte>, tail: seq<byte>, data: seq<byte>)
    requires |first| == 16 && |words| == 32 && |data| <= |tail|
    ensures Patch(first + (words + tail), HEADER, data) == first + words + Patch(tail, 0, data)
  {
    assert first + (words + tail) == (first + words) + tail;
    PatchSuffix(first + words, tail, data);
  }

  /** Setting the length and copying the data into a region whose image has no longer data yet. */
  lemma PatchData(p: Pdu, n: nat, data: seq<byte>)
    requires |p.data| <= |data| && HEADER + |data| <= n
    ensures Patch(Patch(Image(p, n), 5, Int24Bytes(|data|)), HEADER, data) == Image(p.(data := data), n)
  {
    var q := p.(data := data);
    LengthPatched(p, n, data);
    SameWordsAll(p, q, 8);
    DataPatched(FirstBytes(q), WordBytes(p, 8), Tail(p, n), data);
    PatchTail(p, n, data);
    ImageParts(q, n);
  }

  lemma PatchSuffix(pre: seq<byte>, post: seq<byte>, b: seq<byte>)
    requires |b| <= |post|
    ensures Patch(pre + post, |pre|, b) == pre + Patch(post, 0, b)
  {
  }

  lemma ImageIsEncoding(p: Pdu)
    ensures Image(p, Padded(HEADER + |p.data|)) == Encode(p)
  {
  }

  // The setters.

  method SetByte(a: array<byte>, base: nat, ghost n: nat, ghost p: Pdu, i: nat, b: byte) returns (ghost q: Pdu)
    requires Holds(a, base, n, p) && i < 4
    modifies a
    ensures q == WithFirst(p, i, b) && Holds(a, base, n, q) && a[..base] == old(a[..base])
  {
    q := WithFirst(p, i, b);
    PatchFirst(p, n, i, b);
    Copy(a, base, n, i, [b]);
  }

  /** iscsi_pdu_set_opcode. */
  method SetOpcode(a: array<byte>, base: nat, ghost n: nat, ghost p: Pdu, opcode: byte) returns (ghost q: Pdu)
    requires Holds(a, base, n, p)
    modifies a
    ensures q == p.(opcode := WithOpcode(p.opcode, opcode)) && Holds(a, base, n, q) && a[..base] == old(a[..base])
  {
    FirstAt(a, base, n, p);
    q := SetByte(a, base, n, p, 0, WithOpcode(a[base], opcode));
  }

  /** iscsi_byte_bit2byte on byte 1. */
  method SetFlag(a: array<byte>, base: nat, ghost n: nat, ghost p: Pdu, bit: nat, on: bool) returns (ghost q: Pdu)
    requires Holds(a, base, n, p) && bit < 8
    modifies a
    ensures q == p.(flags := WithBit(p.flags, bit, on)) && Holds(a, base, n, q) && a[..base] == old(a[..base])
  {
    FirstAt(a, base, n, p);
    q := SetByte(a, base, n, p, 1, WithBit(a[base + 1], bit, on));
  }

  lemma FirstAt(a: array<byte>, base: nat, n: nat, p: Pdu)
    requires Holds(a, base, n, p)
    ensures a[base] == p.opcode && a[base + 1] == p.flags
  {
    var r := a[base..base + n];
    assert r[0] == a[base] && r[1] == a[base + 1];
    ImageParts(p, n);
  }

  /** iscsi_byte_int2byte on the i-th word from byte 16 on. */
  method SetWord(a: array<byte>, base: nat, ghost n: nat, ghost p: Pdu, i: nat, v: int) returns (ghost q: Pdu)
    requires Holds(a, base, n, p) && i < 8
    modifies a
    ensures q == WithWord(p, i, v) && Holds(a, base, n, q) && a[..base] == old(a[..base])
  {
    q := WithWord(p, i, v);
    PatchWord(p, n, i, v);
    Copy(a, base, n, 16 + 4 * i, Int32Bytes(v));
  }

  /**
   * iscsi_pdu_set_data_segment: length and data are patched. The result is an image unless longer data was there
   * before, whose end then stays behind.
   */
  method SetDataSegment(a: array<byte>, base: nat, ghost n: nat, ghost p: Pdu, data: seq<byte>) returns (ghost q: Pdu)
    requires Holds(a, base, n, p) && HEADER + |data| <= n
    modifies a
    ensures q == p.(data := data) && (|p.data| <= |data| ==> Holds(a, base, n, q)) && a[..base] == old(a[..base])
    ensures a[base..base + n] == Patch(Patch(Image(p, n), 5, Int24Bytes(|data|)), HEADER, data)
  {
    q := p.(data := data);
    if |p.data| <= |data| {
      PatchData(p, n, data);
    }
    Copy(a, base, n, 5, Int24Bytes(|data|));
    Copy(a, base, n, HEADER, data);
  }

  /** iscsi_pdu_pad0: the padding after `length` bytes; it is zero already. */
  method Pad0(a: array<byte>, base: nat, ghost n: nat, ghost p: Pdu, length: nat)
    requires Holds(a, base, n, p) && length == HEADER + |p.data| && n == Padded(length)
    modifies a
    ensures Holds(a, base, n, p) && a[..base] == old(a[..base])
  {
    var pad := (Padded(length) - length) % 4;
    assert Patch(Image(p, n), length, Zeros(pad)) == Image(p, n);
    Copy(a, base, n, length, Zeros(pad));
  }
}
