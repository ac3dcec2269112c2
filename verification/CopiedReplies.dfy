/**
 * Responses that start from the request's own header (request/login.c, request/text.c), and the login reject: the
 * reserved region holds a header and zeros, and the header is patched in place.
 */
module CopiedReplies {
  import opened Bytes
  import opened Decimals
  import opened Lookup
  import opened Pdus
  import opened Buffers
  import opened Negotiation
  import opened Model
  import opened Fields
  import opened Objects
  import opened Responses

  /** The region of n bytes at `base` is the header h and zeros. */
  ghost predicate Head(a: array<byte>, base: nat, n: nat, h: seq<byte>)
    reads a
  {
    |h| == HEADER <= n && base + n <= a.Length && a[base..base + n] == h + Zeros(n - HEADER)
  }

  method Put(a: array<byte>, base: nat, ghost n: nat, ghost h: seq<byte>, at: nat, bytes: seq<byte>)
    returns (ghost g: seq<byte>)
    requires Head(a, base, n, h) && at + |bytes| <= HEADER
    modifies a
    ensures g == Patch(h, at, bytes) && Head(a, base, n, g) && a[..base] == old(a[..base])
  {
    g := Patch(h, at, bytes);
    PatchPrefix(h + Zeros(n - HEADER), h, Zeros(n - HEADER), at, bytes);
    Copy(a, base, n, at, bytes);
  }

  lemma BlankHead(a: array<byte>, base: nat, n: nat)
    requires Holds(a, base, n, BLANK)
    ensures Head(a, base, n, Zeros(HEADER))
  {
    BlankImage(n);
    assert Zeros(n) == Zeros(HEADER) + Zeros(n - HEADER);
  }

  /** iscsi_pdu_generate_from_buffer. */
  method CopyHeader(a: array<byte>, base: nat, ghost n: nat, req: seq<byte>) returns (ghost g: seq<byte>)
    requires Holds(a, base, n, BLANK) && |req| >= HEADER
    modifies a
    ensures g == req[..HEADER] && Head(a, base, n, g) && a[..base] == old(a[..base])
  {
    BlankHead(a, base, n);
    g := Put(a, base, n, Zeros(HEADER), 0, req[..HEADER]);
    assert g == req[..HEADER];
  }

  /** iscsi_pdu_set_opcode. */
  method PutOpcode(a: array<byte>, base: nat, ghost n: nat, ghost h: seq<byte>, opcode: byte)
    returns (ghost g: seq<byte>)
    requires Head(a, base, n, h)
    modifies a
    ensures g == Patch(h, 0, [WithOpcode(h[0], opcode)]) && Head(a, base, n, g) && a[..base] == old(a[..base])
  {
    assert a[base] == a[base..base + n][0] == h[0];
    g := Put(a, base, n, h, 0, [WithOpcode(a[base], opcode)]);
  }

  /** iscsi_byte_bit2byte on byte `at`. */
  method PutBit(a: array<byte>, base: nat, ghost n: nat, ghost h: seq<byte>, at: nat, bit: nat, on: bool)
    returns (ghost g: seq<byte>)
    requires Head(a, base, n, h) && at < HEADER && bit < 8
    modifies a
    ensures g == Patch(h, at, [WithBit(h[at], bit, on)]) && Head(a, base, n, g) && a[..base] == old(a[..base])
  {
    assert a[base + at] == a[base..base + n][at] == h[at];
    g := Put(a, base, n, h, at, [WithBit(a[base + at], bit, on)]);
  }

  /** The data segment of a region that has none yet: its length, the bytes and the padding. */
  method PutPayload(a: array<byte>, base: nat, n: nat, ghost h: seq<byte>, data: seq<byte>)
    requires Head(a, base, n, h) && n == Padded(HEADER + |data|)
    modifies a
    ensures base + n <= a.Length && a[base..base + n] == Payload(h, data) && a[..base] == old(a[..base])
  {
    ghost var g := Put(a, base, n, h, 5, Int24Bytes(|data|));
    PatchSuffix(g, Zeros(n - HEADER), data);
    assert Patch(Zeros(n - HEADER), 0, data) == data + Zeros(n - HEADER - |data|);
    Copy(a, base, n, HEADER, data);
    assert a[base..base + n] == g + data + Zeros(n - HEADER - |data|);
    var pad := (n - HEADER - |data|) % 4;
    assert Patch(a[base..base + n], HEADER + |data|, Zeros(pad)) == a[base..base + n];
    Copy(a, base, n, HEADER + |data|, Zeros(pad));
  }

  /** Publishes a filled region as it is. */
  method PublishBytes(c: Connection, base: nat, n: nat, ghost bytes: seq<byte>)
    requires c.Valid() && base == c.response.length && base + n <= BUFFER_SIZE
    requires c.response.data[base..base + n] == bytes
    modifies c.response
    ensures c.Valid() && c.View() == Emit(old(c.View()), bytes)
  {
    c.response.ReleaseLock(n);
  }

  /** iscsi_connection_advance_stat_sn. */
  method AdvanceStatSn(c: Connection)
    requires c.Valid()
    modifies c`statSn
    ensures c.Valid() && c.View() == Advanced(old(c.View()))
  {
    c.statSn := Advance(c.statSn, 1);
  }

  lemma HeadOnly(a: array<byte>, base: nat, h: seq<byte>)
    requires Head(a, base, HEADER, h)
    ensures a[base..base + HEADER] == h
  {
  }

  method FillStatus(a: array<byte>, base: nat, req: seq<byte>, status: int)
    requires Holds(a, base, HEADER, BLANK) && |req| >= HEADER
    modifies a
    ensures base + HEADER <= a.Length && a[base..base + HEADER] == StatusReply(CopiedHeader(req, LOGIN_RES), status)
    ensures a[..base] == old(a[..base])
  {
    ghost var h := CopyHeader(a, base, HEADER, req);
    h := PutOpcode(a, base, HEADER, h, LOGIN_RES);
    h := Put(a, base, HEADER, h, 36, Int16Bytes(status));
    HeadOnly(a, base, h);
  }

  /** The response to a Login that is refused. */
  method SendStatus(c: Connection, req: seq<byte>, status: int)
    requires c.Valid() && |req| >= HEADER
    modifies c.response, c.response.data
    ensures c.Valid() && c.View() == Emit(old(c.View()), StatusReply(CopiedHeader(req, LOGIN_RES), status))
  {
    var base := Reserve(c, HEADER);
    FillStatus(c.response.data, base, req, status);
    PublishBytes(c, base, HEADER, StatusReply(CopiedHeader(req, LOGIN_RES), status));
  }

  method FillPartial(a: array<byte>, base: nat, req: seq<byte>, numbers: seq<byte>, ghost c: Conn)
    requires Holds(a, base, HEADER, BLANK) && |req| >= HEADER && numbers == Numbers(c)
    modifies a
    ensures base + HEADER <= a.Length && a[base..base + HEADER] == PartialReply(c, req) && a[..base] == old(a[..base])
  {
    ghost var h := CopyHeader(a, base, HEADER, req);
    h := Put(a, base, HEADER, h, 24, numbers);
    h := PutOpcode(a, base, HEADER, h, LOGIN_RES);
    h := PutBit(a, base, HEADER, h, 1, 0, false);
    h := Put(a, base, HEADER, h, 36, Int16Bytes(if Transit(req) then INITIATOR_ERROR else SUCCESS));
    HeadOnly(a, base, h);
  }

  /** response_partial_login. */
  method SendPartial(c: Connection, req: seq<byte>)
    requires c.Valid() && |req| >= HEADER
    modifies c`statSn, c.response, c.response.data
    ensures c.Valid() && c.View() == Advanced(Emit(old(c.View()), PartialReply(old(c.View()).conn, req)))
  {
    ghost var r := PartialReply(c.ConnView(), req);
    var base := Reserve(c, HEADER);
    FillPartial(c.response.data, base, req, NumberBytes(c.statSn, c.expCmdSn), c.ConnView());
    PublishBytes(c, base, HEADER, r);
    AdvanceStatSn(c);
  }

  method FillFinal(a: array<byte>, base: nat, n: nat, req: seq<byte>, numbers: seq<byte>, tsih: int, status: int,
                   data: seq<byte>, ghost c: Conn)
    requires Holds(a, base, n, BLANK) && |req| >= HEADER && numbers == Numbers(c) && n == Padded(HEADER + |data|)
    modifies a
    ensures base + n <= a.Length && a[base..base + n] == FinalReply(c, tsih, req, status, data)
            && a[..base] == old(a[..base])
  {
    ghost var h := CopyHeader(a, base, n, req);
    h := Put(a, base, n, h, 24, numbers);
    h := PutBit(a, base, n, h, 0, 1, false);
    ghost var cleared := h;
    h := PutOpcode(a, base, n, h, LOGIN_RES);
    assert h == Patch(Patch(req[..HEADER], 24, numbers), 0, [WithOpcode(WithBit(req[0], 1, false), LOGIN_RES)]);
    h := PutBit(a, base, n, h, 1, 0, true);
    h := Put(a, base, n, h, 36, Int16Bytes(status));
    h := Put(a, base, n, h, 14, Int16Bytes(tsih));
    PutPayload(a, base, n, h, data);
  }

  /** response_final_with_parameters. */
  method SendFinal(c: Connection, req: seq<byte>, status: int, data: seq<byte>)
    requires c.Valid() && |req| >= HEADER && |data| <= PARAMETER_BUFFER_SIZE
    modifies c`statSn, c.response, c.response.data
    ensures c.Valid()
    ensures c.View() == Advanced(Emit(old(c.View()), FinalReply(old(c.View()).conn, c.session.tsih, req, status, data)))
  {
    var n := Padded(HEADER + |data|);
    ghost var r := FinalReply(c.ConnView(), c.session.tsih, req, status, data);
    var base := Reserve(c, n);
    FillFinal(c.response.data, base, n, req, NumberBytes(c.statSn, c.expCmdSn), c.session.tsih, status, data,
              c.ConnView());
    PublishBytes(c, base, n, r);
    AdvanceStatSn(c);
  }

  method FillLoginReject(a: array<byte>, base: nat, tsih: int, ghost blank: seq<byte>)
    requires Head(a, base, HEADER, blank) && blank[0] == 0
    modifies a
    ensures base + HEADER <= a.Length && a[..base] == old(a[..base])
    ensures a[base..base + HEADER] == Patch(Patch(blank, 0, [LOGIN_RES]), 14, Int16Bytes(tsih))
  {
    ghost var h := PutOpcode(a, base, HEADER, blank, LOGIN_RES);
    h := Put(a, base, HEADER, h, 14, Int16Bytes(tsih));
    HeadOnly(a, base, h);
  }

  /** iscsi_request_login_reject. */
  method LoginReject(c: Connection)
    requires c.Valid()
    modifies c.response, c.response.data
    ensures c.Valid() && c.View() == LoginRejected(old(c.View()))
  {
    var base := Reserve(c, HEADER);
    BlankHead(c.response.data, base, HEADER);
    FillLoginReject(c.response.data, base, c.session.tsih, Zeros(HEADER));
    PublishBytes(c, base, HEADER, LoginRejectBytes(c.session.tsih));
  }

  method FillText(a: array<byte>, base: nat, n: nat, req: seq<byte>) returns (ghost h: seq<byte>)
    requires Holds(a, base, n, BLANK) && |req| >= HEADER
    modifies a
    ensures Head(a, base, n, h) && h == TextHeader(req) && a[..base] == old(a[..base])
  {
    h := CopyHeader(a, base, n, req);
    h := PutOpcode(a, base, n, h, TEXT_RES);
    h := PutBit(a, base, n, h, 1, 0, true);
  }

  method SendTextHeader(c: Connection, req: seq<byte>)
    requires c.Valid() && |req| >= HEADER
    modifies c.response, c.response.data
    ensures c.Valid() && c.View() == Emit(old(c.View()), TextHeader(req))
  {
    var base := Reserve(c, HEADER);
    ghost var h := FillText(c.response.data, base, HEADER, req);
    HeadOnly(c.response.data, base, h);
    PublishBytes(c, base, HEADER, TextHeader(req));
  }

  method SendTextPayload(c: Connection, req: seq<byte>, text: seq<byte>)
    requires c.Valid() && |req| >= HEADER && |text| <= PARAMETER_BUFFER_SIZE
    modifies c.response, c.response.data
    ensures c.Valid() && c.View() == Emit(old(c.View()), Payload(TextHeader(req), text))
  {
    var n := Padded(HEADER + |text|);
    var base := Reserve(c, n);
    ghost var h := FillText(c.response.data, base, n, req);
    PutPayload(c.response.data, base, n, h, text);
    PublishBytes(c, base, n, Payload(TextHeader(req), text));
  }

  /** iscsi_request_text_process. */
  method TextProcess(c: Connection, req: seq<byte>)
    requires c.Valid() && |req| >= HEADER
    modifies c.response, c.response.data
    ensures c.Valid() && c.View() == Emit(old(c.View()), TextReply(req))
  {
    if BitSet(req[2], 1) {
      SendTextHeader(c, req);
      return;
    }
    assert NUL !in SEND_TARGETS;
    var at := ParameterGet(Segment(req), SEND_TARGETS);
    if at.Some? {
      SendTextPayload(c, req, TARGETS_TEXT);
    } else {
      assert c.View().out + [] == c.View().out;
    }
  }
}
