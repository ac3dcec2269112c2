/** When the receive buffer has room for the next chunk (iscsi_buffer.c:20-35, 43-53; iscsi_connection.c:30-51). */
module Room {
  import opened Bytes
  import opened Pdus
  import opened Buffers
  import opened Reassembly

  /** Room for every chunk as it arrives; without it the receiver thread waits for a buffer that only it empties. */
  predicate AlwaysRoom(chunks: seq<seq<byte>>)
  {
    forall k :: 0 <= k < |chunks| ==> HasRoom(chunks, k)
  }

  predicate HasRoom(chunks: seq<seq<byte>>, k: nat)
    requires k < |chunks|
  {
    |IncomingAll(chunks[..k]).backlog| + |chunks[k]| <= BUFFER_SIZE
  }

  // Small chunks.

  /** A PDU that has begun leaves room for one small chunk beside it. */
  predicate Fits(s: seq<byte>)
  {
    |s| >= HEADER ==> FrameLength(s) <= BUFFER_SIZE - HEADER
  }

  predicate FramesFit(stream: seq<byte>)
  {
    forall n :: 0 <= n <= |stream| ==> Fits(Rest(stream[..n]))
  }

  predicate AllSmall(chunks: seq<seq<byte>>)
  {
    forall k :: 0 <= k < |chunks| ==> |chunks[k]| <= HEADER
  }

  lemma FlattenPrefix(chunks: seq<seq<byte>>, k: nat)
    requires k <= |chunks|
    ensures Flatten(chunks[..k]) <= Flatten(chunks)
  {
    assert chunks == chunks[..k] + chunks[k..];
    FlattenAppend(chunks[..k], chunks[k..]);
  }

  lemma BacklogIsRest(chunks: seq<seq<byte>>)
    requires AllSmall(chunks)
    ensures IncomingAll(chunks).backlog == Rest(Flatten(chunks)) && !Complete(IncomingAll(chunks).backlog)
  {
    SmallChunksKeepUp(chunks);
    UpToDateMeansIncompleteBacklog(chunks);
    NothingLost(chunks);
    FramesOfFlatten(IncomingAll(chunks).delivered, IncomingAll(chunks).backlog);
  }

  lemma SmallChunkHasRoom(chunks: seq<seq<byte>>, k: nat)
    requires AllSmall(chunks) && FramesFit(Flatten(chunks)) && k < |chunks|
    ensures HasRoom(chunks, k)
  {
    BacklogIsRest(chunks[..k]);
    FlattenPrefix(chunks, k);
    assert Flatten(chunks[..k]) == Flatten(chunks)[..|Flatten(chunks[..k])|];
  }

  /** Chunks of at most 48 bytes and PDUs of at most the buffer less 48 bytes: there is always room. */
  lemma SmallChunksHaveRoom(chunks: seq<seq<byte>>)
    requires AllSmall(chunks) && FramesFit(Flatten(chunks))
    ensures AlwaysRoom(chunks)
  {
    forall k | 0 <= k < |chunks| ensures HasRoom(chunks, k) {
      SmallChunkHasRoom(chunks, k);
    }
  }

  // Several header-only PDUs in every chunk.

  function Copies(h: seq<byte>, n: nat): seq<byte>
  {
    if n == 0 then [] else h + Copies(h, n - 1)
  }

  lemma {:induction false} CopiesLength(h: seq<byte>, n: nat)
    ensures |Copies(h, n)| == |h| * n
  {
    if n > 0 {
      CopiesLength(h, n - 1);
      assert |h| * n == |h| * (n - 1) + |h|;
    }
  }

  lemma {:induction false} CopiesAdd(h: seq<byte>, m: nat, n: nat)
    ensures Copies(h, m) + Copies(h, n) == Copies(h, m + n)
  {
    if m > 0 {
      CopiesAdd(h, m - 1, n);
      Associative(h, Copies(h, m - 1), Copies(h, n));
    } else {
      assert [] + Copies(h, n) == Copies(h, n);
    }
  }

  /** n chunks of j copies of h each. */
  function Bursts(h: seq<byte>, j: nat, n: nat): (chunks: seq<seq<byte>>)
    ensures |chunks| == n
  {
    seq(n, i => Copies(h, j))
  }

  lemma HeadServed(r: Receiver, t: Receiver, h: seq<byte>, chunk: seq<byte>, rest: seq<byte>)
    requires IsFrame(h) && r.backlog + chunk == h + rest && t == Incoming(r, chunk)
    ensures t.backlog == rest
  {
    HeaderOfConcat(h, rest);
    assert (h + rest)[|h|..] == rest;
  }

  lemma CopiesHead(h: seq<byte>, m: nat, j: nat, left: nat)
    requires m + j == left + 1
    ensures Copies(h, m) + Copies(h, j) == h + Copies(h, left)
  {
    CopiesAdd(h, m, j);
  }

  lemma BurstServed(r: Receiver, t: Receiver, h: seq<byte>, m: nat, j: nat, left: nat)
    requires IsFrame(h) && r.backlog == Copies(h, m) && t == Incoming(r, Copies(h, j)) && left + 1 == m + j
    ensures t.backlog == Copies(h, left)
  {
    CopiesHead(h, m, j, left);
    HeadServed(r, t, h, Copies(h, j), Copies(h, left));
  }

  /** (j - 1) * n: what is left of n bursts of j PDUs when one PDU is served a burst. */
  function Left(j: nat, n: nat): (m: nat)
    requires j >= 1
  {
    if n == 0 then 0 else Left(j, n - 1) + j - 1
  }

  lemma BurstsLast(h: seq<byte>, j: nat, n: nat)
    requires n >= 1
    ensures IncomingAll(Bursts(h, j, n)) == Incoming(IncomingAll(Bursts(h, j, n - 1)), Copies(h, j))
  {
    assert Bursts(h, j, n)[..n - 1] == Bursts(h, j, n - 1);
  }

  lemma {:induction false} BacklogOfBursts(h: seq<byte>, j: nat, n: nat)
    requires IsFrame(h) && j >= 1
    ensures IncomingAll(Bursts(h, j, n)).backlog == Copies(h, Left(j, n))
  {
    var t := IncomingAll(Bursts(h, j, n));
    if n == 0 {
      assert Bursts(h, j, 0) == [];
    } else {
      var r := IncomingAll(Bursts(h, j, n - 1));
      BacklogOfBursts(h, j, n - 1);
      BurstsLast(h, j, n);
      BurstServed(r, t, h, Left(j, n - 1), j, Left(j, n));
    }
  }

  lemma RoomForBurst(h: seq<byte>, j: nat, n: nat, k: nat)
    requires IsFrame(h) && j >= 1 && k < n
    ensures HasRoom(Bursts(h, j, n), k) <==> |h| * Left(j, k) + |h| * j <= BUFFER_SIZE
  {
    BacklogOfBursts(h, j, k);
    CopiesLength(h, Left(j, k));
    CopiesLength(h, j);
    assert Bursts(h, j, n)[..k] == Bursts(h, j, k);
  }

  lemma {:induction false} LeftGrows(j: nat, k: nat, m: nat)
    requires j >= 1 && k <= m
    ensures Left(j, k) <= Left(j, m)
  {
    if k < m {
      LeftGrows(j, k, m - 1);
    }
  }

  lemma Scaled(a: nat, x: nat, y: nat)
    requires x <= y
    ensures a * x <= a * y
  {
  }

  /** n chunks of j PDUs each, one PDU served a chunk: there is always room exactly if the last chunk finds it. */
  lemma BurstsHaveRoomIff(h: seq<byte>, j: nat, n: nat)
    requires IsFrame(h) && j >= 1 && n >= 1
    ensures AlwaysRoom(Bursts(h, j, n)) <==> |h| * Left(j, n - 1) + |h| * j <= BUFFER_SIZE
  {
    var chunks := Bursts(h, j, n);
    RoomForBurst(h, j, n, n - 1);
    if AlwaysRoom(chunks) {
      assert HasRoom(chunks, n - 1);
    }
    if |h| * Left(j, n - 1) + |h| * j <= BUFFER_SIZE {
      forall k | 0 <= k < n ensures HasRoom(chunks, k) {
        RoomForBurst(h, j, n, k);
        LeftGrows(j, k, n - 1);
        Scaled(|h|, Left(j, k), Left(j, n - 1));
      }
    }
  }

  lemma {:induction false} FourLeft(n: nat)
    ensures Left(5, n) == 4 * n
  {
    if n > 0 {
      FourLeft(n - 1);
    }
  }

  /** Chunks of 240 bytes, five header-only PDUs each: 21845 find room, the next one does not, whatever the PDUs. */
  lemma FiveAtATimeBlock(h: seq<byte>)
    requires IsFrame(h) && |h| == HEADER
    ensures AlwaysRoom(Bursts(h, 5, 21845)) && !AlwaysRoom(Bursts(h, 5, 21846))
    ensures forall k :: 0 <= k < 21846 ==> |Bursts(h, 5, 21846)[k]| == 240
  {
    BurstsHaveRoomIff(h, 5, 21846);
    BurstsHaveRoomIff(h, 5, 21845);
    FourLeft(21845);
    FourLeft(21844);
    CopiesLength(h, 5);
  }
}
