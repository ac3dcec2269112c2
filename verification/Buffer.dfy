/** The bounded byte queue both directions of a connection use (iscsi_buffer.c). */
module Buffers {
  import opened Bytes

  const BUFFER_SIZE: nat := 0x40_0000  // ISCSI_BUFFER_SIZE

  class Buffer {
    const data: array<byte>
    var length: nat
    /** Everything flushed off the front so far. */
    ghost var drained: seq<byte>

    ghost predicate Valid()
      reads this
    {
      data.Length == BUFFER_SIZE && length <= BUFFER_SIZE
    }

    ghost function Contents(): seq<byte>
      requires Valid()
      reads this, data
    {
      data[..length]
    }

    /** All bytes ever appended, in order. */
    ghost function Stream(): seq<byte>
      requires Valid()
      reads this, data
    {
      drained + Contents()
    }

    constructor ()
      ensures Valid() && fresh(data) && Contents() == [] && drained == []
    {
      data := new byte[BUFFER_SIZE];
      length := 0;
      drained := [];
    }

    /** iscsi_buffer_flush: shifts the remaining bytes to the front, in place. */
    method Flush(n: nat)
      requires Valid() && n <= length
      modifies this, data
      ensures Valid() && length == old(length) - n
      ensures Contents() == old(Contents()[n..])
      ensures drained == old(drained + Contents()[..n])
      ensures Stream() == old(Stream())
    {
      ghost var was := Contents();
      Shift(n);
      drained := drained + was[..n];
      length := length - n;
      assert was == was[..n] + was[n..];
    }

    /** The loop: byte i takes the value of byte i + n. */
    method Shift(n: nat)
      requires Valid() && n <= length
      modifies data
      ensures data[..length - n] == old(Contents()[n..])
    {
      ghost var was := data[..];
      for i := 0 to length - n
        invariant forall k :: 0 <= k < i ==> data[k] == was[k + n]
        invariant forall k :: i <= k < data.Length ==> data[k] == was[k]
      {
        data[i] := data[i + n];
      }
    }

    /**
     * iscsi_buffer_acquire_lock_for_length: waits until `n` bytes are free, clears them and returns where they
     * start, or -1 (NULL) when they can never fit. `drain` is what the other thread flushes during the wait;
     * that the wait ends is the business of module Transmit.
     */
    method AcquireLockForLength(n: nat, drain: nat) returns (base: int)
      requires Valid() && drain <= length
      requires n <= BUFFER_SIZE ==> length - drain + n <= BUFFER_SIZE
      modifies this, data
      ensures Valid()
      ensures n > BUFFER_SIZE ==>
                base == -1 && length == old(length) && Contents() == old(Contents()) && drained == old(drained)
      ensures n <= BUFFER_SIZE ==>
                && base == length == old(length) - drain && base + n <= BUFFER_SIZE
                && drained == old(drained + Contents()[..drain]) && Contents() == old(Contents()[drain..])
                && data[base..base + n] == Zeros(n)
      ensures Stream() == old(Stream())
    {
      if n > BUFFER_SIZE {
        return -1;
      }
      Flush(drain);
      base := length;
      Clear(n);
    }

    /** The memset of the reserved region. */
    method Clear(n: nat)
      requires Valid() && length + n <= BUFFER_SIZE
      modifies data
      ensures data[length..length + n] == Zeros(n) && Contents() == old(Contents())
    {
      forall i | length <= i < length + n {
        data[i] := 0;
      }
    }

    /** iscsi_buffer_release_lock: publishes `n` reserved bytes. */
    method ReleaseLock(n: nat)
      requires Valid() && length + n <= BUFFER_SIZE
      modifies this
      ensures Valid() && length == old(length) + n && drained == old(drained)
      ensures Contents() == old(Contents()) + data[old(length)..old(length) + n]
      ensures Stream() == old(Stream()) + data[old(length)..old(length) + n]
    {
      SliceGrows(data, length, data[length..length + n]);
      length := length + n;
    }

    /**
     * iscsi_buffer_receive. Only the receiver thread touches the buffer it fills, so nothing drains it while it
     * waits: without room the call does not come back.
     */
    method Receive(chunk: seq<byte>) returns (status: int)
      requires Valid()
      requires |chunk| <= BUFFER_SIZE ==> length + |chunk| <= BUFFER_SIZE
      modifies this, data
      ensures Valid() && drained == old(drained)
      ensures |chunk| > BUFFER_SIZE ==> status == -1 && Contents() == old(Contents())
      ensures |chunk| <= BUFFER_SIZE ==> status == 0 && Contents() == old(Contents()) + chunk
    {
      if |chunk| > BUFFER_SIZE {
        return -1;
      }
      assert Contents()[..0] == [] && Contents()[0..] == Contents();
      var base := AcquireLockForLength(|chunk|, 0);
      Copy(data, base, |chunk|, 0, chunk);
      ReleaseLock(|chunk|);
      return 0;
    }
  }

  lemma SliceGrows(a: array<byte>, length: nat, bytes: seq<byte>)
    requires length + |bytes| <= a.Length && a[length..length + |bytes|] == bytes
    ensures a[..length + |bytes|] == a[..length] + bytes
  {
  }

  lemma WindowOfAll(a: array<byte>, base: nat, n: nat)
    requires base + n <= a.Length
    ensures a[base..base + n] == a[..][base..base + n]
  {
  }

  /** memcpy into a region `a[base..base + n]`. */
  method Copy(a: array<byte>, base: nat, ghost n: nat, at: nat, bytes: seq<byte>)
    requires base + n <= a.Length && at + |bytes| <= n
    modifies a
    ensures a[base..base + n] == Patch(old(a[base..base + n]), at, bytes)
    ensures a[..base] == old(a[..base])
  {
    forall i | 0 <= i < |bytes| {
      a[base + at + i] := bytes[i];
    }
    ghost var was := old(a[base..base + n]);
    assert a[base..base + n] == Patch(was, at, bytes);
  }
}
