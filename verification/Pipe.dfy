/**
  Pipes: the ring buffer of kernel/containers/ring_buf.h and the critical
  sections of reads and writes in kernel/fs/fifo.c.
*/
module Pipe {
  type byte = x: int | 0 <= x < 256

  const PIPE_BUF := 4096

  /** Indices go round. */
  function Next(i: nat, capacity: nat): (j: nat)
    requires i < capacity
    ensures j == if i + 1 == capacity then 0 else i + 1
  {
    (i + 1) % capacity
  }

  class RingBuf {
    const ring: array<byte>
    var writeIndex: nat
    var readIndex: nat

    ghost predicate Valid()
      reads this
    {
      ring.Length > 1 && writeIndex < ring.Length && readIndex < ring.Length
    }

    /** Bytes written and not read. */
    ghost function Count(): nat
      requires Valid()
      reads this
    {
      if readIndex <= writeIndex then writeIndex - readIndex else writeIndex + ring.Length - readIndex
    }

    ghost function Contents(): (s: seq<byte>)
      requires Valid()
      reads this, ring
      ensures |s| == Count() < ring.Length
    {
      if readIndex <= writeIndex then ring[readIndex..writeIndex] else ring[readIndex..] + ring[..writeIndex]
    }

    constructor (capacity: nat)
      requires capacity > 1
      ensures Valid() && fresh(ring) && ring.Length == capacity && Contents() == []
    {
      ring := new byte[capacity];
      writeIndex, readIndex := 0, 0;
    }

    /** ring_buf_is_empty */
    predicate IsEmpty()
      requires Valid()
      reads this
      ensures IsEmpty() <==> Count() == 0
    {
      writeIndex == readIndex
    }

    /** ring_buf_is_full: one place stays unused, to tell full from empty. */
    predicate IsFull()
      requires Valid()
      reads this
      ensures IsFull() <==> Count() == ring.Length - 1
    {
      Next(writeIndex, ring.Length) == readIndex
    }

    /** One round of ring_buf_read. */
    method ReadOne() returns (b: byte)
      requires Valid() && !IsEmpty()
      modifies this`readIndex
      ensures Valid() && old(Contents()) == [b] + Contents()
    {
      hide Next;
      b := ring[readIndex];
      readIndex := Next(readIndex, ring.Length);
    }

    /** One round of ring_buf_write. */
    method WriteOne(b: byte)
      requires Valid() && !IsFull()
      modifies this`writeIndex, ring
      ensures Valid() && Contents() == old(Contents()) + [b]
    {
      hide Next;
      ghost var was, r, w := ring[..], readIndex, writeIndex;
      ring[writeIndex] := b;
      assert ring[..] == was[w := b];
      assert r <= w ==> ring[r..w] == was[r..w] && ring[r..w + 1] == was[r..w] + [b];
      assert w < r ==> ring[r..] == was[r..] && ring[..w] == was[..w] && ring[..w + 1] == was[..w] + [b];
      writeIndex := Next(writeIndex, ring.Length);
    }

    /** ring_buf_read from a buffer that is not empty: as many bytes as there are, or as were asked for. */
    method Read(count: nat) returns (bytes: seq<byte>)
      requires Valid() && !IsEmpty()
      modifies this`readIndex
      ensures Valid() && old(Contents()) == bytes + Contents()
      ensures |bytes| == if count < old(Count()) then count else old(Count())
    {
      hide Next, Contents, Count;
      bytes := [];
      while |bytes| < count
        invariant Valid() && old(Contents()) == bytes + Contents() && |bytes| <= count
        invariant |bytes| < count ==> !IsEmpty()
        decreases count - |bytes|
      {
        var b := ReadOne();
        bytes := bytes + [b];
        if IsEmpty() { break; }
      }
    }

    /** ring_buf_write to a buffer that is not full: as many bytes as there is room for. */
    method Write(bytes: seq<byte>) returns (n: nat)
      requires Valid() && !IsFull()
      modifies this`writeIndex, ring
      ensures Valid() && n <= |bytes| && Contents() == old(Contents()) + bytes[..n]
      ensures n == |bytes| || IsFull()
      ensures bytes != [] ==> n > 0
    {
      hide Next, Contents, Count;
      n := 0;
      while n < |bytes|
        invariant Valid() && n <= |bytes| && Contents() == old(Contents()) + bytes[..n]
        invariant n < |bytes| ==> !IsFull()
        decreases |bytes| - n
      {
        WriteOne(bytes[n]);
        n := n + 1;
        if IsFull() { break; }
      }
    }
  }

  /** Outcome of a critical section of fifo_pread. */
  datatype ReadResult = Data(bytes: seq<byte>) | EndOfFile | ReadAgain

  /** Outcome of a critical section of fifo_pwrite. */
  datatype WriteResult = Wrote(n: nat) | BrokenPipe | WriteAgain

  /**
    A pipe. `sent` is all that writes accepted, `received` all that reads
    returned; each method is a section that no other one interrupts, so that
    every interleaving of readers and writers is a sequence of calls.
  */
  class Fifo {
    const buf: RingBuf
    var numReaders: nat
    var numWriters: nat
    ghost var sent: seq<byte>
    ghost var received: seq<byte>

    ghost predicate Valid()
      reads this, buf, buf.ring
    {
      && buf.Valid() && buf.ring.Length == PIPE_BUF
      && sent == received + buf.Contents()
    }

    constructor ()
      ensures Valid() && fresh(buf) && fresh(buf.ring) && sent == [] && received == [] && numReaders == numWriters == 0
    {
      buf := new RingBuf(PIPE_BUF);
      numReaders, numWriters := 0, 0;
      sent, received := [], [];
    }

    /** fifo_open and fifo_close on a pipe */
    method Open(reading: bool)
      requires Valid()
      modifies this`numReaders, this`numWriters
      ensures Valid() && numReaders == old(numReaders) + (if reading then 1 else 0)
      ensures numWriters == old(numWriters) + (if reading then 0 else 1)
    {
      if reading { numReaders := numReaders + 1; } else { numWriters := numWriters + 1; }
    }

    method Close(reading: bool)
      requires Valid() && if reading then numReaders > 0 else numWriters > 0
      modifies this`numReaders, this`numWriters
      ensures Valid() && numReaders == old(numReaders) - (if reading then 1 else 0)
      ensures numWriters == old(numWriters) - (if reading then 0 else 1)
    {
      if reading { numReaders := numReaders - 1; } else { numWriters := numWriters - 1; }
    }

    /** fifo_pread's section: end of file only when nothing sent is unread, and nobody can send more. */
    method Read(count: nat) returns (r: ReadResult)
      requires Valid()
      modifies this`received, buf`readIndex
      ensures Valid() && received <= sent && |sent| - |received| < PIPE_BUF
      ensures r.Data? ==> received == old(received) + r.bytes
      ensures r.Data? ==> var unread := |sent| - |old(received)|; |r.bytes| == if count <= unread then count else unread
      ensures r.Data? <==> old(received) != sent
      ensures r.EndOfFile? <==> old(received) == sent && numWriters == 0
      ensures !r.Data? ==> received == old(received)
    {
      hide RingBuf.Contents, RingBuf.Count, RingBuf.IsEmpty;
      if !buf.IsEmpty() {
        var bytes := buf.Read(count);
        received := received + bytes;
        return Data(bytes);
      }
      if numWriters == 0 { return EndOfFile; }
      r := ReadAgain;
    }

    /** fifo_pwrite's section */
    method Write(bytes: seq<byte>) returns (r: WriteResult)
      requires Valid()
      modifies this`sent, buf`writeIndex, buf.ring
      ensures Valid() && received <= sent && |sent| - |received| < PIPE_BUF
      ensures r.Wrote? ==> r.n <= |bytes| && sent == old(sent) + bytes[..r.n]
      ensures r.Wrote? ==> var room := PIPE_BUF - 1 - (|old(sent)| - |received|);
        0 < room && r.n == if |bytes| <= room then |bytes| else room
      ensures r.BrokenPipe? <==> numReaders == 0
      ensures r.WriteAgain? <==> numReaders > 0 && |old(sent)| - |received| == PIPE_BUF - 1
      ensures !r.Wrote? ==> sent == old(sent)
    {
      hide RingBuf.Contents, RingBuf.Count, RingBuf.IsFull;
      if numReaders == 0 { return BrokenPipe; }
      if buf.IsFull() { return WriteAgain; }
      var n := buf.Write(bytes);
      sent := sent + bytes[..n];
      r := Wrote(n);
    }
  }
}
