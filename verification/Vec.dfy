/**
  The growable byte buffer of kernel/containers/vec.c, which holds the content
  of tmpfs files. Offsets and sizes are below 4 GiB.
*/
module Vec {
  type byte = x: int | 0 <= x < 256

  const PAGE_SIZE := 4096
  const SIZE_LIMIT := 0x1_0000_0000

  datatype Errno = EOVERFLOW | ENOMEM

  datatype Result<T> = Ok(value: T) | Err(error: Errno)

  // ------------------------------------------------------- what a file promises

  function Zeros(n: nat): (z: seq<byte>)
    ensures |z| == n && forall i :: 0 <= i < n ==> z[i] == 0
  {
    seq(n, _ => 0)
  }

  /** The content cut, or extended with zeros, to n bytes. */
  function Resized(s: seq<byte>, n: nat): (r: seq<byte>)
    ensures |r| == n && forall i :: 0 <= i < n ==> r[i] == if i < |s| then s[i] else 0
  {
    if n <= |s| then s[..n] else s + Zeros(n - |s|)
  }

  /** The content after `bytes` were written at an offset, which may lie behind its end. */
  function Written(s: seq<byte>, offset: nat, bytes: seq<byte>): (r: seq<byte>)
    ensures |r| == if |s| < offset + |bytes| then offset + |bytes| else |s|
  {
    var end := offset + |bytes|;
    var room := if |s| < end then Resized(s, end) else s;
    room[..offset] + bytes + room[end..]
  }

  /** What a read of `count` bytes at an offset returns: as many as there are behind the offset. */
  function Slice(s: seq<byte>, offset: nat, count: nat): (r: seq<byte>)
    ensures |r| <= count && (offset + |r| <= |s| || r == [])
    ensures |r| < count ==> offset + |r| >= |s|
    ensures forall i :: 0 <= i < |r| ==> r[i] == s[offset + i]
  {
    if offset >= |s| then [] else if offset + count >= |s| then s[offset..] else s[offset..offset + count]
  }

  /** Reading back what was written; a hole before it reads as zeros, and the rest is as before. */
  lemma WrittenReadsBack(s: seq<byte>, offset: nat, bytes: seq<byte>, i: nat)
    requires i < |Written(s, offset, bytes)|
    ensures Slice(Written(s, offset, bytes), offset, |bytes|) == bytes
    ensures Written(s, offset, bytes)[i] ==
      if offset <= i < offset + |bytes| then bytes[i - offset] else if i < |s| then s[i] else 0
  {
    var w := Written(s, offset, bytes);
    assert w[offset..offset + |bytes|] == bytes;
  }

  /** Shrinking and growing again reads zeros where the content was cut off. */
  lemma ShrinkThenGrow(s: seq<byte>, n: nat, m: nat, i: nat)
    requires i < m
    ensures Resized(Resized(s, n), m)[i] == if i < n && i < |s| then s[i] else 0
  {
  }

  // ------------------------------------------------------------------- the buffer

  /** new_capacity as 32-bit arithmetic makes it: twice the capacity or the size requested, in whole pages. */
  function NewCapacity(capacity: nat, requested: nat): Result<nat>
    requires capacity < SIZE_LIMIT && requested < SIZE_LIMIT
  {
    var twice := 2 * capacity % SIZE_LIMIT;
    if twice < capacity then Err(EOVERFLOW)
    else
      var most := if twice < requested then requested else twice;
      var some := if most == 0 then PAGE_SIZE else most;
      var rounded := RoundUp(some);
      if rounded == 0 then Err(EOVERFLOW) else Ok(rounded)
  }

  /** ROUND_UP to a page, wrapping */
  function RoundUp(n: nat): (r: nat)
    requires n < SIZE_LIMIT
    ensures r % PAGE_SIZE == 0 && (if n <= SIZE_LIMIT - PAGE_SIZE then n <= r < n + PAGE_SIZE else r == 0)
  {
    var up := n + PAGE_SIZE - 1;
    var r := up - up % PAGE_SIZE;
    if r >= SIZE_LIMIT then r - SIZE_LIMIT else r
  }

  /** The capacity cannot grow exactly where twice the capacity, or the rounded size, does not fit in 32 bits. */
  lemma CapacityOverflow(capacity: nat, requested: nat)
    requires capacity < SIZE_LIMIT && requested < SIZE_LIMIT
    ensures NewCapacity(capacity, requested).Err? <==>
      2 * capacity >= SIZE_LIMIT || requested > SIZE_LIMIT - PAGE_SIZE || 2 * capacity > SIZE_LIMIT - PAGE_SIZE
  {
    if 2 * capacity >= SIZE_LIMIT { assert 2 * capacity % SIZE_LIMIT == 2 * capacity - SIZE_LIMIT; }
    else { assert 2 * capacity % SIZE_LIMIT == 2 * capacity; }
  }

  /** grow_capacity's assertion: the capacity does grow, to what was requested at least. */
  lemma CapacityGrows(capacity: nat, requested: nat)
    requires capacity < SIZE_LIMIT && requested < SIZE_LIMIT && NewCapacity(capacity, requested).Ok?
    ensures var c := NewCapacity(capacity, requested).value;
      capacity < c < SIZE_LIMIT && requested <= c && c % PAGE_SIZE == 0
  {
    CapacityOverflow(capacity, requested);
    assert 2 * capacity % SIZE_LIMIT == 2 * capacity;
  }

  /** A buffer of this capacity has room for `size` bytes, or can get it. */
  predicate Holds(capacity: nat, size: nat, memory: bool)
    requires capacity < SIZE_LIMIT && size < SIZE_LIMIT
  {
    size <= capacity || (NewCapacity(capacity, size).Ok? && memory)
  }

  class Vec {
    var data: array<byte>           // its length is the capacity
    var size: nat

    /** Storage past the size is zero. */
    ghost predicate Valid()
      reads this, data
    {
      && size <= data.Length < SIZE_LIMIT
      && forall i :: size <= i < data.Length ==> data[i] == 0
    }

    ghost function Contents(): seq<byte>
      requires Valid()
      reads this, data
    {
      data[..size]
    }

    constructor ()
      ensures Valid() && fresh(data) && Contents() == []
    {
      data := new byte[0];
      size := 0;
    }

    /** vec_pread */
    method Pread(count: nat, offset: nat) returns (bytes: seq<byte>)
      requires Valid()
      ensures bytes == Slice(Contents(), offset, count)
      ensures |bytes| == if offset >= size then 0 else if count <= size - offset then count else size - offset
      ensures forall i :: 0 <= i < |bytes| ==> bytes[i] == Contents()[offset + i]
    {
      if offset >= size { return []; }
      var n := if offset + count >= size then size - offset else count;
      bytes := data[offset..offset + n];
      assert data[..size][offset..] == data[offset..size];
    }

    /** memset(data + from, 0, to - from) */
    static method Clear(a: array<byte>, from: nat, to: nat)
      requires from <= to <= a.Length
      modifies a
      ensures forall i :: 0 <= i < a.Length ==> a[i] == if from <= i < to then 0 else old(a[i])
    {
      for k := from to to
        invariant forall i :: 0 <= i < a.Length ==> a[i] == if from <= i < k then 0 else old(a[i])
      {
        a[k] := 0;
      }
    }

    /** memcpy(data + offset, bytes, |bytes|) */
    static method Copy(a: array<byte>, offset: nat, bytes: seq<byte>)
      requires offset + |bytes| <= a.Length
      modifies a
      ensures forall i :: 0 <= i < a.Length ==>
        a[i] == if offset <= i < offset + |bytes| then bytes[i - offset] else old(a[i])
    {
      for k := 0 to |bytes|
        invariant forall i :: 0 <= i < a.Length ==>
          a[i] == if offset <= i < offset + k then bytes[i - offset] else old(a[i])
      {
        a[offset + k] := bytes[k];
      }
    }

    /** grow_capacity: the buffer moves, the content stays, what is behind it is cleared. */
    method GrowCapacity(requested: nat, memory: bool) returns (r: Result<()>)
      requires Valid() && requested < SIZE_LIMIT
      modifies this`data
      ensures Valid() && Contents() == old(Contents())
      ensures r.Ok? ==>
        fresh(data) && old(data).Length < data.Length && requested <= data.Length && data.Length % PAGE_SIZE == 0
      ensures r.Err? ==>
        data == old(data) && r.error == if NewCapacity(data.Length, requested).Err? then EOVERFLOW else ENOMEM
      ensures r.Ok? <==> NewCapacity(old(data).Length, requested).Ok? && memory
    {
      var c := NewCapacity(data.Length, requested);
      if c.Err? { return Err(c.error); }
      CapacityGrows(data.Length, requested);
      if !memory { return Err(ENOMEM); }
      var fresh_ := new byte[c.value];
      Copy(fresh_, 0, data[..]);
      Clear(fresh_, size, c.value);
      data := fresh_;
      r := Ok(());
    }

    /** vec_reserve */
    method Reserve(additional: nat, memory: bool) returns (r: Result<()>)
      requires Valid() && additional < SIZE_LIMIT
      modifies this`data
      ensures Valid() && Contents() == old(Contents())
      ensures r.Ok? ==> size + additional <= data.Length && (data == old(data) || fresh(data))
      ensures r.Err? ==> data == old(data)
      ensures r.Ok? <==> size + additional < SIZE_LIMIT && Holds(old(data).Length, size + additional, memory)
    {
      var newSize := size + additional;
      if newSize >= SIZE_LIMIT {
        // the 32-bit sum wraps below the size
        return Err(EOVERFLOW);
      }
      if newSize <= data.Length { return Ok(()); }
      r := GrowCapacity(newSize, memory);
    }

    /** vec_resize */
    method Resize(newSize: nat, memory: bool) returns (r: Result<()>)
      requires Valid() && newSize < SIZE_LIMIT
      modifies this, data
      ensures Valid() && (data == old(data) || fresh(data))
      ensures Contents() == if r.Ok? then Resized(old(Contents()), newSize) else old(Contents())
      ensures r.Ok? <==> Holds(old(data.Length), newSize, memory)
    {
      if newSize == size { return Ok(()); }
      if newSize <= size {
        Clear(data, newSize, size);
      } else if newSize <= data.Length {
        Clear(data, size, newSize);
      } else {
        r := GrowCapacity(newSize, memory);
        if r.Err? { return; }
      }
      size := newSize;
      r := Ok(());
    }

    /** vec_pwrite */
    method Pwrite(bytes: seq<byte>, offset: nat, memory: bool) returns (r: Result<nat>)
      requires Valid() && offset + |bytes| < SIZE_LIMIT
      modifies this, data
      ensures Valid() && (data == old(data) || fresh(data))
      ensures r.Ok? ==> r.value == |bytes| && Contents() == Written(old(Contents()), offset, bytes)
      ensures r.Err? ==> Contents() == old(Contents())
      ensures r.Ok? <==> Holds(old(data.Length), offset + |bytes|, memory)
    {
      var end := offset + |bytes|;
      if end > data.Length {
        var rc := GrowCapacity(end, memory);
        if rc.Err? { return Err(rc.error); }
      }
      ghost var was := Contents();
      Copy(data, offset, bytes);
      if size < end { size := end; }
      assert Contents() == Written(was, offset, bytes) by {
        forall i | 0 <= i < size ensures data[i] == Written(was, offset, bytes)[i] {
          WrittenReadsBack(was, offset, bytes, i);
        }
      }
      r := Ok(|bytes|);
    }

    /** vec_append */
    method Append(bytes: seq<byte>, memory: bool) returns (r: Result<nat>)
      requires Valid() && size + |bytes| < SIZE_LIMIT
      modifies this, data
      ensures Valid() && (data == old(data) || fresh(data))
      ensures Contents() == if r.Ok? then old(Contents()) + bytes else old(Contents())
      ensures r.Ok? <==> Holds(old(data.Length), old(size) + |bytes|, memory)
    {
      r := Pwrite(bytes, size, memory);
    }
  }
}
