/**
  The physical page allocator of kernel/memory/page.c: a bitmap of free pages,
  an 8-bit saturating reference count per page and the free-memory statistic.
  A page is named by its index; addresses are page indices times PAGE_SIZE.
*/
module Frames {
  import opened Basics

  const PAGE_KIB := 4          // PAGE_SIZE / 1024
  const SATURATED := 255       // UINT8_MAX

  /** Number of pages whose count is 0. */
  ghost function NumFree(counts: seq<nat>): (n: nat) {
    if counts == [] then 0 else NumFree(counts[..|counts| - 1]) + (if counts[|counts| - 1] == 0 then 1 else 0)
  }

  lemma {:induction false} NumFreeUpdate(counts: seq<nat>, f: nat, v: nat)
    requires f < |counts|
    ensures NumFree(counts[f := v]) ==
      NumFree(counts) - (if counts[f] == 0 then 1 else 0) + (if v == 0 then 1 else 0)
  {
    var n := |counts| - 1;
    if f == n {
      assert counts[f := v][..n] == counts[..n];
    } else {
      assert counts[f := v][..n] == counts[..n][f := v];
      NumFreeUpdate(counts[..n], f, v);
    }
  }

  /** No free page, and the statistic says so; one of them is a free page. */
  lemma {:induction false} NumFreeZero(counts: seq<nat>)
    ensures NumFree(counts) == 0 <==> forall f :: 0 <= f < |counts| ==> counts[f] != 0
  {
    if counts != [] {
      var n := |counts| - 1;
      NumFreeZero(counts[..n]);
      assert forall f :: 0 <= f < n ==> counts[..n][f] == counts[f];
    }
  }

  function Increment(v: nat): nat { if v < SATURATED then v + 1 else v }

  function Decrement(v: nat): nat
    requires v != 0
  {
    if v < SATURATED then v - 1 else v
  }

  class FrameAllocator {
    const free: array<bool>        // the bitmap, one element per bit
    const refs: array<nat>         // ref_counts
    var freeKibibytes: nat         // stats.free_kibibytes

    ghost predicate Valid()
      reads this, free, refs
    {
      && free.Length == refs.Length
      && (forall f :: 0 <= f < refs.Length ==> refs[f] <= SATURATED && (free[f] <==> refs[f] == 0))
      && freeKibibytes == PAGE_KIB * NumFree(refs[..])
    }

    /**
      bitmap_init, its last loop: the bitmap as set up from the memory map;
      a page that is not available gets a count that never reaches zero.
    */
    constructor (available: seq<bool>)
      ensures Valid() && fresh(free) && fresh(refs)
      ensures |refs[..]| == |available|
      ensures forall f :: 0 <= f < |available| ==> refs[f] == if available[f] then 0 else SATURATED
    {
      var n := |available|;
      var bits := new bool[n](i requires 0 <= i < n => available[i]);
      var counts := new nat[n](_ => 0);
      var pages := 0;
      var i := 0;
      while i < n
        invariant 0 <= i <= n
        invariant forall f :: 0 <= f < n ==> bits[f] == available[f]
        invariant forall f :: 0 <= f < i ==> counts[f] == if available[f] then 0 else SATURATED
        invariant forall f :: i <= f < n ==> counts[f] == 0
        invariant pages == NumFree(counts[..i])
      {
        if bits[i] { pages := pages + 1; } else { counts[i] := SATURATED; }
        i := i + 1;
        assert counts[..i][..i - 1] == counts[..i - 1];
      }
      assert counts[..n] == counts[..];
      free := bits;
      refs := counts;
      freeKibibytes := PAGE_KIB * pages;
    }

    /** bitmap_find_first_set: the lowest free page. */
    method FindFirstSet() returns (r: Option<nat>)
      ensures r.Some? ==> r.value < free.Length && free[r.value]
                          && forall f :: 0 <= f < r.value ==> !free[f]
      ensures r.None? ==> forall f :: 0 <= f < free.Length ==> !free[f]
    {
      var i := 0;
      while i < free.Length
        invariant 0 <= i <= free.Length
        invariant forall f :: 0 <= f < i ==> !free[f]
      {
        if free[i] { return Some(i); }
        i := i + 1;
      }
      return None;
    }

    /** page_alloc: the lowest page with count 0 gets count 1; fails exactly when there is none. */
    method Alloc() returns (r: Option<nat>)
      requires Valid()
      modifies this, free, refs
      ensures Valid()
      ensures r.None? ==> refs[..] == old(refs[..]) && forall f :: 0 <= f < refs.Length ==> refs[f] != 0
      ensures r.Some? ==> r.value < refs.Length && old(refs[..])[r.value] == 0
                          && (forall f :: 0 <= f < r.value ==> old(refs[..])[f] != 0)
                          && refs[..] == old(refs[..])[r.value := 1]
      ensures r.None? <==> NumFree(old(refs[..])) == 0
      ensures r.Some? ==> NumFree(refs[..]) + 1 == NumFree(old(refs[..]))
    {
      r := FindFirstSet();
      NumFreeZero(refs[..]);
      if r.None? { return; }
      var f := r.value;
      NumFreeUpdate(refs[..], f, 1);
      refs[f] := 1;
      free[f] := false;
      freeKibibytes := freeKibibytes - PAGE_KIB;
    }

    /** page_ref: pages beyond the bitmap are ignored. */
    method Ref(f: nat)
      requires Valid() && (f < refs.Length ==> refs[f] != 0)
      modifies this, free, refs
      ensures Valid()
      ensures refs[..] == if f < refs.Length then old(refs[..])[f := Increment(old(refs[..])[f])] else old(refs[..])
      ensures NumFree(refs[..]) == NumFree(old(refs[..]))
    {
      if f >= refs.Length { return; }
      if refs[f] < SATURATED {
        NumFreeUpdate(refs[..], f, refs[f] + 1);
        refs[f] := refs[f] + 1;
      }
    }

    /** page_unref: the page becomes free when its count reaches 0; a saturated count stays. */
    method Unref(f: nat)
      requires Valid() && (f < refs.Length ==> refs[f] != 0)
      modifies this, free, refs
      ensures Valid()
      ensures refs[..] == if f < refs.Length then old(refs[..])[f := Decrement(old(refs[..])[f])] else old(refs[..])
    {
      if f >= refs.Length { return; }
      if refs[f] < SATURATED {
        NumFreeUpdate(refs[..], f, refs[f] - 1);
        refs[f] := refs[f] - 1;
        if refs[f] == 0 {
          free[f] := true;
          freeKibibytes := freeKibibytes + PAGE_KIB;
        }
      }
    }
  }
}
