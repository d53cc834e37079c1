/**
  Address-space operations of kernel/memory/vm.c with the object cache of
  kernel/memory/slab.c: the list of regions, the page table and the frame
  allocator change together and keep agreeing.
*/
module Vm {
  import opened Basics
  import opened Frames
  import opened PageTable
  import opened Regions

  datatype Errno = ENOMEM | EEXIST | ENOENT | EINVAL

  datatype Result<T> = Ok(value: T) | Err(error: Errno)

  /** Objects of a slab page: PAGE_SIZE / sizeof(struct vm_region) - 1. */
  const SLAB_OBJECTS := 203

  /** VM_RW, the flags of a slab page's region. */
  const SLAB_FLAGS := Flags(true, true, false, false, false)

  /** validate_vm_flags */
  predicate ValidFlags(f: Flags, kernel: bool) {
    (f.user ==> !kernel) && (f.write ==> f.read) && (f.shared ==> f.RW())
  }

  /** to_pte_flags */
  function ToPte(f: Flags): PteFlags {
    PteFlags(f.write, f.user, f.wc, !f.user, f.shared)
  }

  // ------------------------------------------------------------------ addresses

  const PAGE_SIZE := 4096
  const ADDRESSES := 0x1_0000_0000
  const PAGES := 0x10_0000     // ADDRESSES / PAGE_SIZE

  /** A value in [-ADDRESSES, 2 * ADDRESSES) as a 32-bit address. */
  function Wrap(x: int): int {
    if x < 0 then x + ADDRESSES else if x >= ADDRESSES then x - ADDRESSES else x
  }

  /** page_align_range on 32-bit addresses: the aligned start and the aligned size. */
  function PageAlignRange(start: nat, size: nat): (int, int)
    requires start + size < ADDRESSES
  {
    var alignedStart := start - start % PAGE_SIZE;
    var end := start + size + PAGE_SIZE - 1;
    var alignedEnd := Wrap(end - end % PAGE_SIZE);
    (alignedStart, Wrap(alignedEnd - alignedStart))
  }

  /**
    The aligned range is the smallest one of whole pages around a non-empty
    range, exactly if the range does not reach from the first page of the
    address space into the last one (the aligned size then wraps to 0).
  */
  lemma PageAlignRangeEncloses(start: nat, size: nat)
    requires 0 < size && start + size < ADDRESSES
    ensures var (a, n) := PageAlignRange(start, size);
      && a % PAGE_SIZE == 0 && n % PAGE_SIZE == 0 && a <= start < a + PAGE_SIZE
      && (a + n - PAGE_SIZE < start + size <= a + n <==> !(start < PAGE_SIZE && start + size > ADDRESSES - PAGE_SIZE))
    ensures start < PAGE_SIZE && start + size > ADDRESSES - PAGE_SIZE ==> PageAlignRange(start, size) == (0, 0)
  {
    var end := start + size + PAGE_SIZE - 1;
    var k, m := start / PAGE_SIZE, end / PAGE_SIZE;
    assert start == PAGE_SIZE * k + start % PAGE_SIZE && end == PAGE_SIZE * m + end % PAGE_SIZE;
    TimesPage(k);
    TimesPage(m - k);
    TimesPage(PAGES - k);
  }

  lemma TimesPage(q: int)
    ensures (PAGE_SIZE * q) % PAGE_SIZE == 0
  {
  }

  // ------------------------------------------------------------------ agreement

  /** Page p lies in a region that has a mapping. */
  ghost predicate Mapped(v: seq<Span>, p: nat) {
    FlagsAt(v, p).Some? && FlagsAt(v, p).value.RW()
  }

  /** A page is present exactly when it lies in a region with VM_RW, with that region's flags translated. */
  ghost predicate Agree(v: seq<Span>, pte: map<nat, Pte>) {
    && (forall p: nat :: p in pte <==> Mapped(v, p))
    && (forall p: nat :: p in pte ==> pte[p].flags == ToPte(FlagsAt(v, p).value))
  }

  ghost predicate Sane(v: seq<Span>, kernel: bool) {
    forall i :: 0 <= i < |v| ==> ValidFlags(v[i].flags, kernel)
  }

  /**
    What the hardware may do with page p, from the flags of its region: nothing
    unless it may be read or written; write only if the region may be written;
    in user mode only if it is the user's, and then the entry is not global.
  */
  ghost predicate Permits(pte: map<nat, Pte>, p: nat, f: Flags) {
    && (p in pte <==> f.read || f.write)
    && (p in pte ==>
          var e := pte[p].flags;
          && (e.write <==> f.write) && (e.user <==> f.user) && (e.global <==> !f.user)
          && (e.shared <==> f.shared) && (e.pat <==> f.wc))
  }

  ghost predicate Protected(pte: map<nat, Pte>, lo: nat, hi: nat, f: Flags) {
    forall p :: lo <= p < hi ==> Permits(pte, p, f)
  }

  /** Each page of a region is protected as the region's flags say; a page in no region has no entry. */
  lemma RegionsProtect(v: seq<Span>, pte: map<nat, Pte>, kernel: bool, p: nat)
    requires Ordered(v) && Agree(v, pte) && Sane(v, kernel)
    ensures forall i :: 0 <= i < |v| && v[i].start <= p < v[i].end ==> Permits(pte, p, v[i].flags)
    ensures (forall i :: 0 <= i < |v| ==> !(v[i].start <= p < v[i].end)) ==> p !in pte
    ensures kernel && p in pte ==> !pte[p].flags.user && pte[p].flags.global
    ensures forall i :: 0 <= i < |v| && v[i].start <= p < v[i].end ==>
      (v[i].flags.write ==> v[i].flags.read) && (v[i].flags.shared ==> p in pte)
    ensures p in pte && pte[p].flags.write ==> exists i ::
      0 <= i < |v| && v[i].start <= p < v[i].end && v[i].flags.write
  {
    FlagsAtMeaning(v, p);
  }

  ghost predicate RemappedAt(v0: seq<Span>, v: seq<Span>, lo: nat, hi: nat, f: Option<Flags>, slab: set<nat>, p: nat) {
    && FlagsAt(v, p) == (if p in slab then Some(SLAB_FLAGS) else if lo <= p < hi then f else FlagsAt(v0, p))
    && (p in slab ==> FlagsAt(v0, p).None? && !(lo <= p < hi))
  }

  /**
    The page map changed on [lo, hi) to f and nowhere else, but for the slab
    pages the operation added to the kernel's own address space.
  */
  ghost predicate Remapped(v0: seq<Span>, v: seq<Span>, lo: nat, hi: nat, f: Option<Flags>, slab: set<nat>) {
    forall p: nat :: RemappedAt(v0, v, lo, hi, f, slab, p)
  }

  /** Entries outside [lo, hi) and the slab pages are as before, frame and flags. */
  ghost predicate EntriesKept(pte0: map<nat, Pte>, pte: map<nat, Pte>, lo: nat, hi: nat, slab: set<nat>) {
    forall p: nat :: !(lo <= p < hi) && p !in slab ==>
      (p in pte <==> p in pte0) && (p in pte ==> pte[p] == pte0[p])
  }

  // ------------------------------------------------------ cutting a hole in a region

  /** Region s with [lo, hi) given to `mid` instead. */
  ghost function Cut(s: Span, lo: nat, hi: nat, mid: seq<Span>): seq<Span> {
    (if s.start < lo then [Span(s.start, lo, s.flags)] else [])
    + mid
    + (if hi < s.end then [Span(hi, s.end, s.flags)] else [])
  }

  ghost predicate Within(m: seq<Span>, lo: nat, hi: nat) {
    forall k :: 0 <= k < |m| ==> lo <= m[k].start && m[k].end <= hi
  }

  lemma CutFlags(s: Span, lo: nat, hi: nat, mid: seq<Span>, p: nat)
    requires s.start <= lo < hi <= s.end && Ordered(mid) && Within(mid, lo, hi)
    ensures FlagsAt(Cut(s, lo, hi, mid), p) ==
      if lo <= p < hi then FlagsAt(mid, p) else if s.start <= p < s.end then Some(s.flags) else None
  {
    var a := if s.start < lo then [Span(s.start, lo, s.flags)] else [];
    var c := if hi < s.end then [Span(hi, s.end, s.flags)] else [];
    FlagsAtThree(a, mid, c, p);
    OutsideAll(mid, p, lo, hi);
    hide Ordered;
  }

  lemma CutOrdered(s: Span, lo: nat, hi: nat, mid: seq<Span>)
    requires s.start <= lo < hi <= s.end && Ordered(mid) && Within(mid, lo, hi)
    ensures Ordered(Cut(s, lo, hi, mid)) && Within(Cut(s, lo, hi, mid), s.start, s.end)
  {
  }

  /** The regions with [lo, hi) of region i given to `mid`. */
  ghost function WithCut(v: seq<Span>, i: nat, lo: nat, hi: nat, mid: seq<Span>): seq<Span>
    requires i < |v|
  {
    v[..i] + Cut(v[i], lo, hi, mid) + v[i + 1..]
  }

  lemma WholeCut(v: seq<Span>, i: nat, f: Flags)
    requires i < |v|
    ensures WithCut(v, i, v[i].start, v[i].end, [Span(v[i].start, v[i].end, f)])
      == v[i := Span(v[i].start, v[i].end, f)]
  {
  }

  lemma FrontCut(v: seq<Span>, i: nat, hi: nat, f: Flags)
    requires i < |v| && v[i].start < hi < v[i].end
    ensures WithCut(v, i, v[i].start, hi, [Span(v[i].start, hi, f)])
         == v[..i] + [Span(v[i].start, hi, f), Span(hi, v[i].end, v[i].flags)] + v[i + 1..]
  {
  }

  lemma BackCut(v: seq<Span>, i: nat, lo: nat, f: Flags)
    requires i < |v| && v[i].start < lo < v[i].end
    ensures WithCut(v, i, lo, v[i].end, [Span(lo, v[i].end, f)])
         == v[..i] + [Span(v[i].start, lo, v[i].flags), Span(lo, v[i].end, f)] + v[i + 1..]
  {
  }

  /** The four ways a hole can lie in region i. */
  lemma HoleCut(v: seq<Span>, i: nat, lo: nat, hi: nat)
    requires i < |v| && v[i].start <= lo < hi <= v[i].end
    ensures WithCut(v, i, lo, hi, []) ==
      if v[i].start == lo && v[i].end == hi then v[..i] + v[i + 1..]
      else if v[i].start == lo then v[i := Span(hi, v[i].end, v[i].flags)]
      else if v[i].end == hi then v[i := Span(v[i].start, lo, v[i].flags)]
      else v[..i] + [Span(v[i].start, lo, v[i].flags), Span(hi, v[i].end, v[i].flags)] + v[i + 1..]
  {
  }

  lemma MiddleCut(v: seq<Span>, i: nat, lo: nat, hi: nat, f: Flags)
    requires i < |v| && v[i].start < lo < hi < v[i].end
    ensures WithCut(v, i, lo, hi, [Span(lo, hi, f)])
         == v[..i] + [Span(v[i].start, lo, v[i].flags), Span(lo, hi, f), Span(hi, v[i].end, v[i].flags)] + v[i + 1..]
  {
  }

  /** The region that takes the place of [lo, hi), if any. */
  ghost function Piece(lo: nat, hi: nat, f: Option<Flags>): seq<Span> {
    if f.None? then [] else [Span(lo, hi, f.value)]
  }

  lemma CutSane(v: seq<Span>, i: nat, lo: nat, hi: nat, f: Option<Flags>, kernel: bool)
    requires i < |v| && Sane(v, kernel) && (f.Some? ==> ValidFlags(f.value, kernel))
    ensures Sane(WithCut(v, i, lo, hi, Piece(lo, hi, f)), kernel)
  {
    ReplaceSane(v, i, Cut(v[i], lo, hi, Piece(lo, hi, f)), kernel);
  }

  lemma ReplaceOrdered(v: seq<Span>, i: nat, mid: seq<Span>)
    requires i < |v| && Ordered(v) && Ordered(mid) && Within(mid, v[i].start, v[i].end)
    ensures Ordered(v[..i] + mid + v[i + 1..])
  {
  }

  lemma ReplaceSane(v: seq<Span>, i: nat, mid: seq<Span>, kernel: bool)
    requires i < |v| && Sane(v, kernel) && Sane(mid, kernel)
    ensures Sane(v[..i] + mid + v[i + 1..], kernel)
  {
  }

  /** Cutting [lo, hi) out of region i, or recolouring it, changes exactly those pages. */
  lemma CutRemaps(v: seq<Span>, i: nat, lo: nat, hi: nat, mid: seq<Span>, f: Option<Flags>)
    requires i < |v| && Ordered(v) && v[i].start <= lo < hi <= v[i].end
    requires if f.None? then mid == [] else mid == [Span(lo, hi, f.value)]
    ensures Ordered(WithCut(v, i, lo, hi, mid))
    ensures Remapped(v, WithCut(v, i, lo, hi, mid), lo, hi, f, {})
  {
    var cut := Cut(v[i], lo, hi, mid);
    CutOrdered(v[i], lo, hi, mid);
    ReplaceOrdered(v, i, cut);
    var w, none := v[..i] + cut + v[i + 1..], {};
    forall p: nat ensures RemappedAt(v, w, lo, hi, f, none, p) {
      CutFlags(v[i], lo, hi, mid, p);
      FlagsAtReplace(v, i, cut, p);
      FlagsAtMeaning(v, p);
    }
  }

  /** A new region is added to the page map. */
  lemma InsertRemaps(v: seq<Span>, i: nat, s: Span)
    requires i <= |v| && Ordered(v[..i] + [s] + v[i..])
    ensures Remapped(v, v[..i] + [s] + v[i..], s.start, s.end, Some(s.flags), {})
    ensures Uncovered(v, s.start, s.end)
  {
    var w, none := v[..i] + [s] + v[i..], {};
    forall p: nat ensures RemappedAt(v, w, s.start, s.end, Some(s.flags), none, p) { FlagsAtInsert(v, i, s, p); }
    forall p: nat | s.start <= p < s.end ensures FlagsAt(v, p).None? { FlagsAtInsert(v, i, s, p); }
  }

  /** [start, end) lies between the regions before place i and those from it on. */
  ghost predicate Fits(v: seq<Span>, i: nat, start: nat, end: nat) {
    && i <= |v| && start < end
    && (0 < i ==> v[i - 1].end <= start)
    && (i < |v| ==> end <= v[i].start)
  }

  lemma FitsOrdered(v: seq<Span>, i: nat, s: Span)
    requires Ordered(v) && Fits(v, i, s.start, s.end)
    ensures Ordered(v[..i] + [s] + v[i..])
  {
    var w := v[..i] + [s] + v[i..];
    forall k | 0 <= k < i ensures v[k].end <= s.start {
      if k < i - 1 { assert v[k].end <= v[i - 1].start < v[i - 1].end; }
    }
    forall k | i <= k < |v| ensures s.end <= v[k].start {
      if i < k { assert v[i].start < v[i].end <= v[k].start; }
    }
    forall j, k | 0 <= j < k < |w| ensures w[j].end <= w[k].start {
      assert w[j] == (if j < i then v[j] else if j == i then s else v[j - 1]);
      assert w[k] == (if k < i then v[k] else if k == i then s else v[k - 1]);
    }
  }

  /** Page p has an entry exactly if f gives it a mapping, with the flags translated. */
  ghost predicate EntryFor(pte: map<nat, Pte>, p: nat, f: Option<Flags>) {
    && (p in pte <==> f.Some? && f.value.RW())
    && (p in pte ==> pte[p].flags == ToPte(f.value))
  }

  ghost predicate EntriesFor(pte: map<nat, Pte>, lo: nat, hi: nat, f: Option<Flags>) {
    forall p: nat :: lo <= p < hi ==> EntryFor(pte, p, f)
  }

  /** Page map and page table change together on [lo, hi): they go on agreeing. */
  lemma AgreeRemapped(v: seq<Span>, w: seq<Span>, pte0: map<nat, Pte>, pte: map<nat, Pte>, lo: nat, hi: nat,
                      f: Option<Flags>)
    requires Agree(v, pte0) && Remapped(v, w, lo, hi, f, {})
    requires EntriesKept(pte0, pte, lo, hi, {}) && EntriesFor(pte, lo, hi, f)
    ensures Agree(w, pte)
  {
    var none := {};
    hide FlagsAt;
    forall p: nat
      ensures p in pte <==> Mapped(w, p)
      ensures p in pte ==> pte[p].flags == ToPte(FlagsAt(w, p).value)
    {
      assert RemappedAt(v, w, lo, hi, f, none, p);
      if lo <= p < hi { assert EntryFor(pte, p, f); }
    }
  }

  lemma KeptWithout(pte0: map<nat, Pte>, pte: map<nat, Pte>, lo: nat, hi: nat)
    requires Without(pte, lo, hi) == pte0 || Without(pte, lo, hi) == Without(pte0, lo, hi)
    ensures EntriesKept(pte0, pte, lo, hi, {})
  {
    forall p: nat | !(lo <= p < hi)
      ensures (p in pte <==> p in pte0) && (p in pte ==> pte[p] == pte0[p])
    {
      assert p in Without(pte, lo, hi) <==> p in pte;
      assert p in Without(pte0, lo, hi) <==> p in pte0;
    }
  }

  ghost predicate Uncovered(v: seq<Span>, lo: nat, hi: nat) {
    forall p: nat :: lo <= p < hi ==> FlagsAt(v, p).None?
  }

  /** Pages no region covers have no entry. */
  lemma UncoveredAbsent(v: seq<Span>, pte: map<nat, Pte>, lo: nat, hi: nat)
    requires Agree(v, pte) && Uncovered(v, lo, hi)
    ensures Absent(pte, lo, hi)
  {
  }

  lemma InsertSane(v: seq<Span>, i: nat, s: Span, kernel: bool)
    requires i <= |v| && Sane(v, kernel) && ValidFlags(s.flags, kernel)
    ensures Sane(v[..i] + [s] + v[i..], kernel)
  {
  }

  /** Pages of a place where a region fits are covered by none. */
  lemma FitsUncovered(v: seq<Span>, i: nat, start: nat, end: nat)
    requires Ordered(v) && Fits(v, i, start, end)
    ensures Uncovered(v, start, end)
  {
    FitsOrdered(v, i, Span(start, end, SLAB_FLAGS));
    InsertRemaps(v, i, Span(start, end, SLAB_FLAGS));
  }

  // ------------------------------------------------------- one change after another

  /** Slab pages were added, then [lo, hi) changed. */
  lemma ThenRemaps(v0: seq<Span>, v1: seq<Span>, v2: seq<Span>, lo: nat, hi: nat, f: Option<Flags>, slab: set<nat>)
    requires Remapped(v0, v1, 0, 0, None, slab) && Remapped(v1, v2, lo, hi, f, {})
    requires forall p :: p in slab ==> !(lo <= p < hi)
    ensures Remapped(v0, v2, lo, hi, f, slab)
  {
    hide FlagsAt;
    var none := {};
    forall p: nat ensures RemappedAt(v0, v2, lo, hi, f, slab, p) {
      assert RemappedAt(v0, v1, 0, 0, None, slab, p) && RemappedAt(v1, v2, lo, hi, f, none, p);
    }
  }

  lemma ThenKept(pte0: map<nat, Pte>, pte1: map<nat, Pte>, pte2: map<nat, Pte>, lo: nat, hi: nat, slab: set<nat>)
    requires EntriesKept(pte0, pte1, 0, 0, slab) && EntriesKept(pte1, pte2, lo, hi, {})
    ensures EntriesKept(pte0, pte2, lo, hi, slab)
  {
  }

  /** Pages free after the slab pages were added were free before, and are no slab pages. */
  lemma FreeBefore(v0: seq<Span>, v1: seq<Span>, lo: nat, hi: nat, slab: set<nat>)
    requires Remapped(v0, v1, 0, 0, None, slab) && Uncovered(v1, lo, hi)
    ensures Uncovered(v0, lo, hi) && forall p :: p in slab ==> !(lo <= p < hi)
  {
    hide FlagsAt;
    forall p: nat | lo <= p < hi ensures FlagsAt(v0, p).None? && p !in slab {
      assert RemappedAt(v0, v1, 0, 0, None, slab, p);
    }
  }

  /** Every region lies in the address space's range. */
  ghost predicate Confined(v: seq<Span>, lo: nat, hi: nat) {
    forall p: nat :: FlagsAt(v, p).Some? ==> lo <= p < hi
  }

  lemma ConfinedRemapped(v: seq<Span>, w: seq<Span>, a: nat, b: nat, f: Option<Flags>, slab: set<nat>, lo: nat, hi: nat)
    requires Remapped(v, w, a, b, f, slab)
    ensures Confined(v, lo, hi) && (forall p :: p in slab ==> lo <= p < hi) && (f.None? || (lo <= a && b <= hi)) ==>
      Confined(w, lo, hi)
  {
    hide FlagsAt;
    if Confined(v, lo, hi) && (forall p :: p in slab ==> lo <= p < hi) && (f.None? || (lo <= a && b <= hi)) {
      forall p: nat | FlagsAt(w, p).Some? ensures lo <= p < hi { assert RemappedAt(v, w, a, b, f, slab, p); }
    }
  }

  /** Changing part of a region stays in range. */
  lemma CutConfined(v: seq<Span>, w: seq<Span>, a: nat, b: nat, f: Option<Flags>, lo: nat, hi: nat, i: nat)
    requires Remapped(v, w, a, b, f, {}) && i < |v| && Ordered(v) && v[i].start <= a < b <= v[i].end
    ensures Confined(v, lo, hi) ==> Confined(w, lo, hi)
  {
    if Confined(v, lo, hi) {
      var none := {};
      forall p: nat | FlagsAt(w, p).Some? ensures lo <= p < hi {
        assert RemappedAt(v, w, a, b, f, none, p);
        FlagsAtMeaning(v, p);
      }
    }
  }

  /** The free pages [lo, hi) of pte0 are mapped with the flags, if these call for it; nothing else changed. */
  ghost predicate ReadyFor(pte0: map<nat, Pte>, pte: map<nat, Pte>, lo: nat, hi: nat, f: Flags) {
    && Absent(pte0, lo, hi) && Without(pte, lo, hi) == pte0
    && if f.RW() then forall p :: lo <= p < hi ==> p in pte && pte[p].flags == ToPte(f) else pte == pte0
  }

  /** A new region's pages have the entries its flags call for. */
  lemma MappedFor(pte0: map<nat, Pte>, pte: map<nat, Pte>, lo: nat, hi: nat, f: Flags)
    requires ReadyFor(pte0, pte, lo, hi, f)
    ensures EntriesKept(pte0, pte, lo, hi, {}) && EntriesFor(pte, lo, hi, Some(f))
  {
    KeptWithout(pte0, pte, lo, hi);
  }

  lemma NothingReady(pte: map<nat, Pte>, lo: nat, hi: nat, f: Flags)
    requires Absent(pte, lo, hi) && !f.RW()
    ensures ReadyFor(pte, pte, lo, hi, f)
  {
    NoneWithout(pte, lo, hi);
  }

  lemma PhysReady(pte0: map<nat, Pte>, pte: map<nat, Pte>, lo: nat, n: nat, frame: nat, f: Flags)
    requires Absent(pte0, lo, lo + n) && Without(pte, lo, lo + n) == pte0 && f.RW()
    requires InOrder(pte, lo, lo + n, frame, ToPte(f))
    ensures ReadyFor(pte0, pte, lo, lo + n, f) && Contiguous(pte, lo, n, frame)
  {
    forall p | lo <= p < lo + n ensures p in pte && pte[p] == Pte(frame + (p - lo), ToPte(f)) {}
  }

  lemma CopyReady(pte0: map<nat, Pte>, pte: map<nat, Pte>, from: nat, lo: nat, n: nat, f: Flags)
    requires Absent(pte0, lo, lo + n) && Without(pte, lo, lo + n) == pte0 && f.RW()
    requires Copied(pte0, from, pte, lo, lo + n, ToPte(f))
    ensures ReadyFor(pte0, pte, lo, lo + n, f) && SameFrames(pte0, from, pte, lo, n)
  {
    hide Without, Absent, Copied;
    CopyFrames(pte0, pte, from, lo, n, ToPte(f));
    CopyFlags(pte0, pte, from, lo, n, ToPte(f));
    hide SameFrames;
  }

  lemma CopyFrames(pte0: map<nat, Pte>, pte: map<nat, Pte>, from: nat, lo: nat, n: nat, flags: PteFlags)
    requires Copied(pte0, from, pte, lo, lo + n, flags)
    ensures SameFrames(pte0, from, pte, lo, n)
  {
    forall q | lo <= q < lo + n ensures SameFrameAt(pte0, from, pte, lo, q) {
      assert CopiedAt(pte0, from, pte, lo, q, flags);
    }
  }

  lemma CopyFlags(pte0: map<nat, Pte>, pte: map<nat, Pte>, from: nat, lo: nat, n: nat, flags: PteFlags)
    requires Copied(pte0, from, pte, lo, lo + n, flags)
    ensures forall q :: lo <= q < lo + n ==> q in pte && pte[q].flags == flags
  {
    forall q | lo <= q < lo + n ensures q in pte && pte[q].flags == flags {
      assert CopiedAt(pte0, from, pte, lo, q, flags);
    }
  }

  /** What an operation sees of an address space: its regions and its page table. */
  datatype View = View(spans: seq<Span>, pte: map<nat, Pte>)

  /** An address space on the way: its view, the counts of the physical pages and the page tables. */
  datatype Stage = Stage(view: View, counts: seq<nat>, pde: map<nat, nat>)

  /** The free pages [a, b) got flags f; nothing else changed, but for the pages of the object cache. */
  ghost predicate Added(x: View, y: View, a: nat, b: nat, f: Flags, slab: set<nat>) {
    && Uncovered(x.spans, a, b)
    && Remapped(x.spans, y.spans, a, b, Some(f), slab)
    && EntriesKept(x.pte, y.pte, a, b, slab)
  }

  /** Nothing changed but for the pages of the object cache. */
  ghost predicate OnlySlab(x: View, y: View, slab: set<nat>) {
    Remapped(x.spans, y.spans, 0, 0, None, slab) && EntriesKept(x.pte, y.pte, 0, 0, slab)
  }

  /** Slab pages were added, then a region. */
  lemma AddedAfter(x: View, y: View, z: View, a: nat, b: nat, f: Flags, slab: set<nat>, lo: nat, hi: nat)
    requires OnlySlab(x, y, slab) && Added(y, z, a, b, f, {})
    ensures Added(x, z, a, b, f, slab)
    ensures Confined(y.spans, lo, hi) && lo <= a && b <= hi ==> Confined(z.spans, lo, hi)
  {
    hide FlagsAt, Remapped, Uncovered, EntriesKept, Confined;
    FreeBefore(x.spans, y.spans, a, b, slab);
    ThenRemaps(x.spans, y.spans, z.spans, a, b, Some(f), slab);
    ThenKept(x.pte, y.pte, z.pte, a, b, slab);
    ConfinedRemapped(y.spans, z.spans, a, b, Some(f), {}, lo, hi);
  }

  /** One page added by the object cache, seen as a slab page. */
  lemma AddedAsSlab(x: View, y: View, s: nat, slab: set<nat>)
    requires Added(x, y, s, s + 1, SLAB_FLAGS, {}) && slab == {s}
    ensures OnlySlab(x, y, slab)
  {
    var none := {};
    hide FlagsAt;
    forall p: nat ensures RemappedAt(x.spans, y.spans, 0, 0, None, slab, p) {
      assert RemappedAt(x.spans, y.spans, s, s + 1, Some(SLAB_FLAGS), none, p);
    }
  }

  lemma SlabInRange(x: View, y: View, slab: set<nat>, lo: nat, hi: nat)
    requires OnlySlab(x, y, slab) && Confined(x.spans, lo, hi) ==> forall p :: p in slab ==> lo <= p < hi
    ensures OnlySlab(x, y, slab) && Confined(x.spans, lo, hi) ==> Confined(y.spans, lo, hi)
  {
    hide Confined, Remapped, EntriesKept;
    if OnlySlab(x, y, slab) { ConfinedRemapped(x.spans, y.spans, 0, 0, None, slab, lo, hi); }
  }

  lemma NothingChanged(x: View)
    ensures OnlySlab(x, x, {})
  {
    hide FlagsAt;
  }

  /** Where vm_find_gap puts `size` pages: behind the first region with room, or at lo in an empty list. */
  ghost predicate FirstFit(v: seq<Span>, a: nat, size: nat, lo: nat, hi: nat) {
    if v == [] then a == lo else exists i: nat :: IsGap(v, i, size, hi) && a == v[i].end
  }

  /**
    `size` pages can be had: there is room, and where they are mapped (`rw`) the
    free physical pages suffice for the missing page tables and, if the pages
    are to be their `own`, for the pages.
  */
  ghost predicate Affordable(v: seq<Span>, counts: seq<nat>, pde: map<nat, nat>, size: nat, lo: nat, hi: nat,
                             rw: bool, own: bool)
  {
    && lo + size <= hi
    && exists a: nat :: FirstFit(v, a, size, lo, hi) && (rw ==> Cost(pde, a, a + size, own) <= NumFree(counts))
  }

  lemma FirstFitUnique(v: seq<Span>, a: nat, b: nat, size: nat, lo: nat, hi: nat)
    requires FirstFit(v, a, size, lo, hi) && FirstFit(v, b, size, lo, hi)
    ensures a == b
  {
    if v != [] {
      var i: nat :| IsGap(v, i, size, hi) && a == v[i].end;
      var j: nat :| IsGap(v, j, size, hi) && b == v[j].end;
      assert i == j;
    }
  }

  lemma AffordableAt(v: seq<Span>, counts: seq<nat>, pde: map<nat, nat>, size: nat, lo: nat, hi: nat,
                     rw: bool, own: bool, a: nat)
    requires lo + size <= hi && FirstFit(v, a, size, lo, hi)
    ensures Affordable(v, counts, pde, size, lo, hi, rw, own) <==>
      (rw ==> Cost(pde, a, a + size, own) <= NumFree(counts))
  {
    hide FirstFit, Cost;
    if Affordable(v, counts, pde, size, lo, hi, rw, own) {
      var b: nat :| FirstFit(v, b, size, lo, hi) && (rw ==> Cost(pde, b, b + size, own) <= NumFree(counts));
      FirstFitUnique(v, a, b, size, lo, hi);
    }
  }

  lemma NoRoomNoFit(v: seq<Span>, size: nat, lo: nat, hi: nat, a: nat)
    requires v != [] && forall k :: 0 <= k < |v| ==> !RoomBehind(v, k, size, hi)
    ensures !FirstFit(v, a, size, lo, hi)
  {
  }

  lemma SameFramesStay(pte0: map<nat, Pte>, pte1: map<nat, Pte>, a: nat, pte: map<nat, Pte>, b: nat, n: nat)
    requires forall p :: p in pte0 ==> p in pte1 && pte1[p] == pte0[p]
    requires Present(pte0, a, a + n) && SameFrames(pte1, a, pte, b, n)
    ensures SameFrames(pte0, a, pte, b, n)
  {
    forall q | b <= q < b + n ensures SameFrameAt(pte0, a, pte, b, q) {
      assert SameFrameAt(pte1, a, pte, b, q);
      assert a + (q - b) in pte0;
    }
  }

  /** Entries present before the slab pages were added are the same after. */
  lemma EntriesStay(x: View, y: View, slab: set<nat>)
    requires Agree(x.spans, x.pte) && OnlySlab(x, y, slab)
    ensures forall p :: p in x.pte ==> p in y.pte && y.pte[p] == x.pte[p]
  {
    hide FlagsAt;
    forall p | p in x.pte ensures p in y.pte && y.pte[p] == x.pte[p] {
      assert RemappedAt(x.spans, y.spans, 0, 0, None, slab, p);
      assert Mapped(x.spans, p);
    }
  }

  /** Free pages the object cache did not take are still free. */
  lemma StillUncovered(x: View, y: View, slab: set<nat>, a: nat, b: nat)
    requires OnlySlab(x, y, slab) && Uncovered(x.spans, a, b) && forall p :: p in slab ==> !(a <= p < b)
    ensures Uncovered(y.spans, a, b)
  {
    hide FlagsAt;
    forall p: nat | a <= p < b ensures FlagsAt(y.spans, p).None? {
      assert RemappedAt(x.spans, y.spans, 0, 0, None, slab, p);
    }
  }

  /** A range no region covers fits between the regions that end before it and those that start behind it. */
  lemma UncoveredFits(v: seq<Span>, i: nat, a: nat, b: nat)
    requires Ordered(v) && a < b && Uncovered(v, a, b) && Divided(v, i, a)
    ensures Fits(v, i, a, b)
  {
    if i < |v| { FlagsAtMeaning(v, v[i].start); }
  }

  /** vm_insert_region_after's assertions hold of a range behind its cursor exactly if no region starts in the range. */
  lemma FitsExactly(v: seq<Span>, i: nat, a: nat, b: nat)
    requires Ordered(v) && a < b && Divided(v, i, a)
    ensures Fits(v, i, a, b) <==> forall k :: 0 <= k < |v| ==> !(a <= v[k].start < b)
  {
    if Fits(v, i, a, b) {
      forall k | 0 <= k < |v| ensures !(a <= v[k].start < b) {
        if k < i { assert v[k].start < v[k].end <= a; }
        else if i < k { assert v[i].end <= v[k].start; }
      }
    }
  }

  /** alloc_at finds no clash with a region that starts in the range, and the insertion's assertion fails. */
  lemma StartInRangeFails(f: Flags)
    ensures var v := [Span(4, 6, f)]; Ordered(v) && !Straddled(v, 3) && Divided(v, 0, 3) && !Fits(v, 0, 3, 5)
  {
  }

  ghost predicate KeepsSpans(v: seq<Span>, w: seq<Span>) {
    forall i :: 0 <= i < |v| ==> v[i] in w
  }

  /** No region starts at `a`, nor in the pages behind it unless `a` is covered. */
  ghost predicate NoneStarts(v: seq<Span>, a: nat, size: nat) {
    && (forall i :: 0 <= i < |v| ==> v[i].start != a)
    && (FlagsAt(v, a).None? ==> Uncovered(v, a, a + size))
  }

  /** What alloc_at needs: a region reaches over `a`, which gives EEXIST, or none starts in the range. */
  lemma NoneStartsExactly(v: seq<Span>, a: nat, size: nat)
    requires Ordered(v) && 0 < size
    ensures NoneStarts(v, a, size) <==> Straddled(v, a) || forall k :: 0 <= k < |v| ==> !(a <= v[k].start < a + size)
  {
    FlagsAtMeaning(v, a);
    if NoneStarts(v, a, size) && !Straddled(v, a) {
      forall k | 0 <= k < |v| ensures !(a <= v[k].start < a + size) { FlagsAtMeaning(v, v[k].start); }
    }
    if Straddled(v, a) {
      var i :| 0 <= i < |v| && v[i].start < a < v[i].end;
      forall k | 0 <= k < |v| ensures v[k].start != a { assert k < i ==> v[k].end <= v[i].start; }
    } else if forall k :: 0 <= k < |v| ==> !(a <= v[k].start < a + size) {
      forall p: nat | a <= p < a + size ensures FlagsAt(v, p).None? { FlagsAtMeaning(v, p); }
    }
  }

  /** A region reaches over `a` after the object cache grew exactly if page a was covered before. */
  lemma ClashIffCovered(x: View, y: View, clash: bool, a: nat, size: nat, slab: set<nat>)
    requires Ordered(x.spans) && Ordered(y.spans) && KeepsSpans(x.spans, y.spans) && OnlySlab(x, y, slab)
    requires 0 < size && NoneStarts(x.spans, a, size) && forall p :: p in slab ==> !(a <= p < a + size)
    requires clash <==> Straddled(y.spans, a)
    ensures clash <==> FlagsAt(x.spans, a).Some?
    ensures !clash ==> Uncovered(y.spans, a, a + size)
  {
    FlagsAtMeaning(x.spans, a);
    FlagsAtMeaning(y.spans, a);
    if FlagsAt(x.spans, a).Some? {
      var i :| 0 <= i < |x.spans| && x.spans[i].start <= a < x.spans[i].end;
      assert x.spans[i] in y.spans;
    } else {
      StillUncovered(x, y, slab, a, a + size);
    }
  }

  /** [a, b) got flags f, or no region where f is None; nothing else changed, but for the pages of the object cache. */
  ghost predicate Changed(x: View, y: View, a: nat, b: nat, f: Option<Flags>, slab: set<nat>) {
    Remapped(x.spans, y.spans, a, b, f, slab) && EntriesKept(x.pte, y.pte, a, b, slab)
  }

  lemma ChangedProtects(x: View, y: View, a: nat, b: nat, f: Flags, slab: set<nat>)
    requires Agree(y.spans, y.pte) && Changed(x, y, a, b, Some(f), slab)
    ensures Protected(y.pte, a, b, f)
  {
    forall p: nat | a <= p < b ensures Permits(y.pte, p, f) {
      assert RemappedAt(x.spans, y.spans, a, b, Some(f), slab, p);
      hide FlagsAt;
    }
  }

  lemma AddedProtects(x: View, y: View, a: nat, b: nat, f: Flags, slab: set<nat>)
    requires Agree(y.spans, y.pte) && Added(x, y, a, b, f, slab)
    ensures Protected(y.pte, a, b, f)
  {
    hide Agree;
    ChangedProtects(x, y, a, b, f, slab);
  }

  /** The object cache takes no page of a region. */
  lemma SlabApart(x: View, y: View, i: nat, a: nat, b: nat, slab: set<nat>)
    requires OnlySlab(x, y, slab) && Ordered(x.spans) && i < |x.spans| && x.spans[i].start <= a < b <= x.spans[i].end
    ensures forall p :: p in slab ==> !(a <= p < b)
  {
    forall p | p in slab ensures !(a <= p < b) {
      FlagsAtMeaning(x.spans, p);
      hide FlagsAt;
      assert RemappedAt(x.spans, y.spans, 0, 0, None, slab, p);
    }
  }

  /** Pages of a region with a mapping are present. */
  lemma RegionPresent(x: View, i: nat, a: nat, b: nat)
    requires Ordered(x.spans) && Agree(x.spans, x.pte)
    requires i < |x.spans| && x.spans[i].start <= a && b <= x.spans[i].end && x.spans[i].flags.RW()
    ensures Present(x.pte, a, b)
  {
    forall p: nat | a <= p < b ensures p in x.pte { FlagsAtMeaning(x.spans, p); }
  }

  lemma KeptFrames(x: View, i: nat, a: nat, b: nat)
    requires Ordered(x.spans) && Agree(x.spans, x.pte) && i < |x.spans| && x.spans[i].start <= a <= b <= x.spans[i].end
    ensures x.spans[i].flags.RW() ==> SameFrames(x.pte, a, x.pte, a, b - a)
  {
    if x.spans[i].flags.RW() { RegionPresent(x, i, a, b); }
  }

  /** Giving a range the flags it has changes nothing. */
  lemma SameFlags(x: View, i: nat, a: nat, b: nat)
    requires Ordered(x.spans) && i < |x.spans| && x.spans[i].start <= a && b <= x.spans[i].end
    ensures Changed(x, x, a, b, Some(x.spans[i].flags), {})
  {
    var none := {};
    forall p: nat ensures RemappedAt(x.spans, x.spans, a, b, Some(x.spans[i].flags), none, p) {
      FlagsAtMeaning(x.spans, p);
    }
  }

  /** Some region that covers `a` ends before b, or would have to gain a mapping. */
  ghost predicate BadChange(v: seq<Span>, a: nat, b: nat, f: Flags) {
    exists i :: 0 <= i < |v| && v[i].start <= a < v[i].end
      && (v[i].end < b || (v[i].flags != f && !v[i].flags.RW() && f.RW()))
  }

  /** What set_flags asserts: page table entries exist before or after the change. */
  ghost predicate Changeable(v: seq<Span>, a: nat, b: nat, f: Flags) {
    forall i :: 0 <= i < |v| && v[i].start <= a && b <= v[i].end && v[i].flags != f ==> v[i].flags.RW() || f.RW()
  }

  /** Only the region that covers `a` decides. */
  lemma BadChangeAt(v: seq<Span>, k: nat, a: nat, b: nat, f: Flags)
    requires Ordered(v) && k < |v| && v[k].start <= a < v[k].end
    ensures BadChange(v, a, b, f) <==> v[k].end < b || (v[k].flags != f && !v[k].flags.RW() && f.RW())
    ensures FlagsAt(v, a).Some?
  {
    FlagsAtMeaning(v, a);
  }

  lemma NoBadChange(v: seq<Span>, a: nat, b: nat, f: Flags)
    requires Ordered(v) && FlagsAt(v, a).None?
    ensures !BadChange(v, a, b, f)
  {
    FlagsAtMeaning(v, a);
  }

  /** [a, b) is one region, no more and no less. */
  ghost predicate IsRegion(v: seq<Span>, a: nat, b: nat) {
    exists i :: 0 <= i < |v| && v[i].start == a && v[i].end == b
  }

  lemma IsRegionAt(v: seq<Span>, k: nat, a: nat, b: nat)
    requires Ordered(v) && k < |v| && v[k].start <= a < v[k].end && IsRegion(v, a, b)
    ensures v[k].start == a && v[k].end == b
  {
  }

  /** A region was added, then its flags changed. */
  lemma AddedThenChanged(x: View, y: View, z: View, a: nat, b: nat, f0: Flags, f: Flags, slab: set<nat>)
    requires Added(x, y, a, b, f0, slab) && Changed(y, z, a, b, Some(f), {})
    ensures Added(x, z, a, b, f, slab)
  {
    hide FlagsAt;
    var none := {};
    forall p: nat ensures RemappedAt(x.spans, z.spans, a, b, Some(f), slab, p) {
      assert RemappedAt(x.spans, y.spans, a, b, Some(f0), slab, p);
      assert RemappedAt(y.spans, z.spans, a, b, Some(f), none, p);
    }
  }

  lemma PrivateRecoloured(x: View, y: View, counts: seq<nat>, a: nat, b: nat, f0: Flags, f: Flags, kernel: bool)
    requires Private(x.pte, counts, a, b, ToPte(f0)) && a <= b && SameFrames(x.pte, a, y.pte, a, b - a)
    requires Changed(x, y, a, b, Some(f), {}) && Agree(y.spans, y.pte) && f.RW()
    ensures Private(y.pte, counts, a, b, ToPte(f))
  {
    var none := {};
    hide FlagsAt;
    forall p: nat | a <= p < b ensures p in y.pte && y.pte[p].flags == ToPte(f) && y.pte[p].frame == x.pte[p].frame {
      assert RemappedAt(x.spans, y.spans, a, b, Some(f), none, p);
      assert Mapped(y.spans, p);
      assert SameFrameAt(x.pte, a, y.pte, a, p);
    }
  }

  /** set_flags accepts a region that has a mapping. */
  lemma RegionChangeable(v: seq<Span>, a: nat, b: nat, f0: Flags, f: Flags)
    requires Ordered(v) && a < b && Span(a, b, f0) in v && f0.RW()
    ensures Changeable(v, a, b, f) && !BadChange(v, a, b, f) && FlagsAt(v, a).Some? && IsRegion(v, a, b)
  {
    FlagsAtMeaning(v, a);
    var k :| 0 <= k < |v| && v[k] == Span(a, b, f0);
    BadChangeAt(v, k, a, b, f);
  }

  /** The region that covers `a` ends before b. */
  ghost predicate EndsBefore(v: seq<Span>, a: nat, b: nat) {
    exists i :: 0 <= i < |v| && v[i].start <= a < v[i].end < b
  }

  lemma EndsBeforeAt(v: seq<Span>, k: nat, a: nat, b: nat)
    requires Ordered(v) && k < |v| && v[k].start <= a < v[k].end
    ensures EndsBefore(v, a, b) <==> v[k].end < b
    ensures FlagsAt(v, a).Some?
  {
    FlagsAtMeaning(v, a);
  }

  lemma NoneEndsBefore(v: seq<Span>, a: nat, b: nat)
    requires Ordered(v) && FlagsAt(v, a).None?
    ensures !EndsBefore(v, a, b)
  {
    FlagsAtMeaning(v, a);
  }

  /** What page_table_unmap asserts of unmap: the range is in no region without a mapping. */
  ghost predicate Unmappable(v: seq<Span>, a: nat, b: nat) {
    forall i :: 0 <= i < |v| && v[i].start <= a && b <= v[i].end ==> v[i].flags.RW()
  }

  lemma SlabTwice(x: View, y: View, z: View, slab1: set<nat>, slab2: set<nat>)
    requires OnlySlab(x, y, slab1) && OnlySlab(y, z, slab2)
    ensures OnlySlab(x, z, slab1 + slab2)
  {
    hide FlagsAt;
    var slab := slab1 + slab2;
    forall p: nat ensures RemappedAt(x.spans, z.spans, 0, 0, None, slab, p) {
      assert RemappedAt(x.spans, y.spans, 0, 0, None, slab1, p) && RemappedAt(y.spans, z.spans, 0, 0, None, slab2, p);
    }
  }

  lemma AllStay(counts: seq<nat>, v: seq<Span>)
    ensures UsedStay(counts, counts) && KeepsSpans(v, v)
  {
  }

  lemma FramesUsedStay(counts0: seq<nat>, counts: seq<nat>, frame: nat, n: nat)
    requires FramesUsed(counts0, frame, n) && UsedStay(counts0, counts)
    ensures FramesUsed(counts, frame, n)
  {
  }

  /** n pages from `lo` show n consecutive physical pages. */
  ghost predicate Contiguous(pte: map<nat, Pte>, lo: nat, n: nat, frame: nat) {
    forall p :: lo <= p < lo + n ==> p in pte && pte[p].frame == frame + (p - lo)
  }

  /** n pages from `b` in one table show the same physical pages as those from `a` in another. */
  ghost predicate SameFrames(pte0: map<nat, Pte>, a: nat, pte: map<nat, Pte>, b: nat, n: nat) {
    forall q :: b <= q < b + n ==> SameFrameAt(pte0, a, pte, b, q)
  }

  ghost predicate SameFrameAt(pte0: map<nat, Pte>, a: nat, pte: map<nat, Pte>, b: nat, q: nat)
    requires b <= q
  {
    var p := a + (q - b);
    q in pte && p in pte0 && pte[q].frame == pte0[p].frame
  }

  // ------------------------------------------------------------------------ resize

  /** resize extends region k where it is: it is the last one, or stays clear of the next. */
  ghost predicate CanGrow(v: seq<Span>, k: nat, n: nat) {
    k < |v| && (k + 1 == |v| || v[k].start + n < v[k + 1].start)
  }

  ghost predicate MovedAt(v: seq<Span>, w: seq<Span>, s: Span, a: nat, n: nat, p: nat) {
    FlagsAt(w, p) == if a <= p < a + n then Some(s.flags) else if s.start <= p < s.end then None else FlagsAt(v, p)
  }

  /** In the page map, region s moved to the free pages from `a` and grew to n pages. */
  ghost predicate MovedFlags(v: seq<Span>, w: seq<Span>, s: Span, a: nat, n: nat) {
    Uncovered(v, a, a + n) && forall p: nat :: MovedAt(v, w, s, a, n, p)
  }

  ghost predicate EntryMoved(pte0: map<nat, Pte>, pte: map<nat, Pte>, s: Span, a: nat, n: nat, p: nat) {
    && (p in pte <==> a <= p < a + n || (p in pte0 && !(s.start <= p < s.end)))
    && (p in pte ==> if a <= p < a + n then pte[p].flags == ToPte(s.flags) else p in pte0 && pte[p] == pte0[p])
  }

  /** In the page table, the entries of s moved to `a`, with their physical pages. */
  ghost predicate EntriesMoved(pte0: map<nat, Pte>, pte: map<nat, Pte>, s: Span, a: nat, n: nat) {
    && s.start <= s.end && SameFrames(pte0, s.start, pte, a, s.end - s.start)
    && forall p: nat :: EntryMoved(pte0, pte, s, a, n, p)
  }

  /** Region k moved to `a`: the page map and the entries went along. */
  ghost predicate Moved(x: View, y: View, k: nat, a: nat, n: nat) {
    k < |x.spans| && MovedFlags(x.spans, y.spans, x.spans[k], a, n) && EntriesMoved(x.pte, y.pte, x.spans[k], a, n)
  }

  lemma SaneAt(v: seq<Span>, k: nat, kernel: bool)
    requires Sane(v, kernel) && k < |v|
    ensures ValidFlags(v[k].flags, kernel)
  {
  }

  /** After sharing the old pages at `a` and adding new ones behind them. */
  ghost predicate Doubled(pte0: map<nat, Pte>, pte: map<nat, Pte>, s: Span, a: nat, n: nat) {
    && Without(pte, a, a + n) == pte0
    && (forall p :: a <= p < a + n ==> p in pte && pte[p].flags == ToPte(s.flags))
    && s.start <= s.end && SameFrames(pte0, s.start, pte, a, s.end - s.start)
  }

  lemma WithoutTwice(pte0: map<nat, Pte>, pte1: map<nat, Pte>, pte2: map<nat, Pte>, a: nat, b: nat, c: nat)
    requires a <= b <= c && Without(pte1, a, b) == pte0 && Without(pte2, b, c) == pte1
    ensures Without(pte2, a, c) == pte0
  {
    var w := Without(pte2, a, c);
    forall p ensures p in w <==> p in pte0 {
      assert p in w <==> p in pte2 && !(a <= p < c);
      assert p in pte1 <==> p in pte2 && !(b <= p < c);
      assert p in pte0 <==> p in pte1 && !(a <= p < b);
    }
    forall p | p in pte0 ensures w[p] == pte0[p] { assert p in pte1 && p in pte2; }
  }

  /** Pages mapped before are as they were after more pages were mapped. */
  lemma WithoutKeeps(pte: map<nat, Pte>, pte': map<nat, Pte>, lo: nat, hi: nat, p: nat)
    requires Without(pte', lo, hi) == pte && p in pte
    ensures p in pte' && pte'[p] == pte[p]
  {
    assert p in Without(pte', lo, hi);
  }

  lemma CopiedPage(pte0: map<nat, Pte>, from: nat, pte: map<nat, Pte>, lo: nat, hi: nat, flags: PteFlags, p: nat)
    requires Copied(pte0, from, pte, lo, hi, flags) && lo <= p < hi
    ensures from + (p - lo) in pte0 && p in pte && pte[p] == Pte(pte0[from + (p - lo)].frame, flags)
  {
    assert CopiedAt(pte0, from, pte, lo, p, flags);
  }

  lemma CopiedPresent(pte0: map<nat, Pte>, from: nat, pte: map<nat, Pte>, lo: nat, hi: nat, flags: PteFlags)
    requires Copied(pte0, from, pte, lo, hi, flags)
    ensures Present(pte, lo, hi)
  {
    forall p | lo <= p < hi ensures p in pte { assert CopiedAt(pte0, from, pte, lo, p, flags); }
  }

  lemma TwoMappings(pte0: map<nat, Pte>, pte1: map<nat, Pte>, pte2: map<nat, Pte>, s: Span, a: nat, size: nat, n: nat)
    requires s.end == s.start + size && size <= n && Present(pte0, s.start, s.end)
    requires Without(pte1, a, a + size) == pte0 && Without(pte2, a + size, a + n) == pte1
    requires Copied(pte0, s.start, pte1, a, a + size, ToPte(s.flags))
    requires forall p :: a + size <= p < a + n ==> p in pte2 && pte2[p].flags == ToPte(s.flags)
    ensures Doubled(pte0, pte2, s, a, n) && Present(pte2, s.start, s.end)
  {
    hide Without, Copied;
    WithoutTwice(pte0, pte1, pte2, a, a + size, a + n);
    forall p | a <= p < a + size
      ensures s.start + (p - a) in pte0 && p in pte2
      ensures pte2[p] == Pte(pte0[s.start + (p - a)].frame, ToPte(s.flags))
    {
      CopiedPage(pte0, s.start, pte1, a, a + size, ToPte(s.flags), p);
      WithoutKeeps(pte1, pte2, a + size, a + n, p);
    }
    forall p | s.start <= p < s.end ensures p in pte2 { WithoutKeeps(pte0, pte2, a, a + n, p); }
  }

  /** The free pages a region moves to are not its own. */
  lemma Apart(pte: map<nat, Pte>, s: Span, a: nat, n: nat)
    requires Present(pte, s.start, s.end) && Absent(pte, a, a + n) && s.start < s.end && 0 < n
    ensures a + n <= s.start || s.end <= a
  {
    var m := if a < s.start then s.start else a;
    assert m < s.end ==> m in pte;
    assert m < a + n ==> m !in pte;
  }

  lemma NoPages(pte: map<nat, Pte>, counts: seq<nat>, lo: nat, hi: nat, flags: PteFlags)
    requires hi <= lo
    ensures Private(pte, counts, lo, hi, flags)
  {
  }

  lemma StillAbsent(pte0: map<nat, Pte>, pte1: map<nat, Pte>, a: nat, b: nat, c: nat)
    requires a <= b <= c && Without(pte1, a, b) == pte0 && Absent(pte0, a, c)
    ensures Absent(pte1, b, c)
  {
    forall p | b <= p < c ensures p !in pte1 { assert p in Without(pte1, a, b) <==> p in pte1; }
  }

  lemma MoveDone(pte0: map<nat, Pte>, pte2: map<nat, Pte>, pte: map<nat, Pte>, s: Span, a: nat, n: nat)
    requires Doubled(pte0, pte2, s, a, n) && pte == Without(pte2, s.start, s.end)
    requires Present(pte0, s.start, s.end) && Absent(pte0, a, a + n) && s.end - s.start <= n
    ensures EntriesMoved(pte0, pte, s, a, n)
  {
    forall p | a <= p < a + n ensures p in pte && pte[p] == pte2[p] { assert p !in pte0; }
    forall q | a <= q < a + (s.end - s.start) ensures SameFrameAt(pte0, s.start, pte, a, q) {
      assert SameFrameAt(pte0, s.start, pte2, a, q);
    }
    forall p: nat ensures EntryMoved(pte0, pte, s, a, n, p) {
      assert p in Without(pte2, a, a + n) <==> p in pte0;
      assert a <= p < a + n ==> p !in pte0;
    }
  }

  /** The pages by which region s grew, now behind its old size from `a` on, are pages of their own. */
  ghost predicate AddedPrivate(pte: map<nat, Pte>, counts: seq<nat>, s: Span, a: nat, n: nat) {
    s.flags.RW() && s.start <= s.end ==> Private(pte, counts, a + (s.end - s.start), a + n, ToPte(s.flags))
  }

  lemma MovedAgree(x: View, y: View, s: Span, a: nat, n: nat)
    requires Agree(x.spans, x.pte) && s.flags.RW()
    requires MovedFlags(x.spans, y.spans, s, a, n) && EntriesMoved(x.pte, y.pte, s, a, n)
    ensures Agree(y.spans, y.pte)
  {
    hide FlagsAt;
    forall p: nat
      ensures p in y.pte <==> Mapped(y.spans, p)
      ensures p in y.pte ==> y.pte[p].flags == ToPte(FlagsAt(y.spans, p).value)
    {
      assert MovedAt(x.spans, y.spans, s, a, n, p) && EntryMoved(x.pte, y.pte, s, a, n, p);
    }
  }

  lemma WithoutOrdered(v: seq<Span>, k: nat)
    requires k < |v| && Ordered(v)
    ensures Ordered(v[..k] + v[k + 1..])
  {
    var w := v[..k] + v[k + 1..];
    forall i | 0 <= i < |w| ensures w[i] == v[if i < k then i else i + 1] {}
  }

  lemma FitsWithout(v: seq<Span>, k: nat, place: nat, a: nat, b: nat)
    requires k < |v| && Ordered(v) && Fits(v, place, a, b) && place != k + 1
    ensures Fits(v[..k] + v[k + 1..], if place <= k then place else place - 1, a, b)
  {
  }

  lemma RelinkedOrdered(v: seq<Span>, k: nat, place: nat, s: Span)
    requires k < |v| && Ordered(v) && Fits(v, place, s.start, s.end) && place != k + 1
    ensures Ordered(Relinked(v, k, place, s))
  {
    hide Ordered, Fits;
    FitsWithout(v, k, place, s.start, s.end);
    WithoutOrdered(v, k);
    FitsOrdered(v[..k] + v[k + 1..], if place <= k then place else place - 1, s);
  }

  lemma RelinkedMoves(v: seq<Span>, k: nat, place: nat, a: nat, n: nat)
    requires k < |v| && Ordered(v) && Fits(v, place, a, a + n) && place != k + 1
    ensures MovedFlags(v, Relinked(v, k, place, Span(a, a + n, v[k].flags)), v[k], a, n)
  {
    var s := Span(a, a + n, v[k].flags);
    var rest, at, none := v[..k] + v[k + 1..], if place <= k then place else place - 1, {};
    CutRemaps(v, k, v[k].start, v[k].end, [], None);
    HoleCut(v, k, v[k].start, v[k].end);
    RelinkedOrdered(v, k, place, s);
    FitsUncovered(v, place, a, a + n);
    hide Ordered, Fits, WithCut, FlagsAt;
    InsertRemaps(rest, at, s);
    var w := Relinked(v, k, place, s);
    assert w == rest[..at] + [s] + rest[at..];
    forall p: nat ensures MovedAt(v, w, v[k], a, n, p) {
      assert RemappedAt(v, rest, v[k].start, v[k].end, None, none, p);
      assert RemappedAt(rest, w, a, a + n, Some(v[k].flags), none, p);
    }
  }

  lemma RelinkedSane(v: seq<Span>, k: nat, place: nat, s: Span, kernel: bool)
    requires k < |v| && place <= |v| && place != k + 1 && Sane(v, kernel) && ValidFlags(s.flags, kernel)
    ensures Sane(Relinked(v, k, place, s), kernel)
  {
    var rest := v[..k] + v[k + 1..];
    assert Sane(rest, kernel);
    InsertSane(rest, if place <= k then place else place - 1, s, kernel);
  }

  lemma JoinedFlags(s: Span, mid: nat, p: nat)
    requires s.start <= mid <= s.end
    ensures FlagsAt([Span(s.start, mid, s.flags), Span(mid, s.end, s.flags)], p) == FlagsAt([s], p)
  {
    var a, b := Span(s.start, mid, s.flags), Span(mid, s.end, s.flags);
    assert [a, b][1..] == [b] && [b][1..] == [] && [s][1..] == [];
  }

  /** A region that cannot grow in place is not the one vm_find_gap finds room behind. */
  lemma NotOwnCursor(v: seq<Span>, k: nat, place: nat, a: nat, n: nat)
    requires Ordered(v) && k < |v| && Fits(v, place, a, a + n) && !CanGrow(v, k, n)
    ensures place != k + 1
  {
  }

  /** Region k is the last, and n pages from its start reach beyond hi. */
  ghost predicate LeavesRange(v: seq<Span>, k: nat, n: nat, hi: nat) {
    k + 1 == |v| && v[k].start + n > hi
  }

  /** What resize does to region k, which it leaves at or moves to `a`, with n pages. */
  ghost predicate Resized(x: View, y: View, k: nat, a: nat, n: nat) {
    && k < |x.spans|
    && var s := x.spans[k];
       if s.start + n == s.end then a == s.start && y == x
       else if s.start + n < s.end then a == s.start && Changed(x, y, s.start + n, s.end, None, {})
       else if CanGrow(x.spans, k, n) then a == s.start && Changed(x, y, s.end, s.start + n, Some(s.flags), {})
       else Moved(x, y, k, a, n)
  }

  /** Region k is the one at page p, and it need not move to have n pages. */
  ghost predicate StaysInPlace(v: seq<Span>, p: nat, n: nat, k: nat) {
    CanGrow(v, k, n) && v[k].start == p
  }

  lemma NoneInPlace(v: seq<Span>, p: nat, n: nat)
    requires Ordered(v) && FlagsAt(v, p).None?
    ensures forall k :: !StaysInPlace(v, p, n, k)
  {
    FlagsAtMeaning(v, p);
  }

  lemma OnlyAt(v: seq<Span>, p: nat, n: nat, k: nat)
    requires Ordered(v) && k < |v| && v[k].start <= p < v[k].end
    ensures forall j :: StaysInPlace(v, p, n, j) ==> j == k && v[k].start == p && CanGrow(v, k, n)
  {
  }

  /** Region k shrinks, or the free physical pages suffice for growing it in place to n pages. */
  ghost predicate Grows(x: Stage, k: nat, n: nat)
    requires k < |x.view.spans|
  {
    var s := x.view.spans[k];
    s.end < s.start + n && s.flags.RW() ==> Cost(x.pde, s.end, s.start + n, true) <= NumFree(x.counts)
  }

  lemma ResizedProtects(x: View, y: View, k: nat, a: nat, n: nat)
    requires Ordered(x.spans) && Agree(y.spans, y.pte) && Resized(x, y, k, a, n)
    ensures Protected(y.pte, a, a + n, x.spans[k].flags)
  {
    var s := x.spans[k];
    forall p: nat | a <= p < a + n ensures Permits(y.pte, p, s.flags) {
      FlagsAtMeaning(x.spans, p);
      ResizedFlags(x, y, k, a, n, p);
      hide FlagsAt, Resized, Ordered;
    }
  }

  lemma ResizedFlags(x: View, y: View, k: nat, a: nat, n: nat, p: nat)
    requires Ordered(x.spans) && Resized(x, y, k, a, n) && a <= p < a + n
    ensures FlagsAt(y.spans, p) == Some(x.spans[k].flags)
  {
    var s := x.spans[k];
    FlagsAtMeaning(x.spans, p);
    hide FlagsAt;
    if s.end < s.start + n && !CanGrow(x.spans, k, n) { assert MovedAt(x.spans, y.spans, s, a, n, p); }
    else if s.start + n < s.end { assert RemappedAt(x.spans, y.spans, s.start + n, s.end, None, {}, p); }
    else if s.end < s.start + n { assert RemappedAt(x.spans, y.spans, s.end, s.start + n, Some(s.flags), {}, p); }
  }

  /** What the page table's assertions demand of resize: all but growth in place need a mapping. */
  ghost predicate Resizable(v: seq<Span>, p: nat, n: nat) {
    forall k :: 0 <= k < |v| && v[k].start == p && !v[k].flags.RW() ==>
      v[k].start + n == v[k].end || (v[k].end < v[k].start + n && CanGrow(v, k, n))
  }

  /** A resized region is still in range exactly if it did not grow, as the last region, beyond hi. */
  lemma ResizedRange(x: View, y: View, k: nat, a: nat, n: nat, lo: nat, hi: nat)
    requires Ordered(x.spans) && Resized(x, y, k, a, n) && Confined(x.spans, lo, hi) && 0 < n
    requires Moved(x, y, k, a, n) && x.spans[k].end < x.spans[k].start + n && !CanGrow(x.spans, k, n) ==>
      lo <= a && a + n <= hi
    ensures Confined(y.spans, lo, hi) <==> !LeavesRange(x.spans, k, n, hi)
  {
    var s, none := x.spans[k], {};
    FlagsAtMeaning(x.spans, s.start);
    FlagsAtMeaning(x.spans, s.end - 1);
    if k + 1 < |x.spans| { FlagsAtMeaning(x.spans, x.spans[k + 1].start); }
    if s.start + n < s.end {
      hide FlagsAt, Ordered;
      forall p: nat | FlagsAt(y.spans, p).Some? ensures lo <= p < hi {
        assert RemappedAt(x.spans, y.spans, s.start + n, s.end, None, none, p);
      }
    } else if s.end < s.start + n {
      if CanGrow(x.spans, k, n) {
        GrownRange(x, y, k, n, lo, hi);
      } else {
        hide FlagsAt, Ordered;
        forall p: nat | FlagsAt(y.spans, p).Some? ensures lo <= p < hi {
          assert MovedAt(x.spans, y.spans, s, a, n, p);
        }
      }
    }
  }

  lemma GrownRange(x: View, y: View, k: nat, n: nat, lo: nat, hi: nat)
    requires k < |x.spans| && x.spans[k].start < x.spans[k].end < x.spans[k].start + n
    requires Changed(x, y, x.spans[k].end, x.spans[k].start + n, Some(x.spans[k].flags), {})
    requires Confined(x.spans, lo, hi) && lo <= x.spans[k].start
    ensures Confined(y.spans, lo, hi) <==> x.spans[k].start + n <= hi
  {
    hide FlagsAt;
    var s, none := x.spans[k], {};
    var last := s.start + n - 1;
    assert RemappedAt(x.spans, y.spans, s.end, s.start + n, Some(s.flags), none, last);
    if s.start + n <= hi {
      forall p: nat | FlagsAt(y.spans, p).Some? ensures lo <= p < hi {
        assert RemappedAt(x.spans, y.spans, s.end, s.start + n, Some(s.flags), none, p);
      }
    }
  }

  /** For instance: the only region, filling [1, 3), grown to three pages. */
  lemma GrowthLeavesRange(f: Flags)
    requires !f.RW()
    ensures var x, y := View([Span(1, 3, f)], map[]), View([Span(1, 4, f)], map[]);
            Resized(x, y, 0, 1, 3) && Confined(x.spans, 1, 3) && !Confined(y.spans, 1, 3)
  {
    var x, y := View([Span(1, 3, f)], map[]), View([Span(1, 4, f)], map[]);
    GrowRemaps(x.spans, 0, 4);
    assert x.spans[0 := Span(1, 4, f)] == y.spans;
    assert forall p: nat :: FlagsAt(x.spans, p).Some? ==> 1 <= p < 3 by {
      forall p: nat | FlagsAt(x.spans, p).Some? ensures 1 <= p < 3 { FlagsAtMeaning(x.spans, p); }
    }
    FlagsAtMeaning(y.spans, 3);
  }

  lemma CanGrowFits(v: seq<Span>, k: nat, n: nat)
    requires CanGrow(v, k, n) && v[k].end < v[k].start + n
    ensures Fits(v, k + 1, v[k].end, v[k].start + n)
  {
  }

  lemma GrowSane(v: seq<Span>, k: nat, end: nat, kernel: bool)
    requires Sane(v, kernel) && k < |v|
    ensures Sane(v[k := Span(v[k].start, end, v[k].flags)], kernel)
  {
  }

  lemma StartsOrStraddles(v: seq<Span>, p: nat)
    requires Ordered(v) && FlagsAt(v, p).None?
    ensures !Straddled(v, p)
  {
    FlagsAtMeaning(v, p);
  }

  lemma StraddledAt(v: seq<Span>, k: nat, p: nat)
    requires Ordered(v) && k < |v| && v[k].start <= p < v[k].end
    ensures Straddled(v, p) <==> v[k].start != p
    ensures FlagsAt(v, p).Some? && v[k].start < v[k].end
  {
    FlagsAtMeaning(v, p);
  }

  /** A region is extended over free pages behind it. */
  lemma GrowRemaps(v: seq<Span>, k: nat, end: nat)
    requires k < |v| && Ordered(v) && Fits(v, k + 1, v[k].end, end)
    ensures Ordered(v[k := Span(v[k].start, end, v[k].flags)])
    ensures Remapped(v, v[k := Span(v[k].start, end, v[k].flags)], v[k].end, end, Some(v[k].flags), {})
  {
    var s, more, none := Span(v[k].start, end, v[k].flags), Span(v[k].end, end, v[k].flags), {};
    var w := v[k := s];
    FitsOrdered(v, k + 1, more);
    InsertRemaps(v, k + 1, more);
    var u := v[..k + 1] + [more] + v[k + 1..];
    assert u == v[..k] + [v[k], more] + v[k + 1..] && w == v[..k] + [s] + v[k + 1..];
    forall p: nat ensures RemappedAt(v, w, v[k].end, end, Some(v[k].flags), none, p) {
      assert RemappedAt(v, u, v[k].end, end, Some(v[k].flags), none, p);
      FlagsAtThree(v[..k], [v[k], more], v[k + 1..], p);
      FlagsAtThree(v[..k], [s], v[k + 1..], p);
      JoinedFlags(s, v[k].end, p);
    }
  }

  /** A region was linked in after its pages were mapped. */
  lemma InsertDone(v: seq<Span>, place: nat, s: Span, kernel: bool, pte0: map<nat, Pte>, pte: map<nat, Pte>)
    requires Ordered(v) && Sane(v, kernel) && Agree(v, pte0) && ValidFlags(s.flags, kernel)
    requires Fits(v, place, s.start, s.end)
    requires EntriesKept(pte0, pte, s.start, s.end, {}) && EntriesFor(pte, s.start, s.end, Some(s.flags))
    ensures var w := v[..place] + [s] + v[place..]; Ordered(w) && Sane(w, kernel) && Agree(w, pte) && s in w
    ensures var w := v[..place] + [s] + v[place..];
      Remapped(v, w, s.start, s.end, Some(s.flags), {}) && KeepsSpans(v, w)
  {
    var w := v[..place] + [s] + v[place..];
    assert KeepsSpans(v, w) by { assert v == v[..place] + v[place..]; }
    FitsOrdered(v, place, s);
    InsertRemaps(v, place, s);
    InsertSane(v, place, s, kernel);
    hide Ordered, Remapped, Sane, Agree, EntriesKept, EntriesFor, Fits, KeepsSpans;
    AgreeRemapped(v, w, pte0, pte, s.start, s.end, Some(s.flags));
  }

  class AddressSpace {
    const lo: nat               // vm->start
    const hi: nat               // vm->end
    const kernel: bool          // this is kernel_vm, which the region cache grows in
    const list: RegionList      // vm->regions
    const dir: Directory        // vm->page_directory
    var slabFree: nat           // objects on the region cache's free list

    ghost function Repr(): set<object>
      reads list
    {
      {this, list} + list.NodeSet() + dir.Repr()
    }

    ghost function Now(): View reads list, dir { View(list.spans, dir.pte) }

    ghost function Stock(): Stage
      reads Repr()
    {
      Stage(Now(), dir.frames.refs[..], dir.pde)
    }

    /** The object cache has a region object, or can get one. */
    ghost predicate CacheServes(outside: bool)
      reads Repr()
    {
      if kernel then slabFree > 0 || Affords(Stock(), 1, true, true) else outside
    }

    ghost predicate Affords(x: Stage, size: nat, rw: bool, own: bool) {
      Affordable(x.view.spans, x.counts, x.pde, size, lo, hi, rw, own)
    }

    ghost predicate InRange() reads list { Confined(list.spans, lo, hi) }

    ghost predicate Valid()
      reads Repr()
    {
      && list.Valid() && dir.Valid()
      && Agree(list.spans, dir.pte)
      && Sane(list.spans, kernel)
    }

    constructor (lo: nat, hi: nat, kernel: bool, dir: Directory)
      requires dir.Valid() && dir.pte == map[]
      ensures Valid() && fresh(list) && list.nodes == [] && this.dir == dir && this.kernel == kernel
    {
      this.lo, this.hi, this.kernel, this.dir := lo, hi, kernel, dir;
      list := new RegionList();
      slabFree := 0;
    }

    /** vm_find_gap on this address space: where there is room, a region fits and nothing is mapped. */
    method FindRoom(size: nat) returns (g: Gap, ghost place: nat)
      requires Valid() && 0 < size
      ensures g.NoRoom? <==>
        || lo + size > hi
        || (list.spans != [] && forall k :: 0 <= k < |list.spans| ==> !RoomBehind(list.spans, k, size, hi))
      ensures g.Room? ==> Fits(list.spans, place, g.start, g.start + size) && place <= |list.nodes|
      ensures g.Room? ==> if place == 0 then g.cursor == null else g.cursor == list.nodes[place - 1]
      ensures g.Room? ==> Absent(dir.pte, g.start, g.start + size) && Uncovered(list.spans, g.start, g.start + size)
      ensures g.Room? && Confined(list.spans, lo, hi) ==> lo <= g.start && g.start + size <= hi
      ensures g.Room? ==> lo + size <= hi && FirstFit(list.spans, g.start, size, lo, hi)
      ensures g.NoRoom? ==> lo + size > hi || forall a: nat :: !FirstFit(list.spans, a, size, lo, hi)
    {
      ghost var i;
      g, i := list.FindGap(lo, hi, size);
      place := 0;
      if g.NoRoom? {
        if lo + size <= hi {
          forall a: nat ensures !FirstFit(list.spans, a, size, lo, hi) { NoRoomNoFit(list.spans, size, lo, hi, a); }
        }
        return;
      }
      place := if g.cursor == null then 0 else i + 1;
      FitsUncovered(list.spans, place, g.start, g.start + size);
      UncoveredAbsent(list.spans, dir.pte, g.start, g.start + size);
      if place > 0 && Confined(list.spans, lo, hi) {
        FlagsAtMeaning(list.spans, list.spans[place - 1].start);
        if place < |list.spans| { FlagsAtMeaning(list.spans, list.spans[place].start); }
      }
    }

    /** The region is linked in after its pages have been mapped; `pte0` is the table before that. */
    method LinkIn(cursor: Region?, r: Region, ghost place: nat, ghost pte0: map<nat, Pte>)
      requires list.Valid() && dir.Valid() && Sane(list.spans, kernel) && Agree(list.spans, pte0)
      requires r !in list.nodes && ValidFlags(r.flags, kernel)
      requires place <= |list.nodes| && if place == 0 then cursor == null else cursor == list.nodes[place - 1]
      requires Fits(list.spans, place, r.start, r.end)
      requires EntriesKept(pte0, dir.pte, r.start, r.end, {}) && EntriesFor(dir.pte, r.start, r.end, Some(r.flags))
      modifies list, list.NodeSet()`prev, list.NodeSet()`next, r`prev, r`next
      ensures Valid()
      ensures Remapped(old(list.spans), list.spans, r.start, r.end, Some(r.flags), {})
      ensures list.NodeSet() == old(list.NodeSet()) + {r} && KeepsSpans(old(list.spans), list.spans)
      ensures old(r.AsSpan()) in list.spans
    {
      hide Ordered, Remapped, Sane, Agree, EntriesKept, EntriesFor, RegionList.Linked, Directory.Valid, Fits;
      hide KeepsSpans;
      InsertDone(list.spans, place, r.AsSpan(), kernel, pte0, dir.pte);
      assert dir.Repr() !! list.NodeSet() + {r};
      list.InsertAfter(cursor, r, place);
    }

    /** page_table_map_anon, which takes only free pages. */
    method MapAnon(start: nat, size: nat, flags: PteFlags) returns (ok: bool)
      requires dir.Valid() && Absent(dir.pte, start, start + size)
      modifies dir.Repr()
      ensures dir.Valid() && Without(dir.pte, start, start + size) == old(dir.pte)
      ensures ok ==> Private(dir.pte, dir.frames.refs[..], start, start + size, flags)
      ensures !ok ==> dir.pte == old(dir.pte)
      ensures ok <==> Cost(old(dir.pde), start, start + size, true) <= NumFree(old(dir.frames.refs[..]))
      ensures UsedStay(old(dir.frames.refs[..]), dir.frames.refs[..])
    {
      ghost var counts0, pde0, pte0 := dir.frames.refs[..], dir.pde, dir.pte;
      hide Accounted, Extends, RolledBack, UsedStay, FrameAllocator.Valid, Cost, Spent;
      ok := dir.MapAnon(start, size, flags);
      forall p | p in pte0 ensures p in dir.pte && dir.pte[p] == pte0[p] {
        assert p in Without(dir.pte, start, start + size);
      }
      OwnedStay(counts0, pde0, pte0, dir.frames.refs[..], dir.pde, dir.pte);
    }

    /** The part of alloc, phys_map and virt_map after a place was found and its pages mapped. */
    method Occupy(region: Region, g: Gap, size: nat, f: Flags, ghost place: nat, ghost pte0: map<nat, Pte>)
      requires list.Valid() && dir.Valid() && Sane(list.spans, kernel) && Agree(list.spans, pte0)
      requires region !in list.nodes && ValidFlags(f, kernel) && g.Room?
      requires Fits(list.spans, place, g.start, g.start + size) && place <= |list.nodes|
      requires if place == 0 then g.cursor == null else g.cursor == list.nodes[place - 1]
      requires ReadyFor(pte0, dir.pte, g.start, g.start + size, f)
      modifies list, list.NodeSet()`prev, list.NodeSet()`next, region
      ensures Valid() && list.NodeSet() == old(list.NodeSet()) + {region} && KeepsSpans(old(list.spans), list.spans)
      ensures Remapped(old(list.spans), list.spans, g.start, g.start + size, Some(f), {})
      ensures EntriesKept(pte0, dir.pte, g.start, g.start + size, {}) && Span(g.start, g.start + size, f) in list.spans
    {
      hide Agree, Sane, Ordered, Remapped, EntriesKept, Directory.Valid, RegionList.Linked, Fits, ReadyFor;
      MappedFor(pte0, dir.pte, g.start, g.start + size, f);
      assert region !in dir.Repr();
      region.start, region.end, region.flags := g.start, g.start + size, f;
      LinkIn(g.cursor, region, place, pte0);
    }

    /** alloc, once it has a region object. */
    method AllocWith(region: Region, size: nat, f: Flags) returns (r: Result<nat>)
      requires Valid() && 0 < size && ValidFlags(f, kernel) && region !in list.nodes
      modifies list, list.NodeSet()`prev, list.NodeSet()`next, dir.Repr(), region
      ensures Valid() && list.NodeSet() == old(list.NodeSet()) + (if r.Ok? then {region} else {})
      ensures KeepsSpans(old(list.spans), list.spans)
      ensures r.Err? ==> r.error == ENOMEM && list.spans == old(list.spans) && dir.pte == old(dir.pte)
      ensures r.Ok? ==> Added(old(Now()), Now(), r.value, r.value + size, f, {})
      ensures r.Ok? && old(InRange()) ==> lo <= r.value && r.value + size <= hi
      ensures r.Ok? ==> FirstFit(old(list.spans), r.value, size, lo, hi)
      ensures r.Ok? && f.RW() ==> Private(dir.pte, dir.frames.refs[..], r.value, r.value + size, ToPte(f))
      ensures r.Ok? ==> Span(r.value, r.value + size, f) in list.spans
      ensures r.Ok? <==> Affords(old(Stock()), size, f.RW(), true)
      ensures UsedStay(old(dir.frames.refs[..]), dir.frames.refs[..])
    {
      hide Agree, Sane, Ordered, Remapped, Uncovered, EntriesKept, Directory.Valid, RegionList.Linked;
      hide FirstFit, Fits, KeepsSpans;
      hide Extends, RolledBack, NoneStuckAnew, Confined, UsedStay, Cost;
      AllStay(dir.frames.refs[..], list.spans);
      var g, place := FindRoom(size);
      if g.NoRoom? { return Err(ENOMEM); }
      AffordableAt(list.spans, dir.frames.refs[..], dir.pde, size, lo, hi, f.RW(), true, g.start);
      hide Affordable;
      ghost var pte0 := dir.pte;
      assert Without(pte0, g.start, g.start + size) == pte0;
      if f.RW() {
        var ok := MapAnon(g.start, size, ToPte(f));
        if !ok { return Err(ENOMEM); }
      }
      Occupy(region, g, size, f, place, pte0);
      r := Ok(g.start);
    }

    /** ensure_cache: a page of objects, whose own region is the first object of the page. */
    method EnsureCache() returns (ok: bool, ghost slab: set<nat>)
      requires Valid() && kernel
      modifies this, list, list.NodeSet()`prev, list.NodeSet()`next, dir.Repr()
      ensures Valid() && (ok ==> slabFree > 0) && (ok <==> old(CacheServes(true)))
      ensures old(slabFree) > 0 ==> Stock() == old(Stock())
      ensures slabFree == if ok && old(slabFree) == 0 then SLAB_OBJECTS else old(slabFree)
      ensures old(list.NodeSet()) <= list.NodeSet() && fresh(list.NodeSet() - old(list.NodeSet()))
      ensures KeepsSpans(old(list.spans), list.spans)
      ensures OnlySlab(old(Now()), Now(), slab)
      ensures forall p :: p in slab ==> old(kernel && slabFree == 0) && FirstFit(old(list.spans), p, 1, lo, hi)
      ensures UsedStay(old(dir.frames.refs[..]), dir.frames.refs[..])
      ensures old(InRange()) ==> forall p :: p in slab ==> lo <= p < hi
    {
      hide Affordable;
      hide Agree, Sane, Added, OnlySlab, Directory.Valid, RegionList.Valid, Confined, UsedStay, FirstFit, KeepsSpans;
      NothingChanged(Now());
      AllStay(dir.frames.refs[..], list.spans);
      slab := {};
      if slabFree > 0 { return true, slab; }
      var region := new Region(0, 0, SLAB_FLAGS);
      var r := AllocWith(region, 1, SLAB_FLAGS);
      if r.Err? { return false, slab; }
      slabFree := SLAB_OBJECTS;
      slab := {r.value};
      AddedAsSlab(old(Now()), Now(), r.value, slab);
      ok := true;
    }

    /**
      slab_cache_alloc(&vm_region_cache). For kernel_vm the cache may have to grow
      in this address space first; for any other, `outside` is its outcome.
    */
    method AllocRegion(outside: bool) returns (r: Region?, ghost slab: set<nat>)
      requires Valid()
      modifies this, list, list.NodeSet()`prev, list.NodeSet()`next, dir.Repr()
      ensures Valid() && (r != null ==> fresh(r) && r !in list.nodes)
      ensures r != null <==> old(CacheServes(outside))
      ensures slabFree == if !kernel || r == null then old(slabFree)
                          else (if old(slabFree) == 0 then SLAB_OBJECTS else old(slabFree)) - 1
      ensures !kernel || old(slabFree) > 0 ==> slab == {} && Stock() == old(Stock())
      ensures old(list.NodeSet()) <= list.NodeSet() && fresh(list.NodeSet() - old(list.NodeSet()))
      ensures KeepsSpans(old(list.spans), list.spans)
      ensures OnlySlab(old(Now()), Now(), slab)
      ensures forall p :: p in slab ==> old(kernel && slabFree == 0) && FirstFit(old(list.spans), p, 1, lo, hi)
      ensures UsedStay(old(dir.frames.refs[..]), dir.frames.refs[..])
      ensures old(InRange()) ==> InRange()
    {
      hide Affordable;
      hide Agree, Sane, OnlySlab, Directory.Valid, RegionList.Valid, Confined, UsedStay, FirstFit, KeepsSpans;
      NothingChanged(Now());
      AllStay(dir.frames.refs[..], list.spans);
      slab := {};
      var ok := outside;
      if kernel {
        ok, slab := EnsureCache();
        SlabInRange(old(Now()), Now(), slab, lo, hi);
        if ok { slabFree := slabFree - 1; }
      }
      if !ok { return null, slab; }
      r := new Region(0, 0, SLAB_FLAGS);
    }

    /** slab_cache_free(&vm_region_cache, region) */
    method FreeRegion()
      modifies this
      ensures kernel ==> slabFree == old(slabFree) + 1
    {
      if kernel { slabFree := slabFree + 1; }
    }

    /** alloc */
    method Alloc(size: nat, f: Flags, outside: bool)
      returns (r: Result<nat>, ghost slab: set<nat>, ghost mid: Stage)
      requires Valid() && 0 < size && ValidFlags(f, kernel)
      modifies Repr()
      ensures Valid() && fresh(list.NodeSet() - old(list.NodeSet()))
      ensures r.Err? ==> r.error == ENOMEM && OnlySlab(old(Now()), Now(), slab)
      ensures r.Ok? ==> Added(old(Now()), Now(), r.value, r.value + size, f, slab)
      ensures OnlySlab(old(Now()), mid.view, slab) && (!kernel || old(slabFree) > 0 ==> mid == old(Stock()))
      ensures r.Ok? <==> old(CacheServes(outside)) && Affords(mid, size, f.RW(), true)
      ensures r.Ok? ==> FirstFit(mid.view.spans, r.value, size, lo, hi)
      ensures old(InRange()) ==> InRange()
      ensures r.Ok? ==> Protected(dir.pte, r.value, r.value + size, f)
      ensures r.Ok? && f.RW() ==> Private(dir.pte, dir.frames.refs[..], r.value, r.value + size, ToPte(f))
      ensures r.Ok? ==> Span(r.value, r.value + size, f) in list.spans
    {
      hide Affordable, CacheServes;
      hide Agree, Sane, Added, OnlySlab, Directory.Valid, RegionList.Valid, Confined, Private, FirstFit, Protected;
      var region;
      region, slab := AllocRegion(outside);
      mid := Stock();
      if region == null { return Err(ENOMEM), slab, mid; }
      r := AllocWith(region, size, f);
      if r.Err? { FreeRegion(); return; }
      AddedAfter(old(Now()), mid.view, Now(), r.value, r.value + size, f, slab, lo, hi);
      AddedProtects(old(Now()), Now(), r.value, r.value + size, f, slab);
    }

    /** phys_map, once it has a region object. */
    method PhysMapWith(region: Region, frame: nat, size: nat, f: Flags) returns (r: Result<nat>)
      requires Valid() && 0 < size && ValidFlags(f, kernel) && region !in list.nodes
      requires FramesUsed(dir.frames.refs[..], frame, size)
      modifies list, list.NodeSet()`prev, list.NodeSet()`next, dir.Repr(), region
      ensures Valid() && list.NodeSet() == old(list.NodeSet()) + if r.Ok? then {region} else {}
      ensures r.Err? ==> r.error == ENOMEM && list.spans == old(list.spans) && dir.pte == old(dir.pte)
      ensures r.Ok? ==> Added(old(Now()), Now(), r.value, r.value + size, f, {})
      ensures r.Ok? && old(InRange()) ==> lo <= r.value && r.value + size <= hi
      ensures r.Ok? ==> FirstFit(old(list.spans), r.value, size, lo, hi)
      ensures r.Ok? <==> Affords(old(Stock()), size, f.RW(), false)
      ensures r.Ok? && f.RW() ==> Contiguous(dir.pte, r.value, size, frame)
    {
      hide Agree, Sane, Ordered, Remapped, Uncovered, EntriesKept, Directory.Valid, RegionList.Linked;
      hide FirstFit, Fits, KeepsSpans;
      hide Extends, RolledBack, Stuck, Confined, Cost, Spent, InOrder, FramesUsed, Contiguous;
      var g, place := FindRoom(size);
      if g.NoRoom? { return Err(ENOMEM); }
      AffordableAt(list.spans, dir.frames.refs[..], dir.pde, size, lo, hi, f.RW(), false, g.start);
      hide Affordable, ReadyFor, Without;
      ghost var pte0 := dir.pte;
      if f.RW() {
        var ok := dir.MapPhys(g.start, frame, size, ToPte(f));
        if !ok { return Err(ENOMEM); }
        PhysReady(pte0, dir.pte, g.start, size, frame, f);
      } else {
        NothingReady(pte0, g.start, g.start + size, f);
      }
      Occupy(region, g, size, f, place, pte0);
      r := Ok(g.start);
    }

    /** phys_map: the pages at the address returned are the given physical ones, in order. */
    method PhysMap(frame: nat, size: nat, f: Flags, outside: bool)
      returns (r: Result<nat>, ghost slab: set<nat>, ghost mid: Stage)
      requires Valid() && 0 < size && ValidFlags(f, kernel) && FramesUsed(dir.frames.refs[..], frame, size)
      modifies Repr()
      ensures Valid() && fresh(list.NodeSet() - old(list.NodeSet()))
      ensures r.Err? ==> r.error == ENOMEM && OnlySlab(old(Now()), Now(), slab)
      ensures r.Ok? ==> Added(old(Now()), Now(), r.value, r.value + size, f, slab)
      ensures OnlySlab(old(Now()), mid.view, slab) && (!kernel || old(slabFree) > 0 ==> mid == old(Stock()))
      ensures r.Ok? <==> old(CacheServes(outside)) && Affords(mid, size, f.RW(), false)
      ensures r.Ok? ==> FirstFit(mid.view.spans, r.value, size, lo, hi)
      ensures old(InRange()) ==> InRange()
      ensures r.Ok? ==> Protected(dir.pte, r.value, r.value + size, f)
      ensures r.Ok? && f.RW() ==> Contiguous(dir.pte, r.value, size, frame)
    {
      hide Affordable, CacheServes;
      hide Agree, Sane, Added, OnlySlab, Directory.Valid, RegionList.Valid, Confined, Contiguous, UsedStay;
      hide FramesUsed, FirstFit, Protected;
      ghost var counts0 := dir.frames.refs[..];
      var region;
      region, slab := AllocRegion(outside);
      mid := Stock();
      if region == null { return Err(ENOMEM), slab, mid; }
      FramesUsedStay(counts0, dir.frames.refs[..], frame, size);
      r := PhysMapWith(region, frame, size, f);
      if r.Err? { FreeRegion(); return; }
      AddedAfter(old(Now()), mid.view, Now(), r.value, r.value + size, f, slab, lo, hi);
      AddedProtects(old(Now()), Now(), r.value, r.value + size, f, slab);
    }

    /** The shared part of virt_map, once it has a region object. */
    method ShareWith(region: Region, src: nat, size: nat, f: Flags) returns (r: Result<nat>)
      requires Valid() && 0 < size && ValidFlags(f, kernel) && f.RW() && region !in list.nodes
      requires Present(dir.pte, src, src + size)
      modifies list, list.NodeSet()`prev, list.NodeSet()`next, dir.Repr(), region
      ensures Valid() && list.NodeSet() == old(list.NodeSet()) + if r.Ok? then {region} else {}
      ensures r.Err? ==> r.error == ENOMEM && list.spans == old(list.spans) && dir.pte == old(dir.pte)
      ensures r.Ok? ==> Added(old(Now()), Now(), r.value, r.value + size, f, {})
      ensures r.Ok? && old(InRange()) ==> lo <= r.value && r.value + size <= hi
      ensures r.Ok? ==> FirstFit(old(list.spans), r.value, size, lo, hi)
      ensures r.Ok? <==> Affords(old(Stock()), size, true, false)
      ensures r.Ok? ==> SameFrames(old(dir.pte), src, dir.pte, r.value, size)
    {
      hide Agree, Sane, Ordered, Remapped, Uncovered, EntriesKept, Directory.Valid, RegionList.Linked;
      hide FirstFit, Fits, KeepsSpans;
      hide Extends, RolledBack, Stuck, Confined, Cost, Spent, Copied, SameFrames;
      var g, place := FindRoom(size);
      if g.NoRoom? { return Err(ENOMEM); }
      AffordableAt(list.spans, dir.frames.refs[..], dir.pde, size, lo, hi, true, false, g.start);
      hide Affordable, ReadyFor, Without;
      ghost var pte0 := dir.pte;
      var ok := dir.ShallowCopy(g.start, src, size, ToPte(f));
      if !ok { return Err(ENOMEM); }
      CopyReady(pte0, dir.pte, src, g.start, size, f);
      Occupy(region, g, size, f, place, pte0);
      r := Ok(g.start);
    }

    /**
      virt_map with VM_SHARED: the pages at the address returned show the same
      physical pages as those at `src`.
    */
    method Share(src: nat, size: nat, f: Flags, outside: bool)
      returns (r: Result<nat>, ghost slab: set<nat>, ghost mid: Stage)
      requires Valid() && 0 < size && ValidFlags(f, kernel) && f.shared && Present(dir.pte, src, src + size)
      modifies Repr()
      ensures Valid() && fresh(list.NodeSet() - old(list.NodeSet()))
      ensures r.Err? ==> r.error == ENOMEM && OnlySlab(old(Now()), Now(), slab)
      ensures r.Ok? ==> Added(old(Now()), Now(), r.value, r.value + size, f, slab)
      ensures OnlySlab(old(Now()), mid.view, slab) && (!kernel || old(slabFree) > 0 ==> mid == old(Stock()))
      ensures r.Ok? <==> old(CacheServes(outside)) && Affords(mid, size, true, false)
      ensures r.Ok? ==> FirstFit(mid.view.spans, r.value, size, lo, hi)
      ensures old(InRange()) ==> InRange()
      ensures r.Ok? ==> Protected(dir.pte, r.value, r.value + size, f)
      ensures r.Ok? ==> SameFrames(old(dir.pte), src, dir.pte, r.value, size)
    {
      hide Affordable, CacheServes;
      hide Agree, Sane, Added, OnlySlab, Directory.Valid, RegionList.Valid, Confined, UsedStay, FirstFit, KeepsSpans;
      hide Protected;
      var region;
      region, slab := AllocRegion(outside);
      mid := Stock();
      if region == null { return Err(ENOMEM), slab, mid; }
      EntriesStay(old(Now()), Now(), slab);
      hide SameFrames;
      r := ShareWith(region, src, size, f);
      if r.Err? { FreeRegion(); return; }
      SameFramesStay(old(dir.pte), mid.view.pte, src, dir.pte, r.value, size);
      AddedAfter(old(Now()), mid.view, Now(), r.value, r.value + size, f, slab, lo, hi);
      AddedProtects(old(Now()), Now(), r.value, r.value + size, f, slab);
    }

    /** alloc_at, where no region reaches over the range. */
    method AllocAtWith(region: Region, prev: Region?, a: nat, size: nat, f: Flags, ghost place: nat) returns (ok: bool)
      requires Valid() && 0 < size && ValidFlags(f, kernel) && region !in list.nodes
      requires Uncovered(list.spans, a, a + size) && Fits(list.spans, place, a, a + size) && place <= |list.nodes|
      requires prev == if place == 0 then null else list.nodes[place - 1]
      modifies list, list.NodeSet()`prev, list.NodeSet()`next, dir.Repr(), region
      ensures Valid() && list.NodeSet() == old(list.NodeSet()) + if ok then {region} else {}
      ensures !ok ==> list.spans == old(list.spans) && dir.pte == old(dir.pte)
      ensures ok ==> Added(old(Now()), Now(), a, a + size, f, {})
      ensures ok <==> f.RW() ==> Cost(old(dir.pde), a, a + size, true) <= NumFree(old(dir.frames.refs[..]))
      ensures ok && f.RW() ==> Private(dir.pte, dir.frames.refs[..], a, a + size, ToPte(f))
    {
      hide Agree, Sane, Ordered, Remapped, Uncovered, EntriesKept, Directory.Valid, RegionList.Linked, Fits, UsedStay;
      hide Cost;
      UncoveredAbsent(list.spans, dir.pte, a, a + size);
      ghost var pte0 := dir.pte;
      assert Without(pte0, a, a + size) == pte0;
      if f.RW() {
        ok := MapAnon(a, size, ToPte(f));
        if !ok { return; }
      }
      Occupy(region, Room(prev, a), size, f, place, pte0);
      ok := true;
    }

    /**
      alloc_at compares only with the regions that start before `a`: a caller must
      not ask for a range that a region starts in, nor one where the object cache
      would put its own next page.
    */
    method AllocAt(a: nat, size: nat, f: Flags, outside: bool) returns (r: Result<nat>, ghost slab: set<nat>)
      requires Valid() && 0 < size && ValidFlags(f, kernel)
      requires NoneStarts(list.spans, a, size)
      requires kernel && slabFree == 0 ==> forall p :: a <= p < a + size ==> !FirstFit(list.spans, p, 1, lo, hi)
      modifies Repr()
      ensures Valid() && fresh(list.NodeSet() - old(list.NodeSet()))
      ensures r.Err? ==> OnlySlab(old(Now()), Now(), slab) && r.error in {ENOMEM, EEXIST}
      ensures r.Ok? ==> r.value == a && Added(old(Now()), Now(), a, a + size, f, slab)
      ensures r.Err? && r.error == EEXIST ==> FlagsAt(old(list.spans), a).Some?
      ensures r.Ok? ==> FlagsAt(old(list.spans), a).None?
      ensures !kernel || old(slabFree) > 0 ==> (r.Ok? <==>
        && old(CacheServes(outside)) && FlagsAt(old(list.spans), a).None?
        && (f.RW() ==> Cost(old(dir.pde), a, a + size, true) <= NumFree(old(dir.frames.refs[..]))))
      ensures old(InRange()) && lo <= a && a + size <= hi ==> InRange()
      ensures r.Ok? ==> Protected(dir.pte, a, a + size, f)
      ensures r.Ok? && f.RW() ==> Private(dir.pte, dir.frames.refs[..], a, a + size, ToPte(f))
    {
      hide Agree, Sane, Added, OnlySlab, Directory.Valid, RegionList.Linked, Confined, Private, FirstFit, UsedStay;
      hide Affordable, CacheServes, Cost, Ordered, Uncovered, KeepsSpans, NoneStarts, Straddled, FlagsAt, Protected;
      var region;
      region, slab := AllocRegion(outside);
      if region == null { return Err(ENOMEM), slab; }
      ghost var mid := Now();
      ClashIffCovered(old(Now()), mid, Straddled(list.spans, a), a, size, slab);
      r := TryAt(region, a, size, f);
      if r.Err? { FreeRegion(); return; }
      AddedAfter(old(Now()), mid, Now(), a, a + size, f, slab, lo, hi);
      AddedProtects(old(Now()), Now(), a, a + size, f, slab);
    }

    /** alloc_at, once it has a region object. */
    method TryAt(region: Region, a: nat, size: nat, f: Flags) returns (r: Result<nat>)
      requires Valid() && 0 < size && ValidFlags(f, kernel) && region !in list.nodes
      requires Straddled(list.spans, a) || Uncovered(list.spans, a, a + size)
      modifies list, list.NodeSet()`prev, list.NodeSet()`next, dir.Repr(), region
      ensures Valid() && list.NodeSet() == old(list.NodeSet()) + if r.Ok? then {region} else {}
      ensures r.Err? ==> list.spans == old(list.spans) && dir.pte == old(dir.pte) && r.error in {ENOMEM, EEXIST}
      ensures r == Err(EEXIST) <==> Straddled(old(list.spans), a)
      ensures r.Ok? ==> r.value == a && Added(old(Now()), Now(), a, a + size, f, {})
      ensures r == Err(ENOMEM) <==>
        && !Straddled(old(list.spans), a) && f.RW()
        && Cost(old(dir.pde), a, a + size, true) > NumFree(old(dir.frames.refs[..]))
      ensures r.Ok? && f.RW() ==> Private(dir.pte, dir.frames.refs[..], a, a + size, ToPte(f))
    {
      hide Agree, Sane, Added, Directory.Valid, RegionList.Linked, Private, Ordered, Uncovered, Straddled;
      hide Divided, Fits, Cost;
      var clash, prev, place := list.FindBefore(a);
      if clash { return Err(EEXIST); }
      UncoveredFits(list.spans, place, a, a + size);
      var ok := AllocAtWith(region, prev, a, size, f, place);
      r := if ok then Ok(a) else Err(ENOMEM);
    }

    // ------------------------------------------------------- changing part of a region

    /** What holds of a view that the list and the table show. */
    ghost predicate Describes(x: View) {
      Ordered(x.spans) && Sane(x.spans, kernel) && Agree(x.spans, x.pte)
    }

    /** y is x after the object cache may have grown; region i of it is s. */
    ghost predicate Settled(x: View, y: View, i: nat, s: Span, slab: set<nat>) {
      && OnlySlab(x, y, slab) && Describes(y)
      && i < |y.spans| && y.spans[i] == s
      && (Confined(x.spans, lo, hi) ==> Confined(y.spans, lo, hi))
    }

    lemma SettledTwice(x: View, y: View, z: View, i: nat, j: nat, s: Span, slab1: set<nat>, slab2: set<nat>)
      requires Settled(x, y, i, s, slab1) && Settled(y, z, j, s, slab2)
      ensures Settled(x, z, j, s, slab1 + slab2)
    {
      hide Describes, OnlySlab, Confined;
      SlabTwice(x, y, z, slab1, slab2);
    }

    /** A region object while region r is being worked on: i is the place of r afterwards. */
    method Obtain(r: Region, outside: bool) returns (q: Region?, ghost i: nat, ghost slab: set<nat>)
      requires Valid() && r in list.nodes
      modifies this, list, list.NodeSet()`prev, list.NodeSet()`next, dir.Repr()
      ensures Valid() && (q != null ==> fresh(q) && q !in list.nodes)
      ensures i < |list.nodes| && list.nodes[i] == r && Settled(old(Now()), Now(), i, r.AsSpan(), slab)
      ensures old(list.NodeSet()) <= list.NodeSet() && fresh(list.NodeSet() - old(list.NodeSet()))
    {
      hide Agree, Sane, OnlySlab, Directory.Valid, Confined, UsedStay, FirstFit, KeepsSpans, Ordered, RegionList.Linked;
      q, slab := AllocRegion(outside);
      assert r in list.NodeSet();
      i := list.PlaceOf(r);
    }

    /** Region r is split in two: [start, c) with flags f remains, [d, end) with flags g is held by q. */
    method SplitAt(r: Region, ghost i: nat, c: nat, f: Flags, d: nat, g: Flags, q: Region)
      requires list.Linked() && dir.Valid() && i < |list.nodes| && list.nodes[i] == r && q !in list.nodes
      modifies list, list.NodeSet(), q
      ensures list.Linked() && dir.Valid() && list.NodeSet() == old(list.NodeSet()) + {q}
      ensures list.spans == old(list.spans[..i] + [Span(r.start, c, f), Span(d, r.end, g)] + list.spans[i + 1..])
    {
      hide Directory.Valid, RegionList.Linked;
      assert dir.Repr() !! list.NodeSet() + {q};
      assert list.Linked();
      q.start, q.end, q.flags := d, r.end, g;
      list.Split(r, i, Span(r.start, c, f), q);
    }

    /** set_flags splits region r in three, of which [b, c) gets flags f. */
    method SplitAround(r: Region, ghost i: nat, b: nat, c: nat, f: Flags, q1: Region, q2: Region)
      requires list.Linked() && dir.Valid() && i < |list.nodes| && list.nodes[i] == r
      requires q1 !in list.nodes && q2 !in list.nodes && q1 != q2
      modifies list, list.NodeSet(), q1, q2
      ensures list.Linked() && dir.Valid() && list.NodeSet() == old(list.NodeSet()) + {q1, q2}
      ensures list.spans == old(list.spans[..i]
                                + [Span(r.start, b, r.flags), Span(b, c, f), Span(c, r.end, r.flags)]
                                + list.spans[i + 1..])
    {
      hide Directory.Valid, RegionList.Linked;
      assert dir.Repr() !! list.NodeSet() + {q1, q2};
      q1.start, q1.end, q1.flags := b, c, f;
      q2.start, q2.end, q2.flags := c, r.end, r.flags;
      list.SplitTwice(r, i, Span(r.start, b, r.flags), q1, q2);
    }

    /** set_flags on the first or the last pages of region r. */
    method RecolourSide(r: Region, a: nat, b: nat, f: Flags, outside: bool)
      returns (ok: bool, ghost mid: View, ghost i: nat, ghost slab: set<nat>)
      requires Valid() && r in list.nodes && (r.start == a < b < r.end || r.start < a < b == r.end)
      modifies Repr()
      ensures list.Linked() && dir.Valid() && dir.pte == mid.pte && fresh(list.NodeSet() - old(list.NodeSet()))
      ensures Settled(old(Now()), mid, i, old(r.AsSpan()), slab)
      ensures list.spans == if ok then WithCut(mid.spans, i, a, b, [Span(a, b, f)]) else mid.spans
    {
      hide Settled, Directory.Valid, RegionList.Linked, Ordered, WithCut, Agree, Sane;
      var q;
      q, i, slab := Obtain(r, outside);
      mid := Now();
      if q == null { return false, mid, i, slab; }
      assert i < |mid.spans| && mid.spans[i] == r.AsSpan() by { SettledAt(old(Now()), mid, i, r.AsSpan(), slab); }
      if r.start == a {
        FrontCut(mid.spans, i, b, f);
        SplitAt(r, i, b, f, b, r.flags, q);
      } else {
        BackCut(mid.spans, i, a, f);
        SplitAt(r, i, a, r.flags, a, f, q);
      }
      ok := true;
    }

    lemma SettledAt(x: View, y: View, i: nat, s: Span, slab: set<nat>)
      requires Settled(x, y, i, s, slab)
      ensures i < |y.spans| && y.spans[i] == s && Describes(y) && OnlySlab(x, y, slab)
      ensures Confined(x.spans, lo, hi) ==> Confined(y.spans, lo, hi)
    {
    }

    /** set_flags on pages in the middle of region r. */
    method RecolourMiddle(r: Region, a: nat, b: nat, f: Flags, outside1: bool, outside2: bool)
      returns (ok: bool, ghost mid: View, ghost i: nat, ghost slab: set<nat>)
      requires Valid() && r in list.nodes && r.start < a < b < r.end
      modifies Repr()
      ensures list.Linked() && dir.Valid() && dir.pte == mid.pte && fresh(list.NodeSet() - old(list.NodeSet()))
      ensures Settled(old(Now()), mid, i, old(r.AsSpan()), slab)
      ensures list.spans == if ok then WithCut(mid.spans, i, a, b, [Span(a, b, f)]) else mid.spans
    {
      hide Settled, Directory.Valid, RegionList.Linked, Ordered, WithCut, Agree, Sane;
      var q1;
      q1, i, slab := Obtain(r, outside1);
      mid := Now();
      if q1 == null { return false, mid, i, slab; }
      ghost var i1, slab1, mid1 := i, slab, mid;
      var q2;
      q2, i, slab := Obtain(r, outside2);
      mid := Now();
      SettledTwice(old(Now()), mid1, mid, i1, i, r.AsSpan(), slab1, slab);
      slab := slab1 + slab;
      if q2 == null { FreeRegion(); return false, mid, i, slab; }
      assert i < |mid.spans| && mid.spans[i] == r.AsSpan() by { SettledAt(old(Now()), mid, i, r.AsSpan(), slab); }
      MiddleCut(mid.spans, i, a, b, f);
      SplitAround(r, i, a, b, f, q1, q2);
      ok := true;
    }

    /** The list part of set_flags, in the four ways the range can lie in region r. */
    method Recolour(r: Region, a: nat, b: nat, f: Flags, outside1: bool, outside2: bool)
      returns (ok: bool, ghost mid: View, ghost i: nat, ghost slab: set<nat>)
      requires Valid() && r in list.nodes && r.start <= a < b <= r.end
      modifies Repr()
      ensures list.Linked() && dir.Valid() && dir.pte == mid.pte && fresh(list.NodeSet() - old(list.NodeSet()))
      ensures Settled(old(Now()), mid, i, old(r.AsSpan()), slab)
      ensures list.spans == if ok then WithCut(mid.spans, i, a, b, [Span(a, b, f)]) else mid.spans
      ensures old(r.start) == a && b == old(r.end) ==>
        ok && slab == {} && dir.frames.refs[..] == old(dir.frames.refs[..])
    {
      hide Agree, Sane, OnlySlab, Directory.Valid, RegionList.Linked, Confined, Ordered;
      if r.start == a && b == r.end {
        NothingChanged(Now());
        mid, slab := Now(), {};
        i := list.PlaceOf(r);
        list.Assign(r, i, a, b, f);
        WholeCut(mid.spans, i, f);
        ok := true;
      } else if r.start == a || r.end == b {
        ok, mid, i, slab := RecolourSide(r, a, b, f, outside1);
      } else {
        ok, mid, i, slab := RecolourMiddle(r, a, b, f, outside1, outside2);
      }
    }

    /** The table follows the list: both changed on [a, b) of region i and agree again. */
    lemma CutDone(x: View, mid: View, k: nat, i: nat, a: nat, b: nat, f: Option<Flags>, pte: map<nat, Pte>,
                  slab: set<nat>)
      requires Ordered(x.spans) && k < |x.spans| && x.spans[k].start <= a < b <= x.spans[k].end
      requires Settled(x, mid, i, x.spans[k], slab) && (f.Some? ==> ValidFlags(f.value, kernel))
      requires EntriesKept(mid.pte, pte, a, b, {}) && EntriesFor(pte, a, b, f)
      ensures var w := WithCut(mid.spans, i, a, b, Piece(a, b, f));
        Describes(View(w, pte)) && Changed(x, View(w, pte), a, b, f, slab)
      ensures Confined(x.spans, lo, hi) ==> Confined(WithCut(mid.spans, i, a, b, Piece(a, b, f)), lo, hi)
    {
      var w := WithCut(mid.spans, i, a, b, Piece(a, b, f));
      CutRemaps(mid.spans, i, a, b, Piece(a, b, f), f);
      CutSane(mid.spans, i, a, b, f, kernel);
      SlabApart(x, mid, k, a, b, slab);
      CutConfined(mid.spans, w, a, b, f, lo, hi, i);
      hide Ordered, Remapped, EntriesKept, EntriesFor, Sane, Agree, Confined, WithCut;
      AgreeRemapped(mid.spans, w, mid.pte, pte, a, b, f);
      ThenRemaps(x.spans, mid.spans, w, a, b, f, slab);
      ThenKept(x.pte, mid.pte, pte, a, b, slab);
    }

    /** set_flags once it knows that there is something to do. */
    method Repaint(region: Region, ghost k: nat, a: nat, b: nat, f: Flags, outside1: bool, outside2: bool)
      returns (r: Result<()>, ghost slab: set<nat>)
      requires Valid() && k < |list.nodes| && list.nodes[k] == region && list.spans[k] == region.AsSpan()
      requires region.start <= a < b <= region.end && ValidFlags(f, kernel) && region.flags.RW()
      modifies Repr()
      ensures Valid() && fresh(list.NodeSet() - old(list.NodeSet()))
      ensures r.Ok? ==> Changed(old(Now()), Now(), a, b, Some(f), slab)
      ensures r.Ok? && f.RW() ==> SameFrames(old(dir.pte), a, dir.pte, a, b - a)
      ensures r.Err? ==> r.error == ENOMEM && OnlySlab(old(Now()), Now(), slab)
      ensures old(InRange()) ==> InRange()
      ensures old(region.start) == a && b == old(region.end) ==>
        r.Ok? && slab == {} && (f.RW() ==> dir.frames.refs[..] == old(dir.frames.refs[..]))
    {
      hide Agree, Sane, OnlySlab, Directory.Valid, RegionList.Linked, Confined, Ordered, WithCut, Changed;
      ghost var x := Now();
      ghost var mid, i;
      var ok;
      ok, mid, i, slab := Recolour(region, a, b, f, outside1, outside2);
      if !ok { return Err(ENOMEM), slab; }
      RegionPresent(mid, i, a, b);
      EntriesStay(x, mid, slab);
      RegionPresent(x, k, a, b);
      if !f.RW() {
        dir.Unmap(a, b - a);
        KeptWithout(mid.pte, dir.pte, a, b);
      } else {
        dir.SetFlags(a, b - a, ToPte(f));
      }
      CutDone(x, mid, k, i, a, b, Some(f), dir.pte, slab);
      r := Ok(());
    }

    /** set_flags */
    method SetFlags(a: nat, b: nat, f: Flags, outside1: bool, outside2: bool)
      returns (r: Result<()>, ghost slab: set<nat>)
      requires Valid() && a < b && ValidFlags(f, kernel) && Changeable(list.spans, a, b, f)
      modifies Repr()
      ensures Valid() && fresh(list.NodeSet() - old(list.NodeSet()))
      ensures r.Ok? ==> Changed(old(Now()), Now(), a, b, Some(f), slab)
      ensures r.Ok? ==> Protected(dir.pte, a, b, f)
      ensures r.Ok? && f.RW() ==> SameFrames(old(dir.pte), a, dir.pte, a, b - a)
      ensures r.Err? ==> OnlySlab(old(Now()), Now(), slab) && r.error in {ENOENT, EINVAL, ENOMEM}
      ensures r == Err(ENOENT) <==> FlagsAt(old(list.spans), a).None?
      ensures r == Err(EINVAL) <==> BadChange(old(list.spans), a, b, f)
      ensures IsRegion(old(list.spans), a, b) ==> r != Err(ENOMEM) && slab == {}
      ensures IsRegion(old(list.spans), a, b) && f.RW() ==> dir.frames.refs[..] == old(dir.frames.refs[..])
      ensures old(InRange()) ==> InRange()
    {
      hide Agree, Sane, OnlySlab, Directory.Valid, RegionList.Linked, Confined, Ordered, Changed, BadChange;
      hide FlagsAt, IsRegion, Protected;
      slab := {};
      NothingChanged(Now());
      var region, k := list.Find(a);
      if region == null {
        NoBadChange(list.spans, a, b, f);
        return Err(ENOENT), slab;
      }
      BadChangeAt(list.spans, k, a, b, f);
      if IsRegion(list.spans, a, b) { IsRegionAt(list.spans, k, a, b); }
      if region.end < b { return Err(EINVAL), slab; }
      if region.flags == f {
        SameFlags(Now(), k, a, b);
        KeptFrames(Now(), k, a, b);
        ChangedProtects(Now(), Now(), a, b, f, slab);
        return Ok(()), slab;
      }
      if !region.flags.RW() && f.RW() { return Err(EINVAL), slab; }
      r, slab := Repaint(region, k, a, b, f, outside1, outside2);
      if r.Ok? { ChangedProtects(old(Now()), Now(), a, b, f, slab); }
    }

    /**
      virt_map without VM_SHARED: pages of its own, writable for the copy and
      given the flags asked for afterwards. set_flags, whose result is not
      looked at, cannot fail here.
    */
    method CopyMap(size: nat, f: Flags, outside: bool) returns (r: Result<nat>, ghost slab: set<nat>)
      requires Valid() && 0 < size && ValidFlags(f, kernel) && f.read && !f.shared
      modifies Repr()
      ensures Valid() && fresh(list.NodeSet() - old(list.NodeSet()))
      ensures r.Err? ==> r.error == ENOMEM && OnlySlab(old(Now()), Now(), slab)
      ensures r.Ok? ==> Added(old(Now()), Now(), r.value, r.value + size, f, slab)
      ensures old(InRange()) ==> InRange()
      ensures r.Ok? ==> Protected(dir.pte, r.value, r.value + size, f)
      ensures r.Ok? ==> Private(dir.pte, dir.frames.refs[..], r.value, r.value + size, ToPte(f))
    {
      hide Agree, Sane, Added, OnlySlab, Changed, Directory.Valid, RegionList.Linked, Confined, Private;
      hide FirstFit, Ordered;
      hide Changeable, BadChange, FlagsAt, IsRegion, SameFrames, Protected;
      var writable := f.(write := true);
      ghost var mid;
      r, slab, mid := Alloc(size, writable, outside);
      if r.Err? || f.write { return; }
      ghost var made, a, b := Now(), r.value, r.value + size;
      RegionChangeable(list.spans, a, b, writable, f);
      ghost var counts := dir.frames.refs[..];
      var rc, _ := SetFlags(r.value, r.value + size, f, outside, outside);
      AddedThenChanged(old(Now()), made, Now(), a, b, writable, f, slab);
      PrivateRecoloured(made, Now(), counts, a, b, writable, f, kernel);
    }

    /** The list part of unmap where the hole reaches an end of the region. */
    method ShrinkOrRemove(region: Region, ghost k: nat, a: nat, b: nat)
      requires list.Linked() && dir.Valid() && k < |list.nodes| && list.nodes[k] == region
      requires list.spans[k] == region.AsSpan()
      requires region.start <= a < b <= region.end && (region.start == a || region.end == b)
      modifies this, list, list.NodeSet()
      ensures list.Linked() && dir.Valid() && list.NodeSet() <= old(list.NodeSet())
      ensures list.spans == WithCut(old(list.spans), k, a, b, [])
    {
      hide Directory.Valid, RegionList.Linked, WithCut;
      HoleCut(list.spans, k, a, b);
      assert dir.Repr() !! list.NodeSet();
      if region.start == a && region.end == b {
        list.Remove(region, k);
        FreeRegion();
      } else if region.start == a {
        list.Assign(region, k, b, region.end, region.flags);
      } else {
        list.Assign(region, k, region.start, a, region.flags);
      }
    }

    /** unmap where the hole reaches an end of the region: no region object is needed. */
    method PunchSide(region: Region, ghost k: nat, a: nat, b: nat)
      requires Valid() && k < |list.nodes| && list.nodes[k] == region && list.spans[k] == region.AsSpan()
      requires region.start <= a < b <= region.end && region.flags.RW() && (region.start == a || region.end == b)
      modifies Repr()
      ensures Valid() && list.NodeSet() <= old(list.NodeSet())
      ensures Changed(old(Now()), Now(), a, b, None, {})
      ensures old(InRange()) ==> InRange()
    {
      hide Agree, Sane, OnlySlab, Directory.Valid, RegionList.Linked, Confined, Ordered, WithCut, Changed;
      hide Settled, EntriesKept;
      ghost var x := Now();
      NothingSettled(x, k);
      RegionPresent(x, k, a, b);
      dir.Unmap(a, b - a);
      KeptWithout(x.pte, dir.pte, a, b);
      CutDone(x, x, k, k, a, b, None, dir.pte, {});
      ShrinkOrRemove(region, k, a, b);
    }

    lemma NothingSettled(x: View, k: nat)
      requires Describes(x) && k < |x.spans|
      ensures Settled(x, x, k, x.spans[k], {})
    {
      NothingChanged(x);
    }

    /** unmap in the middle of a region. */
    method PunchMiddle(region: Region, ghost k: nat, a: nat, b: nat, outside: bool)
      returns (r: Result<()>, ghost slab: set<nat>)
      requires Valid() && k < |list.nodes| && list.nodes[k] == region && list.spans[k] == region.AsSpan()
      requires region.start < a < b < region.end && region.flags.RW()
      modifies Repr()
      ensures Valid() && fresh(list.NodeSet() - old(list.NodeSet()))
      ensures r.Ok? ==> Changed(old(Now()), Now(), a, b, None, slab)
      ensures r.Err? ==> r.error == ENOMEM && OnlySlab(old(Now()), Now(), slab)
      ensures old(InRange()) ==> InRange()
    {
      hide Agree, Sane, OnlySlab, Directory.Valid, RegionList.Linked, Confined, Ordered, WithCut, Changed, EntriesKept;
      ghost var x := Now();
      ghost var i;
      var q;
      q, i, slab := Obtain(region, outside);
      if q == null { return Err(ENOMEM), slab; }
      ghost var mid := Now();
      RegionPresent(mid, i, a, b);
      HoleCut(mid.spans, i, a, b);
      dir.Unmap(a, b - a);
      KeptWithout(mid.pte, dir.pte, a, b);
      CutDone(x, mid, k, i, a, b, None, dir.pte, slab);
      SplitAt(region, i, a, region.flags, b, region.flags, q);
      r := Ok(());
    }

    /** unmap: exactly the pages of [a, b) lose their region and their entries. */
    method Unmap(a: nat, b: nat, outside: bool) returns (r: Result<()>, ghost slab: set<nat>)
      requires Valid() && a < b && Unmappable(list.spans, a, b)
      modifies Repr()
      ensures Valid() && fresh(list.NodeSet() - old(list.NodeSet()))
      ensures r.Ok? ==> Changed(old(Now()), Now(), a, b, None, slab)
      ensures r.Err? ==> OnlySlab(old(Now()), Now(), slab) && r.error in {ENOENT, EINVAL, ENOMEM}
      ensures r == Err(ENOENT) <==> FlagsAt(old(list.spans), a).None?
      ensures r == Err(EINVAL) <==> EndsBefore(old(list.spans), a, b)
      ensures old(InRange()) ==> InRange()
    {
      hide Agree, Sane, OnlySlab, Directory.Valid, RegionList.Linked, Confined, Ordered, Changed, EndsBefore, FlagsAt;
      slab := {};
      NothingChanged(Now());
      var region, k := list.Find(a);
      if region == null {
        NoneEndsBefore(list.spans, a, b);
        return Err(ENOENT), slab;
      }
      EndsBeforeAt(list.spans, k, a, b);
      if region.end < b { return Err(EINVAL), slab; }
      if region.start == a || region.end == b {
        PunchSide(region, k, a, b);
        r := Ok(());
      } else {
        r, slab := PunchMiddle(region, k, a, b, outside);
      }
    }

    /** vm_free: the region that starts at page p, whole. */
    method Free(p: nat) returns (r: Result<()>)
      requires Valid() && forall i :: 0 <= i < |list.spans| && list.spans[i].start == p ==> list.spans[i].flags.RW()
      modifies Repr()
      ensures Valid() && list.NodeSet() <= old(list.NodeSet())
      ensures r.Err? ==> Now() == old(Now()) && r.error == if FlagsAt(old(list.spans), p).None? then ENOENT else EINVAL
      ensures r.Ok? <==> exists i :: 0 <= i < |old(list.spans)| && old(list.spans)[i].start == p
      ensures r.Ok? ==> exists i :: 0 <= i < |old(list.spans)| && old(list.spans)[i].start == p
                          && Changed(old(Now()), Now(), p, old(list.spans)[i].end, None, {})
      ensures old(InRange()) ==> InRange()
    {
      hide Agree, Sane, OnlySlab, Directory.Valid, RegionList.Linked, Confined, Changed;
      var region, k := list.Find(p);
      FlagsAtMeaning(list.spans, p);
      if region == null { return Err(ENOENT); }
      if region.start != p { return Err(EINVAL); }
      PunchSide(region, k, region.start, region.end);
      r := Ok(());
    }

    /** The page table part of a moving resize: share the old pages, add new ones, drop the old entries. */
    method MoveEntries(s: Span, a: nat, n: nat) returns (ok: bool)
      requires dir.Valid() && s.start < s.end && s.end - s.start < n && s.flags.RW()
      requires Present(dir.pte, s.start, s.end) && Absent(dir.pte, a, a + n)
      modifies dir.Repr()
      ensures dir.Valid()
      ensures if ok then EntriesMoved(old(dir.pte), dir.pte, s, a, n) else dir.pte == old(dir.pte)
      ensures ok ==> AddedPrivate(dir.pte, dir.frames.refs[..], s, a, n)
    {
      hide Directory.Valid, Extends, RolledBack, Stuck, NoneStuckAnew, EntriesMoved, Doubled, Cost, Spent, Copied;
      ghost var pte0 := dir.pte;
      var size := s.end - s.start;
      ok := dir.ShallowCopy(a, s.start, size, ToPte(s.flags));
      if !ok { return; }
      ghost var pte1 := dir.pte;
      CopiedPresent(pte0, s.start, pte1, a, a + size, ToPte(s.flags));
      StillAbsent(pte0, pte1, a, a + size, a + n);
      hide Without;
      ok := dir.MapAnon(a + size, n - size, ToPte(s.flags));
      if !ok {
        dir.Unmap(a, size);
        return;
      }
      ghost var pte2 := dir.pte;
      TwoMappings(pte0, pte1, pte2, s, a, size, n);
      Apart(pte0, s, a, n);
      UnmapOthers(s.start, size, a + size, a + n, ToPte(s.flags));
      MoveDone(pte0, pte2, dir.pte, s, a, n);
    }

    /** page_table_unmap beside pages that are private. */
    method UnmapOthers(start: nat, size: nat, ghost from: nat, ghost to: nat, ghost flags: PteFlags)
      requires dir.Valid() && Present(dir.pte, start, start + size) && (to <= start || start + size <= from)
      requires Private(dir.pte, dir.frames.refs[..], from, to, flags)
      modifies dir.Repr()
      ensures dir.Valid() && dir.pte == Without(old(dir.pte), start, start + size)
      ensures Private(dir.pte, dir.frames.refs[..], from, to, flags)
    {
      ghost var counts0, pte0 := dir.frames.refs[..], dir.pte;
      hide Accounted, FrameAllocator.Valid, NoneStuckAnew, Private, Without;
      dir.Unmap(start, size);
      PrivateSurvives(counts0, dir.frames.refs[..], dir.pde, pte0, from, to, flags, start, start + size);
    }

    /** The list part of a moving resize. */
    method MoveNode(region: Region, ghost k: nat, cursor: Region?, ghost place: nat, a: nat, n: nat)
      requires list.Linked() && dir.Valid() && k < |list.nodes| && list.nodes[k] == region
      requires list.spans[k] == region.AsSpan()
      requires place <= |list.nodes| && place != k + 1
      requires if place == 0 then cursor == null else cursor == list.nodes[place - 1]
      modifies list, list.NodeSet()
      ensures list.Linked() && dir.Valid() && list.NodeSet() == old(list.NodeSet())
      ensures list.spans == Relinked(old(list.spans), k, place, Span(a, a + n, old(region.flags)))
    {
      hide Directory.Valid, RegionList.Linked;
      assert dir.Repr() !! list.NodeSet();
      list.Relink(region, k, cursor, place, Span(a, a + n, region.flags));
    }

    /** resize where the region has to move. */
    method Move(region: Region, ghost k: nat, n: nat) returns (r: Result<nat>)
      requires Valid() && k < |list.nodes| && list.nodes[k] == region && list.spans[k] == region.AsSpan()
      requires region.flags.RW() && region.start < region.end < region.start + n && !CanGrow(list.spans, k, n)
      modifies Repr()
      ensures Valid() && list.NodeSet() == old(list.NodeSet())
      ensures r.Err? ==> r.error == ENOMEM && Now() == old(Now())
      ensures r.Ok? ==> Moved(old(Now()), Now(), k, r.value, n)
      ensures r.Ok? ==> AddedPrivate(dir.pte, dir.frames.refs[..], old(list.spans)[k], r.value, n)
      ensures r.Ok? && old(InRange()) ==> lo <= r.value && r.value + n <= hi
    {
      hide Agree, Sane, Directory.Valid, RegionList.Linked, Confined, Ordered, FirstFit, MovedFlags;
      hide EntriesMoved, Fits, CanGrow, AddedPrivate;
      ghost var x, s := Now(), region.AsSpan();
      var g, place := FindRoom(n);
      if g.NoRoom? { return Err(ENOMEM); }
      RegionPresent(x, k, region.start, region.end);
      var ok := MoveEntries(Span(region.start, region.end, region.flags), g.start, n);
      if !ok { return Err(ENOMEM); }
      NotOwnCursor(x.spans, k, place, g.start, n);
      RelinkedOrdered(x.spans, k, place, Span(g.start, g.start + n, s.flags));
      RelinkedMoves(x.spans, k, place, g.start, n);
      SaneAt(x.spans, k, kernel);
      RelinkedSane(x.spans, k, place, Span(g.start, g.start + n, s.flags), kernel);
      MoveNode(region, k, g.cursor, place, g.start, n);
      MovedAgree(x, Now(), s, g.start, n);
      r := Ok(g.start);
    }

    /** resize where the region is extended in place. */
    method Grow(region: Region, ghost k: nat, n: nat) returns (ok: bool)
      requires Valid() && k < |list.nodes| && list.nodes[k] == region && list.spans[k] == region.AsSpan()
      requires region.start < region.end < region.start + n && CanGrow(list.spans, k, n)
      modifies Repr()
      ensures Valid() && list.NodeSet() == old(list.NodeSet())
      ensures !ok ==> Now() == old(Now())
      ensures ok ==> Changed(old(Now()), Now(), old(region.end), old(region.start) + n, Some(old(region.flags)), {})
      ensures ok <==> (old(region.flags).RW() ==>
        Cost(old(dir.pde), old(region.end), old(region.start) + n, true) <= NumFree(old(dir.frames.refs[..])))
      ensures ok ==> AddedPrivate(dir.pte, dir.frames.refs[..], old(list.spans)[k], old(region.start), n)
    {
      hide Agree, Sane, Directory.Valid, RegionList.Linked, Ordered, Fits, Remapped, EntriesKept, EntriesFor;
      hide UsedStay, Uncovered, CanGrow, Cost;
      ghost var x := Now();
      var start, end, f := region.start, region.end, region.flags;
      CanGrowFits(x.spans, k, n);
      FitsUncovered(x.spans, k + 1, end, start + n);
      UncoveredAbsent(x.spans, x.pte, end, start + n);
      assert Without(x.pte, end, start + n) == x.pte;
      if f.RW() {
        ok := MapAnon(end, start + n - end, ToPte(f));
        if !ok { return; }
      }
      MappedFor(x.pte, dir.pte, end, start + n, f);
      GrowRemaps(x.spans, k, start + n);
      GrowSane(x.spans, k, start + n, kernel);
      AgreeRemapped(x.spans, x.spans[k := Span(start, start + n, f)], x.pte, dir.pte, end, start + n, Some(f));
      assert dir.Repr() !! list.NodeSet();
      list.Assign(region, k, start, start + n, f);
      ok := true;
    }

    /** resize */
    method Resize(p: nat, n: nat) returns (r: Result<nat>)
      requires Valid() && 0 < n && Resizable(list.spans, p, n)
      modifies Repr()
      ensures Valid() && list.NodeSet() <= old(list.NodeSet())
      ensures r.Err? ==> Now() == old(Now()) && r.error in {ENOENT, EINVAL, ENOMEM}
      ensures r == Err(ENOENT) <==> FlagsAt(old(list.spans), p).None?
      ensures r == Err(EINVAL) <==> Straddled(old(list.spans), p)
      ensures forall k :: StaysInPlace(old(list.spans), p, n, k) ==> (r.Ok? <==> Grows(old(Stock()), k, n))
      ensures r.Ok? ==> exists k: nat :: Resized(old(Now()), Now(), k, r.value, n) && old(list.spans)[k].start == p
                          && AddedPrivate(dir.pte, dir.frames.refs[..], old(list.spans)[k], r.value, n)
                          && Protected(dir.pte, r.value, r.value + n, old(list.spans)[k].flags)
                          && (old(InRange()) ==> (InRange() <==> !LeavesRange(old(list.spans), k, n, hi)))
    {
      hide Agree, Sane, OnlySlab, Directory.Valid, RegionList.Linked, Confined, Ordered, Changed, FlagsAt;
      hide CanGrow, Cost, Moved, Straddled, Private, Protected;
      ghost var x := Now();
      var region, k := list.Find(p);
      if region == null {
        StartsOrStraddles(x.spans, p);
        NoneInPlace(x.spans, p, n);
        return Err(ENOENT);
      }
      StraddledAt(x.spans, k, p);
      OnlyAt(x.spans, p, n, k);
      hide StaysInPlace;
      if p != region.start { return Err(EINVAL); }
      var start, end := region.start, region.end;
      r := Ok(start);
      if start + n < end {
        PunchSide(region, k, start + n, end);
      } else if end < start + n {
        var last := region.next == null;
        assert last || region.next.start == list.spans[k + 1].start by { NextRegion(region, k); }
        assert CanGrow(x.spans, k, n) <==> last || start + n < region.next.start by { NextRegion(region, k); }
        if last || start + n < region.next.start {
          var ok := Grow(region, k, n);
          if !ok { return Err(ENOMEM); }
        } else {
          r := Move(region, k, n);
          if r.Err? { return; }
        }
      }
      if start + n <= end { NoPages(dir.pte, dir.frames.refs[..], end, start + n, ToPte(x.spans[k].flags)); }
      assert Resized(x, Now(), k, r.value, n);
      ResizedProtects(x, Now(), k, r.value, n);
      if Confined(x.spans, lo, hi) { ResizedRange(x, Now(), k, r.value, n, lo, hi); }
    }

    lemma NextRegion(region: Region, k: nat)
      requires list.Linked() && k < |list.nodes| && list.nodes[k] == region
      ensures region.next == null <==> k + 1 == |list.nodes|
      ensures region.next != null ==> k + 1 < |list.spans| && region.next.start == list.spans[k + 1].start
      ensures forall n ::
        CanGrow(list.spans, k, n) <==> region.next == null || list.spans[k].start + n < region.next.start
    {
      assert list.LinkedAt(k);
      if k + 1 < |list.nodes| { assert list.nodes[k + 1].AsSpan() == list.spans[k + 1]; }
    }
  }
}
