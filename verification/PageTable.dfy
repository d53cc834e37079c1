/**
  The two-level page table of kernel/memory/page_table.c, on one page directory.
  `pde` maps the index of a present directory entry to the page that holds its
  table, `pte` maps a virtual page number with a present entry to that entry.
  Virtual and physical addresses are page numbers. flush_tlb_range has no
  effect on this state; module Shootdown is about what it does.
*/
module PageTable {
  import opened Basics
  import opened Frames

  const ENTRIES := 1024        // entries of a page table

  datatype PteFlags = PteFlags(write: bool, user: bool, pat: bool, global: bool, shared: bool)

  datatype Pte = Pte(frame: nat, flags: PteFlags)

  // ------------------------------------------------------------------ ownership

  ghost function TablesIn(pde: map<nat, nat>, f: nat): set<nat> { set d | d in pde && pde[d] == f }

  ghost function PagesOn(pte: map<nat, Pte>, f: nat): set<nat> { set p | p in pte && pte[p].frame == f }

  /** Number of entries, of the directory and of the tables, that own page f. */
  ghost function Owners(pde: map<nat, nat>, pte: map<nat, Pte>, f: nat): nat {
    |TablesIn(pde, f)| + |PagesOn(pte, f)|
  }

  /** A count is stuck at 255 or equals the number of entries that own the page. */
  ghost predicate Accounted(counts: seq<nat>, pde: map<nat, nat>, pte: map<nat, Pte>) {
    forall f :: 0 <= f < |counts| ==> counts[f] == SATURATED || counts[f] == Owners(pde, pte, f)
  }

  /** A saturated count never changes again. */
  ghost predicate Stuck(old_: seq<nat>, new_: seq<nat>) {
    && |old_| == |new_|
    && forall f :: 0 <= f < |old_| && old_[f] == SATURATED ==> new_[f] == SATURATED
  }

  /** And no count becomes saturated. */
  ghost predicate NoneStuckAnew(old_: seq<nat>, new_: seq<nat>) {
    && Stuck(old_, new_)
    && forall f :: 0 <= f < |old_| && old_[f] != SATURATED ==> new_[f] != SATURATED
  }

  lemma OwnersMap(pde: map<nat, nat>, pte: map<nat, Pte>, p: nat, e: Pte, f: nat)
    requires p !in pte
    ensures Owners(pde, pte[p := e], f) == Owners(pde, pte, f) + if f == e.frame then 1 else 0
  {
    if f == e.frame { assert PagesOn(pte[p := e], f) == PagesOn(pte, f) + {p}; }
    else { assert PagesOn(pte[p := e], f) == PagesOn(pte, f); }
  }

  lemma OwnersUnmap(pde: map<nat, nat>, pte: map<nat, Pte>, p: nat, f: nat)
    requires p in pte
    ensures Owners(pde, pte - {p}, f) == Owners(pde, pte, f) - if f == pte[p].frame then 1 else 0
  {
    if f == pte[p].frame { assert PagesOn(pte - {p}, f) == PagesOn(pte, f) - {p} && p in PagesOn(pte, f); }
    else { assert PagesOn(pte - {p}, f) == PagesOn(pte, f); }
  }

  lemma OwnersTable(pde: map<nat, nat>, pte: map<nat, Pte>, d: nat, t: nat, f: nat)
    requires d !in pde
    ensures Owners(pde[d := t], pte, f) == Owners(pde, pte, f) + if f == t then 1 else 0
  {
    if f == t { assert TablesIn(pde[d := t], f) == TablesIn(pde, f) + {d}; }
    else { assert TablesIn(pde[d := t], f) == TablesIn(pde, f); }
  }

  lemma OwnersSameFrames(pde: map<nat, nat>, pte: map<nat, Pte>, pte': map<nat, Pte>, f: nat)
    requires pte'.Keys == pte.Keys && forall p :: p in pte ==> pte'[p].frame == pte[p].frame
    ensures Owners(pde, pte', f) == Owners(pde, pte, f)
  {
    assert PagesOn(pte', f) == PagesOn(pte, f);
  }

  /** A page with count 1 has one owner: two entries that own it are the same entry. */
  lemma SoleOwner(counts: seq<nat>, pde: map<nat, nat>, pte: map<nat, Pte>, p: nat)
    requires Accounted(counts, pde, pte) && p in pte && pte[p].frame < |counts| && counts[pte[p].frame] == 1
    ensures forall q :: q in pte && pte[q].frame == pte[p].frame ==> q == p
    ensures forall d :: d in pde ==> pde[d] != pte[p].frame
  {
    var f := pte[p].frame;
    assert p in PagesOn(pte, f);
    assert |PagesOn(pte, f) - {p}| == |PagesOn(pte, f)| - 1;
    assert TablesIn(pde, f) == {};
    forall q | q in pte && pte[q].frame == f ensures q == p {
      assert q in PagesOn(pte, f) && q !in PagesOn(pte, f) - {p};
    }
    forall d | d in pde ensures pde[d] != f { assert d !in TablesIn(pde, f); }
  }

  // ------------------------------------------------------------------- rollback

  /** The new directory entries that own page f. */
  ghost function NewTables(old_: map<nat, nat>, new_: map<nat, nat>, f: nat): set<nat> {
    set d | d in new_ && d !in old_ && new_[d] == f
  }

  ghost predicate Extends(old_: map<nat, nat>, new_: map<nat, nat>) {
    forall d :: d in old_ ==> d in new_ && new_[d] == old_[d]
  }

  /**
    After a mapping call that failed: the counts are as before, up to
    saturation, but for the page tables the call created.
  */
  ghost predicate RolledBack(counts0: seq<nat>, pde0: map<nat, nat>, counts: seq<nat>, pde: map<nat, nat>) {
    && Stuck(counts0, counts)
    && Extends(pde0, pde)
    && forall f :: 0 <= f < |counts| ==>
         counts[f] == SATURATED || counts[f] == counts0[f] + |NewTables(pde0, pde, f)|
  }

  lemma RollBack(counts0: seq<nat>, pde0: map<nat, nat>, counts: seq<nat>, pde: map<nat, nat>, pte: map<nat, Pte>)
    requires Accounted(counts0, pde0, pte) && Accounted(counts, pde, pte)
    requires Stuck(counts0, counts) && Extends(pde0, pde)
    ensures RolledBack(counts0, pde0, counts, pde)
  {
    forall f | 0 <= f < |counts|
      ensures counts[f] == SATURATED || counts[f] == counts0[f] + |NewTables(pde0, pde, f)|
    {
      assert TablesIn(pde, f) == TablesIn(pde0, f) + NewTables(pde0, pde, f);
    }
  }

  // ------------------------------------------------------------------ the table

  /** The entries of pages outside [lo, hi). */
  ghost function Without(pte: map<nat, Pte>, lo: nat, hi: nat): map<nat, Pte> {
    map p | p in pte && !(lo <= p < hi) :: pte[p]
  }

  ghost predicate Absent(pte: map<nat, Pte>, lo: nat, hi: nat) {
    forall p :: lo <= p < hi ==> p !in pte
  }

  ghost predicate Present(pte: map<nat, Pte>, lo: nat, hi: nat) {
    forall p :: lo <= p < hi ==> p in pte
  }

  /** Every page of [lo, hi) is mapped, with the flags, to a page that nothing else owns. */
  ghost predicate Private(pte: map<nat, Pte>, counts: seq<nat>, lo: nat, hi: nat, flags: PteFlags) {
    forall p :: lo <= p < hi ==>
      p in pte && pte[p].flags == flags && pte[p].frame < |counts| && counts[pte[p].frame] == 1
  }

  /** Counts in use are not touched by taking free pages. */
  ghost predicate UsedKept(old_: seq<nat>, new_: seq<nat>) {
    |old_| == |new_| && forall f :: 0 <= f < |old_| && old_[f] != 0 ==> new_[f] == old_[f]
  }

  /** No page in use is given back. */
  ghost predicate UsedStay(old_: seq<nat>, new_: seq<nat>) {
    |old_| == |new_| && forall f :: 0 <= f < |old_| && old_[f] != 0 ==> new_[f] != 0
  }

  /** As long as every owner remains, its page stays in use. */
  lemma OwnedStay(counts0: seq<nat>, pde0: map<nat, nat>, pte0: map<nat, Pte>,
                  counts: seq<nat>, pde: map<nat, nat>, pte: map<nat, Pte>)
    requires Accounted(counts0, pde0, pte0) && Accounted(counts, pde, pte)
    requires Stuck(counts0, counts) && Extends(pde0, pde)
    requires forall p :: p in pte0 ==> p in pte && pte[p].frame == pte0[p].frame
    ensures UsedStay(counts0, counts)
  {
    forall f | 0 <= f < |counts0| && counts0[f] != 0 ensures counts[f] != 0 {
      if counts[f] != SATURATED {
        assert TablesIn(pde, f) >= TablesIn(pde0, f);
        assert PagesOn(pte, f) >= PagesOn(pte0, f);
        if d :| d in TablesIn(pde0, f) { assert d in TablesIn(pde, f); }
        else if p :| p in PagesOn(pte0, f) { assert p in PagesOn(pte, f); }
      }
    }
  }

  lemma PrivateGrows(pte: map<nat, Pte>, pte': map<nat, Pte>, counts: seq<nat>, counts': seq<nat>,
                     lo: nat, p: nat, flags: PteFlags)
    requires Private(pte, counts, lo, p, flags) && UsedKept(counts, counts')
    requires p in pte' && pte' == pte[p := pte'[p]] && pte'[p].flags == flags
    requires pte'[p].frame < |counts'| && counts'[pte'[p].frame] == 1
    ensures Private(pte', counts', lo, p + 1, flags)
  {
  }

  /** Unmapping other pages leaves a private page private. */
  lemma PrivateSurvives(counts0: seq<nat>, counts: seq<nat>, pde: map<nat, nat>, pte0: map<nat, Pte>,
                        lo: nat, hi: nat, flags: PteFlags, from: nat, to: nat)
    requires Accounted(counts0, pde, pte0) && Accounted(counts, pde, Without(pte0, from, to))
    requires NoneStuckAnew(counts0, counts) && Private(pte0, counts0, lo, hi, flags) && (hi <= from || to <= lo)
    ensures Private(Without(pte0, from, to), counts, lo, hi, flags)
  {
    var pte := Without(pte0, from, to);
    forall p | lo <= p < hi
      ensures p in pte && pte[p].flags == flags && pte[p].frame < |counts| && counts[pte[p].frame] == 1
    {
      var f := pte0[p].frame;
      SoleOwner(counts0, pde, pte0, p);
      hide Accounted;
      assert p in pte && PagesOn(pte, f) == {p} && TablesIn(pde, f) == {};
      OwnersOf(counts, pde, pte, f);
    }
  }

  lemma OwnersOf(counts: seq<nat>, pde: map<nat, nat>, pte: map<nat, Pte>, f: nat)
    requires Accounted(counts, pde, pte) && f < |counts|
    ensures counts[f] == SATURATED || counts[f] == |TablesIn(pde, f)| + |PagesOn(pte, f)|
  {
  }

  // ------------------------------------------------------------- free pages taken

  /** The page tables that the pages of [lo, hi) need and that there are not. */
  ghost function Missing(pde: map<nat, nat>, lo: nat, hi: nat): set<nat> {
    set p | lo <= p < hi && p / ENTRIES !in pde :: p / ENTRIES
  }

  /** Free pages it takes to map [lo, hi): the missing tables and, for pages of their `own`, one each. */
  ghost function Cost(pde: map<nat, nat>, lo: nat, hi: nat, own: bool): nat
    requires lo <= hi
  {
    |Missing(pde, lo, hi)| + if own then hi - lo else 0
  }

  /** Free pages it takes to map page p. */
  ghost function OneCost(pde: map<nat, nat>, p: nat, own: bool): nat {
    (if p / ENTRIES in pde then 0 else 1) + if own then 1 else 0
  }

  /** What mapping [lo, p) has taken: the tables there are now, and the free pages that are left. */
  ghost predicate Spent(counts0: seq<nat>, pde0: map<nat, nat>, counts: seq<nat>, pde: map<nat, nat>,
                        lo: nat, p: nat, own: bool)
    requires lo <= p
  {
    && NumFree(counts) + Cost(pde0, lo, p, own) == NumFree(counts0)
    && pde.Keys == pde0.Keys + Missing(pde0, lo, p)
  }

  lemma NothingSpent(counts: seq<nat>, pde: map<nat, nat>, lo: nat, own: bool)
    ensures Spent(counts, pde, counts, pde, lo, lo, own)
  {
    assert Missing(pde, lo, lo) == {};
  }

  lemma MissingNext(pde: map<nat, nat>, lo: nat, p: nat)
    requires lo <= p
    ensures Missing(pde, lo, p + 1) == Missing(pde, lo, p) + if p / ENTRIES in pde then {} else {p / ENTRIES}
  {
    var d := p / ENTRIES;
    if d !in pde { assert d in Missing(pde, lo, p + 1); }
  }

  lemma CostGrows(pde: map<nat, nat>, lo: nat, p: nat, hi: nat, own: bool)
    requires lo <= p <= hi
    ensures Cost(pde, lo, p, own) <= Cost(pde, lo, hi, own)
  {
    SubsetSize(Missing(pde, lo, p), Missing(pde, lo, hi));
  }

  lemma OneMore(keys0: set<nat>, m: set<nat>, keys: set<nat>, d: nat)
    requires keys == keys0 + m && m !! keys0
    ensures var m' := m + if d in keys0 then {} else {d};
      |m'| == |m| + (if d in keys then 0 else 1) && keys + {d} == keys0 + m'
  {
    if d in keys {
      assert m + (if d in keys0 then {} else {d}) == m;
    }
  }

  lemma CostNext(pde0: map<nat, nat>, pde: map<nat, nat>, lo: nat, p: nat, own: bool)
    requires lo <= p && pde.Keys == pde0.Keys + Missing(pde0, lo, p)
    ensures Cost(pde0, lo, p + 1, own) == Cost(pde0, lo, p, own) + OneCost(pde, p, own)
    ensures pde.Keys + {p / ENTRIES} == pde0.Keys + Missing(pde0, lo, p + 1)
  {
    MissingNext(pde0, lo, p);
    assert Missing(pde0, lo, p) !! pde0.Keys;
    hide Missing;
    OneMore(pde0.Keys, Missing(pde0, lo, p), pde.Keys, p / ENTRIES);
  }

  /** One page more: it can be mapped or the whole range costs more than there was. */
  lemma SpendNext(counts0: seq<nat>, pde0: map<nat, nat>, counts: seq<nat>, pde: map<nat, nat>,
                  counts': seq<nat>, pde': map<nat, nat>, lo: nat, p: nat, hi: nat, own: bool)
    requires lo <= p < hi && Spent(counts0, pde0, counts, pde, lo, p, own)
    ensures NumFree(counts) < OneCost(pde, p, own) ==> NumFree(counts0) < Cost(pde0, lo, hi, own)
    ensures NumFree(counts') + OneCost(pde, p, own) == NumFree(counts) && pde'.Keys == pde.Keys + {p / ENTRIES} ==>
      Spent(counts0, pde0, counts', pde', lo, p + 1, own)
  {
    hide Missing, Cost, OneCost, NumFree;
    CostNext(pde0, pde, lo, p, own);
    CostGrows(pde0, lo, p + 1, hi, own);
  }

  lemma SpentAll(counts0: seq<nat>, pde0: map<nat, nat>, counts: seq<nat>, pde: map<nat, nat>,
                 lo: nat, hi: nat, own: bool)
    requires lo <= hi && Spent(counts0, pde0, counts, pde, lo, hi, own)
    ensures Cost(pde0, lo, hi, own) <= NumFree(counts0)
  {
  }

  /** The entries of [lo, p) were added, those up to hi are still to come. */
  ghost predicate Filling(pte0: map<nat, Pte>, pte: map<nat, Pte>, lo: nat, p: nat, hi: nat) {
    Without(pte, lo, p) == pte0 && Absent(pte, p, hi) && Present(pte, lo, p)
  }

  lemma FillNext(pte0: map<nat, Pte>, pte: map<nat, Pte>, lo: nat, p: nat, hi: nat, e: Pte)
    requires Filling(pte0, pte, lo, p, hi) && lo <= p < hi
    ensures p !in pte && Filling(pte0, pte[p := e], lo, p + 1, hi)
  {
    var pte' := pte[p := e];
    forall q | q in Without(pte', lo, p + 1) ensures q in pte0 && Without(pte', lo, p + 1)[q] == pte0[q] {
      assert q in Without(pte, lo, p);
    }
    forall q | q in pte0 ensures q in Without(pte', lo, p + 1) { assert q in Without(pte, lo, p); }
  }

  lemma FillingMeans(pte0: map<nat, Pte>, pte: map<nat, Pte>, lo: nat, p: nat, hi: nat)
    requires Filling(pte0, pte, lo, p, hi)
    ensures Without(pte, lo, p) == pte0 && Present(pte, lo, p)
  {
  }

  lemma FillStart(pte: map<nat, Pte>, lo: nat, hi: nat)
    requires Absent(pte, lo, hi)
    ensures Filling(pte, pte, lo, lo, hi)
  {
    assert Without(pte, lo, lo) == pte;
  }

  /** Pages from `lo` up to p show, with the flags, the pages that those from `from` on show in pte0. */
  ghost predicate Copied(pte0: map<nat, Pte>, from: nat, pte: map<nat, Pte>, lo: nat, p: nat, flags: PteFlags) {
    forall q :: lo <= q < p ==> CopiedAt(pte0, from, pte, lo, q, flags)
  }

  ghost predicate CopiedAt(pte0: map<nat, Pte>, from: nat, pte: map<nat, Pte>, lo: nat, q: nat, flags: PteFlags)
    requires lo <= q
  {
    var src := from + (q - lo);
    q in pte && src in pte0 && pte[q] == Pte(pte0[src].frame, flags)
  }

  /** Pages from `lo` up to p show the physical pages from `frame` on. */
  ghost predicate InOrder(pte: map<nat, Pte>, lo: nat, p: nat, frame: nat, flags: PteFlags) {
    forall q :: lo <= q < p ==> q in pte && pte[q] == Pte(frame + (q - lo), flags)
  }

  lemma CopyNext(pte0: map<nat, Pte>, from: nat, pte: map<nat, Pte>, lo: nat, p: nat, flags: PteFlags)
    requires lo <= p && Copied(pte0, from, pte, lo, p, flags) && from + (p - lo) in pte0
    ensures Copied(pte0, from, pte[p := Pte(pte0[from + (p - lo)].frame, flags)], lo, p + 1, flags)
  {
    var pte' := pte[p := Pte(pte0[from + (p - lo)].frame, flags)];
    forall q | lo <= q < p + 1 ensures CopiedAt(pte0, from, pte', lo, q, flags) {
      if q < p { assert CopiedAt(pte0, from, pte, lo, q, flags); }
    }
  }

  lemma OrderNext(pte: map<nat, Pte>, lo: nat, p: nat, frame: nat, flags: PteFlags)
    requires lo <= p && InOrder(pte, lo, p, frame, flags)
    ensures InOrder(pte[p := Pte(frame + (p - lo), flags)], lo, p + 1, frame, flags)
  {
    var pte' := pte[p := Pte(frame + (p - lo), flags)];
    forall q | lo <= q < p + 1 ensures q in pte' && pte'[q] == Pte(frame + (q - lo), flags) {
      if q < p { assert q in pte && pte[q] == Pte(frame + (q - lo), flags); }
    }
  }

  /** The page to copy is still there. */
  lemma FillSource(pte0: map<nat, Pte>, pte: map<nat, Pte>, lo: nat, p: nat, hi: nat, q: nat)
    requires Filling(pte0, pte, lo, p, hi) && q in pte0
    ensures q in pte && pte[q] == pte0[q]
  {
    assert q in Without(pte, lo, p);
  }

  lemma NonePrivate(pte: map<nat, Pte>, counts: seq<nat>, lo: nat, flags: PteFlags)
    ensures Private(pte, counts, lo, lo, flags)
  {
  }

  lemma OrderStart(pte: map<nat, Pte>, lo: nat, frame: nat, flags: PteFlags)
    ensures InOrder(pte, lo, lo, frame, flags)
  {
  }

  lemma CopyStart(pte0: map<nat, Pte>, from: nat, pte: map<nat, Pte>, lo: nat, flags: PteFlags)
    ensures Copied(pte0, from, pte, lo, lo, flags)
  {
  }

  lemma NoneWithout(pte: map<nat, Pte>, lo: nat, hi: nat)
    requires Absent(pte, lo, hi)
    ensures Without(pte, lo, hi) == pte
  {
  }

  /** The n physical pages from `frame` on are in use, as far as there are any. */
  ghost predicate FramesUsed(counts: seq<nat>, frame: nat, n: nat) {
    forall f :: frame <= f < frame + n && f < |counts| ==> counts[f] != 0
  }

  class Directory {
    const frames: FrameAllocator
    var pde: map<nat, nat>
    var pte: map<nat, Pte>

    ghost function Repr(): set<object> { {this, frames, frames.free, frames.refs} }

    ghost predicate Valid()
      reads Repr()
    {
      && frames.Valid()
      && (forall p :: p in pte ==> p / ENTRIES in pde)
      && Accounted(frames.refs[..], pde, pte)
    }

    /** An empty directory over an allocator nobody else has taken pages from. */
    constructor (frames: FrameAllocator)
      requires frames.Valid()
      requires forall f :: 0 <= f < frames.refs.Length ==> frames.refs[f] == 0 || frames.refs[f] == SATURATED
      ensures Valid() && this.frames == frames && pde == map[] && pte == map[]
    {
      this.frames := frames;
      pde := map[];
      pte := map[];
      new;
      forall f | 0 <= f < frames.refs.Length ensures Owners(pde, pte, f) == 0 {
        assert TablesIn(pde, f) == {} && PagesOn(pte, f) == {};
      }
    }

    /** get_or_create_page_table: on failure nothing changes. */
    method GetOrCreateTable(p: nat) returns (ok: bool)
      requires Valid()
      modifies Repr()
      ensures Valid() && pte == old(pte) && Extends(old(pde), pde)
      ensures ok <==> p / ENTRIES in pde
      ensures ok <==> OneCost(old(pde), p, false) <= NumFree(old(frames.refs[..]))
      ensures ok ==> pde.Keys == old(pde.Keys) + {p / ENTRIES}
      ensures ok ==> NumFree(frames.refs[..]) + OneCost(old(pde), p, false) == NumFree(old(frames.refs[..]))
      ensures !ok ==> pde == old(pde)
      ensures NoneStuckAnew(old(frames.refs[..]), frames.refs[..])
      ensures forall f :: 0 <= f < frames.refs.Length && old(frames.refs[..])[f] != 0 ==>
                frames.refs[f] == old(frames.refs[..])[f]
    {
      if p / ENTRIES in pde {
        assert pde.Keys + {p / ENTRIES} == pde.Keys;
        return true;
      }
      var r := frames.Alloc();
      if r.None? { return false; }
      forall f | 0 <= f < frames.refs.Length
        ensures frames.refs[f] == SATURATED || frames.refs[f] == Owners(pde[p / ENTRIES := r.value], pte, f)
      {
        OwnersTable(pde, pte, p / ENTRIES, r.value, f);
      }
      pde := pde[p / ENTRIES := r.value];
      return true;
    }

    /** The entry of page p is filled in with a page whose count was just raised by one. */
    lemma Record(p: nat, e: Pte, counts0: seq<nat>)
      requires frames.Valid() && p !in pte && p / ENTRIES in pde
      requires forall q :: q in pte ==> q / ENTRIES in pde
      requires |counts0| == frames.refs.Length && Accounted(counts0, pde, pte)
      requires frames.refs[..] ==
        if e.frame < |counts0| then counts0[e.frame := Increment(counts0[e.frame])] else counts0
      ensures Accounted(frames.refs[..], pde, pte[p := e])
    {
      forall f | 0 <= f < frames.refs.Length
        ensures frames.refs[..][f] == SATURATED || frames.refs[..][f] == Owners(pde, pte[p := e], f)
      {
        OwnersMap(pde, pte, p, e, f);
      }
    }

    /** The entry of page p is cleared, the count of its page just lowered by one. */
    lemma Erase(p: nat, counts0: seq<nat>)
      requires p in pte && |counts0| == frames.refs.Length && Accounted(counts0, pde, pte)
      requires forall f :: 0 <= f < |counts0| ==> counts0[f] <= SATURATED
      requires var f := pte[p].frame; f < |counts0| ==> counts0[f] != 0
      requires var f := pte[p].frame;
        frames.refs[..] == if f < |counts0| then counts0[f := Decrement(counts0[f])] else counts0
      ensures Accounted(frames.refs[..], pde, pte - {p})
    {
      forall g | 0 <= g < frames.refs.Length
        ensures frames.refs[..][g] == SATURATED || frames.refs[..][g] == Owners(pde, pte - {p}, g)
      {
        OwnersUnmap(pde, pte, p, g);
      }
    }

    /** One round of page_table_unmap. */
    method UnmapOne(p: nat)
      requires Valid() && p in pte
      modifies Repr()
      ensures Valid() && pde == old(pde) && pte == old(pte) - {p}
      ensures NoneStuckAnew(old(frames.refs[..]), frames.refs[..])
    {
      InUse(p);
      ghost var counts := frames.refs[..];
      frames.Unref(pte[p].frame);
      Erase(p, counts);
      pte := pte - {p};
    }

    /** page_table_unmap: requires, as its ASSERT does, that every page of the range is present. */
    method Unmap(lo: nat, n: nat)
      requires Valid() && Present(pte, lo, lo + n)
      modifies Repr()
      ensures Valid() && pde == old(pde)
      ensures pte == Without(old(pte), lo, lo + n)
      ensures NoneStuckAnew(old(frames.refs[..]), frames.refs[..])
    {
      hide Accounted, FrameAllocator.Valid;
      var p := lo;
      while p < lo + n
        invariant lo <= p <= lo + n && Valid() && pde == old(pde)
        invariant pte == Without(old(pte), lo, p)
        invariant NoneStuckAnew(old(frames.refs[..]), frames.refs[..])
      {
        UnmapOne(p);
        assert Without(old(pte), lo, p) - {p} == Without(old(pte), lo, p + 1);
        p := p + 1;
      }
    }

    /** One round of page_table_map_anon. */
    method MapOneAnon(p: nat, flags: PteFlags) returns (ok: bool)
      requires Valid() && p !in pte
      modifies Repr()
      ensures Valid() && Extends(old(pde), pde)
      ensures NoneStuckAnew(old(frames.refs[..]), frames.refs[..])
      ensures UsedKept(old(frames.refs[..]), frames.refs[..])
      ensures !ok ==> pte == old(pte)
      ensures ok ==> p in pte && pte == old(pte)[p := pte[p]] && pte[p].flags == flags
      ensures ok ==> pte[p].frame < frames.refs.Length && frames.refs[pte[p].frame] == 1
      ensures ok <==> OneCost(old(pde), p, true) <= NumFree(old(frames.refs[..]))
      ensures ok ==> NumFree(frames.refs[..]) + OneCost(old(pde), p, true) == NumFree(old(frames.refs[..]))
      ensures ok ==> pde.Keys == old(pde.Keys) + {p / ENTRIES}
    {
      hide Accounted, NumFree;
      ok := GetOrCreateTable(p);
      if !ok { return; }
      ghost var counts := frames.refs[..];
      var r := frames.Alloc();
      if r.None? { return false; }
      Record(p, Pte(r.value, flags), counts);
      pte := pte[p := Pte(r.value, flags)];
    }

    /** One round of page_table_map_phys and page_table_shallow_copy. */
    method MapOneShared(p: nat, f: nat, flags: PteFlags) returns (ok: bool)
      requires Valid() && p !in pte && (f < frames.refs.Length ==> frames.refs[f] != 0)
      modifies Repr()
      ensures Valid() && Extends(old(pde), pde)
      ensures Stuck(old(frames.refs[..]), frames.refs[..])
      ensures forall g :: 0 <= g < frames.refs.Length && old(frames.refs[..])[g] != 0 ==> frames.refs[g] != 0
      ensures pte == if ok then old(pte)[p := Pte(f, flags)] else old(pte)
      ensures ok <==> OneCost(old(pde), p, false) <= NumFree(old(frames.refs[..]))
      ensures ok ==> NumFree(frames.refs[..]) + OneCost(old(pde), p, false) == NumFree(old(frames.refs[..]))
      ensures ok ==> pde.Keys == old(pde.Keys) + {p / ENTRIES}
    {
      hide Accounted, NumFree;
      ok := GetOrCreateTable(p);
      if !ok { return; }
      ghost var counts := frames.refs[..];
      frames.Ref(f);
      Record(p, Pte(f, flags), counts);
      pte := pte[p := Pte(f, flags)];
    }

    /** The common way out of a mapping call that could not go on at page p. */
    method Fail(lo: nat, p: nat, ghost counts0: seq<nat>, ghost pde0: map<nat, nat>, ghost pte0: map<nat, Pte>)
      requires Valid() && lo <= p && Present(pte, lo, p) && Without(pte, lo, p) == pte0
      requires Accounted(counts0, pde0, pte0) && Stuck(counts0, frames.refs[..]) && Extends(pde0, pde)
      modifies Repr()
      ensures Valid() && pte == pte0 && pde == old(pde)
      ensures NoneStuckAnew(old(frames.refs[..]), frames.refs[..])
      ensures RolledBack(counts0, pde0, frames.refs[..], pde)
    {
      Unmap(lo, p - lo);
      RollBack(counts0, pde0, frames.refs[..], pde, pte);
    }

    /**
      page_table_map_anon: maps each page of the range to a page of its own, or
      undoes what it did and keeps only the page tables it created.
    */
    method MapAnon(lo: nat, n: nat, flags: PteFlags) returns (ok: bool)
      requires Valid() && Absent(pte, lo, lo + n)
      modifies Repr()
      ensures Valid() && Extends(old(pde), pde)
      ensures Without(pte, lo, lo + n) == old(pte)
      ensures NoneStuckAnew(old(frames.refs[..]), frames.refs[..])
      ensures ok ==> Private(pte, frames.refs[..], lo, lo + n, flags)
      ensures !ok ==> pte == old(pte) && RolledBack(old(frames.refs[..]), old(pde), frames.refs[..], pde)
      ensures ok <==> Cost(old(pde), lo, lo + n, true) <= NumFree(old(frames.refs[..]))
      ensures ok ==> Spent(old(frames.refs[..]), old(pde), frames.refs[..], pde, lo, lo + n, true)
    {
      hide Accounted, RolledBack, FrameAllocator.Valid, UsedKept, Private, Filling, Without;
      hide Spent, Cost, OneCost, Missing;
      ghost var counts0, pde0, pte0, hi := frames.refs[..], pde, pte, lo + n;
      NothingSpent(counts0, pde0, lo, true);
      FillStart(pte0, lo, hi);
      NonePrivate(pte0, counts0, lo, flags);
      var p := lo;
      while p < lo + n
        invariant lo <= p <= lo + n && Valid() && Extends(pde0, pde) && Filling(pte0, pte, lo, p, hi)
        invariant NoneStuckAnew(counts0, frames.refs[..])
        invariant Private(pte, frames.refs[..], lo, p, flags)
        invariant Spent(counts0, pde0, frames.refs[..], pde, lo, p, true)
      {
        ghost var pte1, counts1, pde1 := pte, frames.refs[..], pde;
        FillNext(pte0, pte, lo, p, hi, Pte(0, flags));
        ok := MapOneAnon(p, flags);
        SpendNext(counts0, pde0, counts1, pde1, frames.refs[..], pde, lo, p, hi, true);
        if !ok {
          FillingMeans(pte0, pte, lo, p, hi);
          Fail(lo, p, counts0, pde0, pte0);
          NoneWithout(pte0, lo, hi);
          return;
        }
        FillNext(pte0, pte1, lo, p, hi, pte[p]);
        PrivateGrows(pte1, pte, counts1, frames.refs[..], lo, p, flags);
        p := p + 1;
      }
      FillingMeans(pte0, pte, lo, p, hi);
      SpentAll(counts0, pde0, frames.refs[..], pde, lo, p, true);
      ok := true;
    }

    /** page_table_map_phys: the pages mapped must be in use already, as page_ref asserts. */
    method MapPhys(lo: nat, frame: nat, n: nat, flags: PteFlags) returns (ok: bool)
      requires Valid() && Absent(pte, lo, lo + n) && FramesUsed(frames.refs[..], frame, n)
      modifies Repr()
      ensures Valid() && Extends(old(pde), pde)
      ensures Without(pte, lo, lo + n) == old(pte)
      ensures Stuck(old(frames.refs[..]), frames.refs[..])
      ensures ok ==> InOrder(pte, lo, lo + n, frame, flags)
      ensures !ok ==> pte == old(pte) && RolledBack(old(frames.refs[..]), old(pde), frames.refs[..], pde)
      ensures ok <==> Cost(old(pde), lo, lo + n, false) <= NumFree(old(frames.refs[..]))
      ensures ok ==> Spent(old(frames.refs[..]), old(pde), frames.refs[..], pde, lo, lo + n, false)
    {
      hide Accounted, RolledBack, FrameAllocator.Valid, Filling, Without, InOrder;
      hide Spent, Cost, OneCost, Missing;
      ghost var counts0, pde0, pte0, hi := frames.refs[..], pde, pte, lo + n;
      NothingSpent(counts0, pde0, lo, false);
      FillStart(pte0, lo, hi);
      var p := lo;
      assert InOrder(pte, lo, p, frame, flags) by { OrderStart(pte, lo, frame, flags); }
      while p < lo + n
        invariant lo <= p <= lo + n && Valid() && Extends(pde0, pde) && Filling(pte0, pte, lo, p, hi)
        invariant Stuck(counts0, frames.refs[..]) && FramesUsed(frames.refs[..], frame, n)
        invariant InOrder(pte, lo, p, frame, flags)
        invariant Spent(counts0, pde0, frames.refs[..], pde, lo, p, false)
      {
        ghost var counts1, pde1 := frames.refs[..], pde;
        FillNext(pte0, pte, lo, p, hi, Pte(frame + (p - lo), flags));
        OrderNext(pte, lo, p, frame, flags);
        ok := MapOneShared(p, frame + (p - lo), flags);
        SpendNext(counts0, pde0, counts1, pde1, frames.refs[..], pde, lo, p, hi, false);
        if !ok {
          FillingMeans(pte0, pte, lo, p, hi);
          Fail(lo, p, counts0, pde0, pte0);
          NoneWithout(pte0, lo, hi);
          return;
        }
        p := p + 1;
      }
      FillingMeans(pte0, pte, lo, p, hi);
      SpentAll(counts0, pde0, frames.refs[..], pde, lo, p, false);
      ok := true;
    }

    /** page_table_shallow_copy: the destination gets the same pages under new flags. */
    method ShallowCopy(to: nat, from: nat, n: nat, flags: PteFlags) returns (ok: bool)
      requires Valid() && Present(pte, from, from + n) && Absent(pte, to, to + n)
      modifies Repr()
      ensures Valid() && Extends(old(pde), pde)
      ensures Without(pte, to, to + n) == old(pte)
      ensures Stuck(old(frames.refs[..]), frames.refs[..])
      ensures ok ==> Copied(old(pte), from, pte, to, to + n, flags)
      ensures !ok ==> pte == old(pte) && RolledBack(old(frames.refs[..]), old(pde), frames.refs[..], pde)
      ensures ok <==> Cost(old(pde), to, to + n, false) <= NumFree(old(frames.refs[..]))
      ensures ok ==> Spent(old(frames.refs[..]), old(pde), frames.refs[..], pde, to, to + n, false)
    {
      hide Accounted, RolledBack, FrameAllocator.Valid, Filling, Without, Copied;
      hide Spent, Cost, OneCost, Missing;
      ghost var counts0, pde0, pte0, hi := frames.refs[..], pde, pte, to + n;
      NothingSpent(counts0, pde0, to, false);
      FillStart(pte0, to, hi);
      CopyStart(pte0, from, pte, to, flags);
      var p := to;
      while p < to + n
        invariant to <= p <= to + n && Valid() && Extends(pde0, pde) && Filling(pte0, pte, to, p, hi)
        invariant Stuck(counts0, frames.refs[..]) && Copied(pte0, from, pte, to, p, flags)
        invariant Spent(counts0, pde0, frames.refs[..], pde, to, p, false)
      {
        ghost var counts1, pde1 := frames.refs[..], pde;
        var src := from + (p - to);
        FillSource(pte0, pte, to, p, hi, src);
        InUse(src);
        FillNext(pte0, pte, to, p, hi, Pte(pte[src].frame, flags));
        CopyNext(pte0, from, pte, to, p, flags);
        ok := MapOneShared(p, pte[src].frame, flags);
        SpendNext(counts0, pde0, counts1, pde1, frames.refs[..], pde, to, p, hi, false);
        if !ok {
          FillingMeans(pte0, pte, to, p, hi);
          Fail(to, p, counts0, pde0, pte0);
          NoneWithout(pte0, to, hi);
          return;
        }
        p := p + 1;
      }
      FillingMeans(pte0, pte, to, p, hi);
      SpentAll(counts0, pde0, frames.refs[..], pde, to, p, false);
      ok := true;
    }

    /** The page behind a present entry has a count. */
    lemma InUse(p: nat)
      requires Valid() && p in pte
      ensures pte[p].frame < frames.refs.Length ==> frames.refs[pte[p].frame] != 0
    {
      assert p in PagesOn(pte, pte[p].frame);
      assert pte[p].frame < frames.refs.Length ==> frames.refs[..][pte[p].frame] == frames.refs[pte[p].frame];
    }

    /** page_table_set_flags: only the flags of the range change. */
    method SetFlags(lo: nat, n: nat, flags: PteFlags)
      requires Valid() && Present(pte, lo, lo + n)
      modifies this
      ensures Valid() && pde == old(pde) && pte.Keys == old(pte.Keys)
      ensures forall p :: p in pte ==>
                pte[p] == if lo <= p < lo + n then Pte(old(pte)[p].frame, flags) else old(pte)[p]
    {
      var p := lo;
      while p < lo + n
        invariant lo <= p <= lo + n && Valid() && pde == old(pde) && pte.Keys == old(pte.Keys)
        invariant forall q :: q in pte ==>
                    pte[q] == if lo <= q < p then Pte(old(pte)[q].frame, flags) else old(pte)[q]
      {
        var e := Pte(pte[p].frame, flags);
        forall f | 0 <= f < frames.refs.Length ensures Owners(pde, pte[p := e], f) == Owners(pde, pte, f) {
          OwnersSameFrames(pde, pte, pte[p := e], f);
        }
        pte := pte[p := e];
        p := p + 1;
      }
    }
  }
}
