/**
  The sorted, doubly linked list of regions of an address space
  (kernel/memory/vm.c), and the map from pages to flags that it stands for.
  Addresses are page numbers, so regions are page-aligned by construction.
*/
module Regions {
  import opened Basics
  import opened Frames

  /** The VM_* bits. */
  datatype Flags = Flags(read: bool, write: bool, user: bool, shared: bool, wc: bool) {
    predicate RW() { read || write }
  }

  datatype Span = Span(start: nat, end: nat, flags: Flags)

  // --------------------------------------------------------------- as a page map

  ghost predicate Ordered(v: seq<Span>) {
    && (forall i :: 0 <= i < |v| ==> v[i].start < v[i].end)
    && (forall i, j :: 0 <= i < j < |v| ==> v[i].end <= v[j].start)
  }

  /** The flags of page p, if some region covers it. */
  ghost function FlagsAt(v: seq<Span>, p: nat): Option<Flags> {
    if v == [] then None
    else if v[0].start <= p < v[0].end then Some(v[0].flags)
    else FlagsAt(v[1..], p)
  }

  /** FlagsAt is what the regions say, and nothing else. */
  lemma {:induction false} FlagsAtMeaning(v: seq<Span>, p: nat)
    requires Ordered(v)
    ensures forall i :: 0 <= i < |v| && v[i].start <= p < v[i].end ==> FlagsAt(v, p) == Some(v[i].flags)
    ensures FlagsAt(v, p).Some? ==> exists i :: 0 <= i < |v| && v[i].start <= p < v[i].end
  {
    if v != [] {
      FlagsAtMeaning(v[1..], p);
      assert forall i :: 0 < i < |v| ==> v[1..][i - 1] == v[i];
    }
  }

  lemma {:induction false} FlagsAtConcat(a: seq<Span>, b: seq<Span>, p: nat)
    ensures FlagsAt(a + b, p) == if FlagsAt(a, p).Some? then FlagsAt(a, p) else FlagsAt(b, p)
  {
    if a == [] { assert a + b == b; }
    else {
      assert (a + b)[1..] == a[1..] + b;
      FlagsAtConcat(a[1..], b, p);
    }
  }

  lemma FlagsAtThree(a: seq<Span>, b: seq<Span>, c: seq<Span>, p: nat)
    ensures FlagsAt(a + b + c, p) ==
      if FlagsAt(a, p).Some? then FlagsAt(a, p) else if FlagsAt(b, p).Some? then FlagsAt(b, p) else FlagsAt(c, p)
  {
    FlagsAtConcat(a + b, c, p);
    FlagsAtConcat(a, b, p);
  }

  /** Region i is exchanged for other regions: no page outside region i is affected. */
  lemma FlagsAtReplace(v: seq<Span>, i: nat, mid: seq<Span>, p: nat)
    requires i < |v| && Ordered(v)
    requires forall k :: 0 <= k < |mid| ==> v[i].start <= mid[k].start && mid[k].end <= v[i].end
    ensures FlagsAt(v[..i] + mid + v[i + 1..], p) ==
      if v[i].start <= p < v[i].end then FlagsAt(mid, p) else FlagsAt(v, p)
  {
    Outside(v[..i], p, v[i].start, v[i].end);
    Outside(v[i + 1..], p, v[i].start, v[i].end);
    OutsideAll(mid, p, v[i].start, v[i].end);
    OutsideAll([v[i]], p, v[i].start, v[i].end);
    hide Ordered;
    assert v == v[..i] + [v[i]] + v[i + 1..];
    FlagsAtThree(v[..i], [v[i]], v[i + 1..], p);
    FlagsAtThree(v[..i], mid, v[i + 1..], p);
    hide FlagsAt;
  }

  /** A page of [lo, hi) is in no region that lies beside [lo, hi). */
  lemma {:induction false} Outside(v: seq<Span>, p: nat, lo: nat, hi: nat)
    requires forall k :: 0 <= k < |v| ==> v[k].end <= lo || hi <= v[k].start
    ensures lo <= p < hi ==> FlagsAt(v, p).None?
  {
    if v != [] { Outside(v[1..], p, lo, hi); }
  }

  lemma {:induction false} OutsideAll(v: seq<Span>, p: nat, lo: nat, hi: nat)
    requires forall k :: 0 <= k < |v| ==> lo <= v[k].start && v[k].end <= hi
    ensures !(lo <= p < hi) ==> FlagsAt(v, p).None?
  {
    if v != [] { OutsideAll(v[1..], p, lo, hi); }
  }

  /** A region is added: its pages, covered by nothing before, get its flags. */
  lemma FlagsAtInsert(v: seq<Span>, i: nat, s: Span, p: nat)
    requires i <= |v| && Ordered(v[..i] + [s] + v[i..])
    ensures FlagsAt(v[..i] + [s] + v[i..], p) == if s.start <= p < s.end then Some(s.flags) else FlagsAt(v, p)
    ensures s.start <= p < s.end ==> FlagsAt(v, p).None?
  {
    var w := v[..i] + [s] + v[i..];
    assert forall k :: 0 <= k < i ==> w[k] == v[k];
    assert forall k :: i <= k < |v| ==> w[k + 1] == v[k];
    assert w[i] == s;
    FlagsAtConcat(v[..i] + [s], v[i..], p);
    FlagsAtConcat(v[..i], [s], p);
    assert v == v[..i] + v[i..];
    FlagsAtConcat(v[..i], v[i..], p);
    Outside(v, p, s.start, s.end);
  }

  // -------------------------------------------------------------- as linked nodes

  class Region {
    var start: nat
    var end: nat
    var flags: Flags
    var prev: Region?
    var next: Region?

    constructor (start: nat, end: nat, flags: Flags)
      ensures this.start == start && this.end == end && this.flags == flags && prev == next == null
    {
      this.start, this.end, this.flags := start, end, flags;
      prev, next := null, null;
    }

    ghost function AsSpan(): Span reads this { Span(start, end, flags) }
  }

  ghost predicate Distinct<T>(v: seq<T>) {
    forall i, j :: 0 <= i < j < |v| ==> v[i] != v[j]
  }

  /** Outcome of vm_find_gap: no room, or room at `start` behind `cursor` (null: the list is empty). */
  datatype Gap = NoRoom | Room(cursor: Region?, start: nat)

  /** There is room for `size` pages behind region i. */
  ghost predicate RoomBehind(v: seq<Span>, i: nat, size: nat, hi: nat)
    requires i < |v|
  {
    v[i].end + size <= if i + 1 < |v| then v[i + 1].start else hi
  }

  /** vm_find_gap's answer: the first gap behind a region that is large enough. */
  ghost predicate IsGap(v: seq<Span>, i: nat, size: nat, hi: nat) {
    && i < |v| && RoomBehind(v, i, size, hi)
    && forall k :: 0 <= k < i ==> !RoomBehind(v, k, size, hi)
  }

  /** Region k taken out and linked in again, as s, at what was `place` before. */
  ghost function Relinked<T>(v: seq<T>, k: nat, place: nat, s: T): seq<T>
    requires k < |v| && place <= |v| && place != k + 1
  {
    var rest := v[..k] + v[k + 1..];
    var at := if place <= k then place else place - 1;
    rest[..at] + [s] + rest[at..]
  }

  lemma RelinkedMembers<T>(v: seq<T>, k: nat, place: nat, w: seq<T>)
    requires k < |v| && place <= |v| && place != k + 1 && w == Relinked(v, k, place, v[k])
    ensures forall x :: x in w <==> x in v
  {
    var rest, at := v[..k] + v[k + 1..], if place <= k then place else place - 1;
    assert rest == rest[..at] + rest[at..];
    assert v == v[..k] + [v[k]] + v[k + 1..];
    forall x ensures x in w <==> x in v {
      assert x in v <==> x in v[..k] || x == v[k] || x in v[k + 1..];
      assert x in rest <==> x in v[..k] || x in v[k + 1..];
      assert x in rest <==> x in rest[..at] || x in rest[at..];
    }
  }

  /** The element before the place is still the one before it after k was taken out. */
  lemma RelinkedPlace<T>(v: seq<T>, k: nat, place: nat)
    requires k < |v| && 0 < place <= |v| && place != k + 1
    ensures (v[..k] + v[k + 1..])[if place <= k then place - 1 else place - 2] == v[place - 1]
  {
  }

  lemma RemoveDistinct<T>(v: seq<T>, i: nat)
    requires Distinct(v) && i < |v|
    ensures Distinct(v[..i] + v[i + 1..])
  {
    var w := v[..i] + v[i + 1..];
    forall j, k | 0 <= j < k < |w| ensures w[j] != w[k] {
      assert w[j] == v[if j < i then j else j + 1] && w[k] == v[if k < i then k else k + 1];
    }
  }

  lemma InsertDistinct<T>(v: seq<T>, i: nat, x: T)
    requires Distinct(v) && i <= |v| && x !in v
    ensures Distinct(v[..i] + [x] + v[i..])
  {
    var w := v[..i] + [x] + v[i..];
    forall j, k | 0 <= j < k < |w| ensures w[j] != w[k] {
      assert w[j] == if j < i then v[j] else if j == i then x else v[j - 1];
      assert w[k] == if k < i then v[k] else if k == i then x else v[k - 1];
    }
  }

  /** Some region starts before page p and reaches over it. */
  ghost predicate Straddled(v: seq<Span>, p: nat) {
    exists k :: 0 <= k < |v| && v[k].start < p < v[k].end
  }

  /** The first i regions end by page p, the others start from it on. */
  ghost predicate Divided(v: seq<Span>, i: nat, p: nat) {
    i <= |v| && forall k :: 0 <= k < |v| ==> if k < i then v[k].end <= p else p <= v[k].start
  }

  class RegionList {
    var head: Region?
    ghost var nodes: seq<Region>
    ghost var spans: seq<Span>

    constructor ()
      ensures Valid() && nodes == [] && spans == []
    {
      head := null;
      nodes, spans := [], [];
    }

    ghost function NodeSet(): set<Region> reads this { set r | r in nodes }

    ghost predicate LinkedAt(i: nat)
      requires i < |nodes|
      reads this, nodes
    {
      && nodes[i].next == (if i + 1 < |nodes| then nodes[i + 1] else null)
      && nodes[i].prev == (if 0 < i then nodes[i - 1] else null)
    }

    /**
      Following next from the head, or prev from the last node, visits `nodes`,
      which hold `spans`.
    */
    ghost predicate Linked()
      reads this, nodes
      ensures Linked() ==> |spans| == |nodes|
    {
      && (if nodes == [] then head == null else head == nodes[0])
      && Distinct(nodes)
      && (forall i :: 0 <= i < |nodes| ==> LinkedAt(i))
      && |spans| == |nodes|
      && (forall i :: 0 <= i < |nodes| ==> nodes[i].AsSpan() == spans[i])
    }

    /** The place of a node. */
    lemma PlaceOf(r: Region) returns (i: nat)
      requires Linked() && r in nodes
      ensures i < |nodes| && nodes[i] == r && spans[i] == r.AsSpan()
    {
      i :| 0 <= i < |nodes| && nodes[i] == r;
    }

    lemma OnlyOnce(k: nat)
      requires Linked() && k < |nodes|
      ensures nodes[k] !in nodes[..k] + nodes[k + 1..]
    {
    }

    /** And the regions are in order and do not overlap. */
    ghost predicate Valid()
      reads this, nodes
    {
      Linked() && Ordered(spans)
    }

    /** vm_find_region */
    method Find(p: nat) returns (r: Region?, ghost i: nat)
      requires Valid()
      ensures r == null ==> FlagsAt(spans, p).None?
      ensures r != null ==> i < |nodes| == |spans| && r == nodes[i] && r.AsSpan() == spans[i] && r.start <= p < r.end
      ensures r != null ==> FlagsAt(spans, p) == Some(r.flags)
    {
      FlagsAtMeaning(spans, p);
      r := head;
      i := 0;
      while r != null
        invariant i <= |nodes| && r == (if i < |nodes| then nodes[i] else null)
        invariant forall k :: 0 <= k < i ==> !(spans[k].start <= p < spans[k].end)
        decreases |nodes| - i
      {
        assert LinkedAt(i) && r.AsSpan() == spans[i];
        if r.start <= p < r.end { return; }
        r := r.next;
        i := i + 1;
      }
    }

    /**
      vm_find_gap: fails exactly when no gap behind a region is large enough, or
      the size exceeds the whole range. The space before the first region is not
      considered.
    */
    method FindGap(lo: nat, hi: nat, size: nat) returns (g: Gap, ghost i: nat)
      requires Valid()
      ensures g.NoRoom? <==>
        lo + size > hi || (spans != [] && forall k :: 0 <= k < |spans| ==> !RoomBehind(spans, k, size, hi))
      ensures g.Room? && g.cursor == null ==> nodes == [] && spans == [] && g.start == lo && lo + size <= hi
      ensures g.Room? && g.cursor != null ==>
                i < |nodes| && g.cursor == nodes[i] && IsGap(spans, i, size, hi) && g.start == spans[i].end
    {
      i := 0;
      if lo + size > hi { return NoRoom, i; }
      if head == null { return Room(null, lo), i; }
      var prev: Region? := null;
      var it := head;
      while it != null
        invariant i <= |nodes|
        invariant it == (if i < |nodes| then nodes[i] else null)
        invariant prev == (if 0 < i then nodes[i - 1] else null)
        invariant forall k :: 0 <= k < i - 1 ==> !RoomBehind(spans, k, size, hi)
        decreases |nodes| - i
      {
        assert LinkedAt(i) && it.AsSpan() == spans[i];
        if prev != null {
          assert prev.AsSpan() == spans[i - 1];
          if prev.end + size <= it.start {
            assert RoomBehind(spans, i - 1, size, hi);
            return Room(prev, prev.end), i - 1;
          }
        }
        prev := it;
        it := it.next;
        i := i + 1;
      }
      assert prev.AsSpan() == spans[i - 1];
      if prev.end + size <= hi {
        assert RoomBehind(spans, i - 1, size, hi);
        return Room(prev, prev.end), i - 1;
      }
      return NoRoom, i;
    }

    /**
      The scan of alloc_at: the last region that starts before page p, unless a
      region starts before p and reaches over it.
    */
    method FindBefore(p: nat) returns (clash: bool, prev: Region?, ghost i: nat)
      requires Valid()
      ensures clash <==> Straddled(spans, p)
      ensures !clash ==> i <= |nodes| && Divided(spans, i, p) && prev == if i == 0 then null else nodes[i - 1]
    {
      prev := null;
      i := 0;
      var it := head;
      while it != null && it.start < p
        invariant i <= |nodes|
        invariant it == (if i < |nodes| then nodes[i] else null)
        invariant prev == (if 0 < i then nodes[i - 1] else null)
        invariant forall k :: 0 <= k < i ==> spans[k].end <= p
        decreases |nodes| - i
      {
        assert LinkedAt(i) && it.AsSpan() == spans[i];
        if it.end > p { return true, prev, i; }
        prev := it;
        it := it.next;
        i := i + 1;
      }
      assert it != null ==> it.AsSpan() == spans[i];
      clash := false;
    }

    /** Assignments to the fields of a region in the list. */
    method Assign(r: Region, ghost i: nat, start: nat, end: nat, flags: Flags)
      requires Linked() && i < |nodes| && r == nodes[i]
      modifies this`spans, r`start, r`end, r`flags
      ensures Linked() && spans == old(spans)[i := Span(start, end, flags)]
      ensures r.AsSpan() == Span(start, end, flags)
    {
      r.start, r.end, r.flags := start, end, flags;
      spans := spans[i := Span(start, end, flags)];
      forall k | 0 <= k < |nodes| ensures LinkedAt(k) { assert old(LinkedAt(k)); }
    }

    /** The assignments of vm_insert_region_after with a cursor, the node before place i. */
    method LinkBehind(cursor: Region, r: Region, ghost i: nat)
      requires Linked() && r !in nodes && 0 < i <= |nodes| && cursor == nodes[i - 1]
      modifies NodeSet()`prev, NodeSet()`next, r`prev, r`next
      ensures r.prev == cursor && r.next == if i < |nodes| then nodes[i] else null
      ensures forall k :: 0 <= k < |nodes| ==> nodes[k].next == if k == i - 1 then r else old(nodes[k].next)
      ensures forall k :: 0 <= k < |nodes| ==> nodes[k].prev == if k == i then r else old(nodes[k].prev)
    {
      assert LinkedAt(i - 1);
      r.prev := cursor;
      r.next := cursor.next;
      if cursor.next != null { cursor.next.prev := r; }
      cursor.next := r;
    }

    /** The node at place k once r was linked in at place i of `was`. */
    ghost predicate InsertedAt(was: seq<Region>, i: nat, r: Region, k: nat)
      requires i <= |was| && k <= |was|
      reads was, r
    {
      var x := if k < i then was[k] else if k == i then r else was[k - 1];
      && x.next == (if k + 1 == i then r else if k < i then (if k + 1 < |was| then was[k + 1] else null)
                    else if k < |was| then was[k] else null)
      && x.prev == (if k == i + 1 then r else if k == 0 then null else was[if k <= i then k - 1 else k - 2])
    }

    /** vm_insert_region_after with a cursor. */
    method InsertBehind(cursor: Region, r: Region, ghost i: nat)
      requires Linked() && r !in nodes && 0 < i <= |nodes| && cursor == nodes[i - 1]
      modifies this, NodeSet()`prev, NodeSet()`next, r`prev, r`next
      ensures Linked() && nodes == old(nodes)[..i] + [r] + old(nodes)[i..]
      ensures spans == old(spans)[..i] + [old(r.AsSpan())] + old(spans)[i..]
    {
      ghost var was, v := nodes, spans;
      InsertDistinct(was, i, r);
      LinkBehind(cursor, r, i);
      hide Distinct;
      forall k | 0 <= k <= |was| ensures InsertedAt(was, i, r, k) {
        if k < i { assert old(LinkedAt(k)); } else if i < k { assert old(LinkedAt(k - 1)); }
      }
      assert forall k :: 0 <= k < |was| ==> was[k].AsSpan() == v[k];
      nodes := was[..i] + [r] + was[i..];
      spans := v[..i] + [r.AsSpan()] + v[i..];
      InsertedLinks(was, v, i, r);
    }

    lemma InsertedLinks(was: seq<Region>, v: seq<Span>, i: nat, r: Region)
      requires 0 < i <= |was| == |v| && nodes == was[..i] + [r] + was[i..] && spans == v[..i] + [r.AsSpan()] + v[i..]
      requires forall k :: 0 <= k <= |was| ==> InsertedAt(was, i, r, k)
      requires forall k :: 0 <= k < |was| ==> was[k].AsSpan() == v[k]
      ensures forall k :: 0 <= k < |nodes| ==> LinkedAt(k) && nodes[k].AsSpan() == spans[k]
    {
      forall k | 0 <= k < |nodes| ensures LinkedAt(k) && nodes[k].AsSpan() == spans[k] {
        assert InsertedAt(was, i, r, k);
      }
    }

    /** vm_insert_region_after without a cursor. */
    method InsertFirst(r: Region)
      requires Linked() && r !in nodes
      modifies this, NodeSet()`prev, NodeSet()`next, r`prev, r`next
      ensures Linked() && nodes == [r] + old(nodes)
      ensures spans == [old(r.AsSpan())] + old(spans)
    {
      ghost var was := nodes;
      InsertDistinct(was, 0, r);
      assert was[..0] + [r] + was[0..] == [r] + was;
      r.prev := null;
      r.next := head;
      if head != null { head.prev := r; }
      head := r;
      nodes := [r] + was;
      spans := [r.AsSpan()] + spans;
      assert forall k :: 0 < k < |nodes| ==> nodes[k] == was[k - 1];
      forall k | 0 <= k < |nodes| ensures LinkedAt(k) {
        if 0 < k { assert old(LinkedAt(k - 1)); }
      }
    }

    /** vm_insert_region_after: `i` is the place of the new node. */
    method InsertAfter(cursor: Region?, r: Region, ghost i: nat)
      requires Linked() && r !in nodes && i <= |nodes|
      requires if i == 0 then cursor == null else cursor == nodes[i - 1]
      modifies this, NodeSet()`prev, NodeSet()`next, r`prev, r`next
      ensures Linked() && nodes == old(nodes)[..i] + [r] + old(nodes)[i..] && NodeSet() == old(NodeSet()) + {r}
      ensures spans == old(spans)[..i] + [old(r.AsSpan())] + old(spans)[i..]
    {
      if cursor != null { InsertBehind(cursor, r, i); } else { InsertFirst(r); }
    }

    /** The assignments of vm_remove_region: the nodes beside r are linked to each other. */
    method Unlink(r: Region, ghost i: nat)
      requires Linked() && i < |nodes| && r == nodes[i]
      modifies this`head, NodeSet()`prev, NodeSet()`next
      ensures head == if i == 0 then (if 1 < |nodes| then nodes[1] else null) else old(head)
      ensures r.prev == r.next == null
      ensures forall k :: 0 <= k < |nodes| && k != i ==>
        nodes[k].next == if k + 1 == i then (if i + 1 < |nodes| then nodes[i + 1] else null) else old(nodes[k].next)
      ensures forall k :: 0 <= k < |nodes| && k != i ==>
        nodes[k].prev == if k == i + 1 then (if 0 < i then nodes[i - 1] else null) else old(nodes[k].prev)
    {
      assert LinkedAt(i);
      Neighbours(i);
      if r.prev != null { r.prev.next := r.next; } else { head := r.next; }
      if r.next != null { r.next.prev := r.prev; }
      r.prev, r.next := null, null;
    }

    /** vm_remove_region */
    method Remove(r: Region, ghost i: nat)
      requires Linked() && i < |nodes| && r == nodes[i]
      modifies this, NodeSet()`prev, NodeSet()`next
      ensures Linked() && nodes == old(nodes)[..i] + old(nodes)[i + 1..]
      ensures spans == old(spans)[..i] + old(spans)[i + 1..]
      ensures r.prev == r.next == null
    {
      ghost var was, v := nodes, spans;
      RemoveDistinct(was, i);
      Unlink(r, i);
      hide Distinct;
      nodes := was[..i] + was[i + 1..];
      spans := v[..i] + v[i + 1..];
      forall k | 0 <= k < |nodes| ensures LinkedAt(k) && nodes[k].AsSpan() == spans[k] {
        if k < i {
          assert nodes[k] == was[k] && spans[k] == v[k];
          assert old(LinkedAt(k)) && old(was[k].AsSpan()) == v[k];
        } else {
          assert nodes[k] == was[k + 1] && spans[k] == v[k + 1];
          assert old(LinkedAt(k + 1)) && old(was[k + 1].AsSpan()) == v[k + 1];
        }
      }
    }

    /** A node and those beside it are different nodes. */
    lemma Neighbours(i: nat)
      requires Linked() && i < |nodes|
      ensures nodes[i].prev != nodes[i] && nodes[i].next != nodes[i]
      ensures nodes[i].prev != null && nodes[i].next != null ==> nodes[i].prev != nodes[i].next
    {
      assert LinkedAt(i);
    }

    /** Region i is cut down to s, and q, which holds the rest, linked in behind it. */
    method Split(r: Region, ghost i: nat, s: Span, q: Region)
      requires Linked() && i < |nodes| && r == nodes[i] && q !in nodes
      modifies this, NodeSet(), q`prev, q`next
      ensures Linked() && nodes == old(nodes)[..i + 1] + [q] + old(nodes)[i + 1..] && NodeSet() == old(NodeSet()) + {q}
      ensures spans == old(spans)[..i] + [s, old(q.AsSpan())] + old(spans)[i + 1..]
    {
      hide Linked;
      ghost var was := spans;
      Assign(r, i, s.start, s.end, s.flags);
      InsertAfter(r, q, i + 1);
      assert was[i := s][..i + 1] == was[..i] + [s] && was[i := s][i + 1..] == was[i + 1..];
    }

    /** The same with two pieces behind region i. */
    method SplitTwice(r: Region, ghost i: nat, s: Span, q1: Region, q2: Region)
      requires Linked() && i < |nodes| && r == nodes[i] && q1 !in nodes && q2 !in nodes && q1 != q2
      modifies this, NodeSet(), q1`prev, q1`next, q2`prev, q2`next
      ensures Linked() && NodeSet() == old(NodeSet()) + {q1, q2}
      ensures spans == old(spans)[..i] + [s, old(q1.AsSpan()), old(q2.AsSpan())] + old(spans)[i + 1..]
    {
      hide Linked;
      ghost var was, p1 := spans, q1.AsSpan();
      Split(r, i, s, q1);
      InsertAfter(q1, q2, i + 2);
      assert (was[..i] + [s, p1] + was[i + 1..])[..i + 2] == was[..i] + [s, p1];
      assert (was[..i] + [s, p1] + was[i + 1..])[i + 2..] == was[i + 1..];
    }

    /** Region k is changed to s, taken out, and linked in behind another region. */
    method Relink(r: Region, ghost k: nat, cursor: Region?, ghost place: nat, s: Span)
      requires Linked() && k < |nodes| && r == nodes[k] && place <= |nodes| && place != k + 1
      requires if place == 0 then cursor == null else cursor == nodes[place - 1]
      modifies this, NodeSet()
      ensures Linked() && nodes == Relinked(old(nodes), k, place, r) && spans == Relinked(old(spans), k, place, s)
      ensures NodeSet() == old(NodeSet())
    {
      hide Linked, Relinked;
      ghost var was, v := nodes, spans;
      OnlyOnce(k);
      if 0 < place { RelinkedPlace(was, k, place); }
      assert v[k := s][..k] == v[..k] && v[k := s][k + 1..] == v[k + 1..];
      Assign(r, k, s.start, s.end, s.flags);
      Remove(r, k);
      Reinsert(cursor, r, k, place, was, v);
      RelinkedMembers(was, k, place, nodes);
    }

    method Reinsert(cursor: Region?, r: Region, ghost k: nat, ghost place: nat, ghost was: seq<Region>,
                    ghost v: seq<Span>)
      requires Linked() && k < |was| == |v| && place <= |was| && place != k + 1
      requires nodes == was[..k] + was[k + 1..] && spans == v[..k] + v[k + 1..] && r !in nodes
      requires if place == 0 then cursor == null else cursor == nodes[if place <= k then place - 1 else place - 2]
      modifies this, NodeSet(), r
      ensures Linked() && nodes == Relinked(was, k, place, r) && spans == Relinked(v, k, place, old(r.AsSpan()))
    {
      hide Linked;
      InsertAfter(cursor, r, if place <= k then place else place - 1);
    }
  }
}
