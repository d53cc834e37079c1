/**
  The multi-producer single-consumer queue of kernel/containers/mpsc.h, at the
  grain of its single atomic operations, under sequential consistency.

  A producer is identified by a number and may be anywhere inside
  mpsc_enqueue; the one consumer may be anywhere inside mpsc_dequeue. Any
  interleaving of the steps below is a run. `head` is the unbounded ticket
  counter, of which the code only uses `head % capacity`.
*/
module Mpsc {

  /** Where a producer stands inside mpsc_enqueue. */
  datatype Producer =
    | Reserved(x: nat)             // size was below capacity and has been incremented
    | Refused                      // size was at capacity; the increment is not yet undone
    | Ticketed(x: nat, t: nat)     // head has been incremented, the slot not yet looked at
    | Checked(x: nat, t: nat)      // the first assertion saw an empty slot

  /** Where the consumer stands inside mpsc_dequeue. */
  datatype Consumer =
    | Outside
    | Took(x: nat)                 // the slot has been exchanged with 0
    | Advanced(x: nat)             // tail has been incremented
    | Wrapped(x: nat)              // tail has been reset if it reached capacity

  /**
    `size`, `head`, `tail` and `slots` are the fields of struct mpsc; 0 is the
    empty slot. The rest is history: `issued[t]` is the element whose producer
    drew ticket t, `taken` the number of elements exchanged out of a slot, and
    `out` what completed calls of mpsc_dequeue have returned, in order.
  */
  datatype Queue = Queue(
    capacity: nat, size: nat, head: nat, tail: nat, slots: seq<nat>,
    producers: map<nat, Producer>, consumer: Consumer,
    issued: seq<nat>, taken: nat, out: seq<nat>)

  datatype Step =
    | AddSize(p: nat, x: nat)      // atomic_fetch_add on size, and the comparison with capacity
    | UndoSize(p: nat)             // atomic_fetch_sub on size of a refused enqueue
    | DrawTicket(p: nat)           // atomic_fetch_add on head
    | CheckSlot(p: nat)            // ASSERT(!*slot)
    | Publish(p: nat)              // ASSERT(!atomic_exchange(slot, x)), and return true
    | TakeSlot                     // atomic_exchange(slot, 0); a zero returns NULL
    | AdvanceTail                  // ++tail, and the comparison with capacity
    | WrapTail                     // tail = 0 when the comparison held
    | SubSize                      // ASSERT(atomic_fetch_sub(size)), and return x

  predicate Enabled(q: Queue, e: Step) {
    match e
    case AddSize(p, x) => p !in q.producers && x != 0
    case UndoSize(p) => p in q.producers && q.producers[p].Refused?
    case DrawTicket(p) => p in q.producers && q.producers[p].Reserved?
    case CheckSlot(p) => p in q.producers && q.producers[p].Ticketed?
    case Publish(p) => p in q.producers && q.producers[p].Checked?
    case TakeSlot => q.consumer.Outside?
    case AdvanceTail => q.consumer.Took?
    case WrapTail => q.consumer.Advanced?
    case SubSize => q.consumer.Wrapped?
  }

  /** What each step must find for the run to go on: the ASSERTs, an index inside the array, no wrap below 0. */
  predicate AssertionHolds(q: Queue, e: Step)
    requires Enabled(q, e)
  {
    match e
    case CheckSlot(p) =>
      q.capacity != 0 && |q.slots| == q.capacity && q.slots[q.producers[p].t % q.capacity] == 0
    case Publish(p) =>
      q.capacity != 0 && |q.slots| == q.capacity && q.slots[q.producers[p].t % q.capacity] == 0
    case TakeSlot => q.tail < |q.slots|       // the slot index is inside the array
    case UndoSize(p) => q.size != 0           // the subtraction does not wrap
    case SubSize => q.size != 0
    case _ => true
  }

  function Apply(q: Queue, e: Step): (r: Queue)
    requires Enabled(q, e) && AssertionHolds(q, e)
  {
    match e
    case AddSize(p, x) =>
      q.(size := q.size + 1,
         producers := q.producers[p := if q.size >= q.capacity then Refused else Reserved(x)])
    case UndoSize(p) =>
      q.(size := q.size - 1, producers := q.producers - {p})
    case DrawTicket(p) =>
      var x := q.producers[p].x;
      q.(head := q.head + 1, producers := q.producers[p := Ticketed(x, q.head)],
         issued := q.issued + [x])
    case CheckSlot(p) =>
      q.(producers := q.producers[p := Checked(q.producers[p].x, q.producers[p].t)])
    case Publish(p) =>
      q.(slots := q.slots[q.producers[p].t % q.capacity := q.producers[p].x],
         producers := q.producers - {p})
    case TakeSlot =>
      var x := q.slots[q.tail];
      if x == 0 then q
      else q.(slots := q.slots[q.tail := 0], consumer := Took(x), taken := q.taken + 1)
    case AdvanceTail =>
      q.(tail := q.tail + 1, consumer := Advanced(q.consumer.x))
    case WrapTail =>
      q.(tail := if q.tail >= q.capacity then 0 else q.tail, consumer := Wrapped(q.consumer.x))
    case SubSize =>
      q.(size := q.size - 1, consumer := Outside, out := q.out + [q.consumer.x])
  }

  function Create(capacity: nat): (q: Queue) {
    Queue(capacity, 0, 0, 0, seq(capacity, _ => 0), map[], Outside, [], 0, [])
  }

  // ---------------------------------------------------------------- invariant

  ghost function ReservedBy(q: Queue): set<nat> { set p | p in q.producers && q.producers[p].Reserved? }

  ghost function RefusedBy(q: Queue): set<nat> { set p | p in q.producers && q.producers[p].Refused? }

  /** The producer has drawn ticket t and has not yet published it. */
  ghost predicate Holds(q: Queue, p: nat, t: nat) {
    p in q.producers && (q.producers[p].Ticketed? || q.producers[p].Checked?) && q.producers[p].t == t
  }

  /** Ticket t has been drawn and no producer still holds it. */
  ghost predicate Published(q: Queue, t: nat) { t < q.head && forall p :: !Holds(q, p, t) }

  /** Number of elements counted in `size` that hold a place in the ring. */
  ghost function Occupied(q: Queue): int {
    |ReservedBy(q)| + (q.head - q.taken) + (if q.consumer.Outside? then 0 else 1)
  }

  ghost predicate Counts(q: Queue) {
    && q.capacity != 0
    && |q.slots| == q.capacity
    && |q.issued| == q.head
    && q.taken <= q.head
    && q.size == Occupied(q) + |RefusedBy(q)|
    && Occupied(q) <= q.capacity
    && (forall p :: p in q.producers && q.producers[p].Reserved? ==> q.producers[p].x != 0)
  }

  /** `tail` points at the slot of the next ticket to take, up to the half-done advance. */
  ghost predicate TailInPlace(q: Queue)
    requires q.capacity != 0
  {
    match q.consumer
    case Outside => q.tail == q.taken % q.capacity
    case Took(_) => q.taken > 0 && q.tail == (q.taken - 1) % q.capacity
    case Advanced(_) => q.taken > 0 && q.tail == (q.taken - 1) % q.capacity + 1
    case Wrapped(_) => q.tail == q.taken % q.capacity
  }

  /** What the slot of ticket t holds while t is the only live ticket that maps to it. */
  ghost function Content(q: Queue, t: nat): nat
    requires |q.issued| == q.head
  {
    if Published(q, t) then q.issued[t] else 0
  }

  /** The slots are exactly the next `capacity` tickets, published or not. */
  ghost predicate Window(q: Queue)
    requires q.capacity != 0 && |q.slots| == q.capacity && |q.issued| == q.head
  {
    forall t: nat :: q.taken <= t < q.taken + q.capacity ==> q.slots[t % q.capacity] == Content(q, t)
  }

  /** Each held ticket is live, carries its producer's element and has one holder. */
  ghost predicate Tickets(q: Queue)
    requires |q.issued| == q.head
  {
    && (forall x :: x in q.issued ==> x != 0)
    && (forall p, t: nat :: Holds(q, p, t) ==> q.taken <= t < q.head && q.issued[t] == q.producers[p].x)
    && (forall p, p', t: nat :: Holds(q, p, t) && Holds(q, p', t) ==> p == p')
  }

  /** What came out, with the element in hand, is the sequence of tickets taken. */
  ghost predicate OutInOrder(q: Queue) {
    && q.taken <= |q.issued|
    && q.out + (if q.consumer.Outside? then [] else [q.consumer.x]) == q.issued[..q.taken]
  }

  ghost predicate Inv(q: Queue) {
    && Counts(q)
    && TailInPlace(q)
    && Window(q)
    && Tickets(q)
    && OutInOrder(q)
  }

  // ------------------------------------------------------------------- proofs

  lemma {:induction false} AtLeastOneRing(n: nat, k: nat)
    requires 0 < k
    ensures n <= n * k
  {
    if k == 1 { return; }
    AtLeastOneRing(n, k - 1);
    assert n * k == n * (k - 1) + n;
  }

  lemma NoMultipleBetween(n: nat, k: int)
    ensures n * k <= 0 || n <= n * k
  {
    if 0 < k { AtLeastOneRing(n, k); }
    else if k < 0 { AtLeastOneRing(n, -k); assert n * k == -(n * -k); }
  }

  /** Two tickets less than a ring apart use different slots. */
  lemma SlotsDiffer(t: nat, u: nat, n: nat)
    requires n != 0 && t < u < t + n
    ensures t % n != u % n
  {
    var a, b := t / n, u / n;
    assert n * b - n * a == n * (b - a);
    NoMultipleBetween(n, b - a);
  }

  lemma CreateInv(capacity: nat)
    requires capacity != 0
    ensures Inv(Create(capacity))
  {
    var q := Create(capacity);
    assert ReservedBy(q) == {} && RefusedBy(q) == {};
  }

  /** No ASSERT fails, no index leaves the array and no counter wraps, wherever the others stand. */
  lemma InvAssertion(q: Queue, e: Step)
    requires Inv(q) && Enabled(q, e)
    ensures AssertionHolds(q, e)
  {
    match e
    case CheckSlot(p) =>
      assert Holds(q, p, q.producers[p].t);
      assert q.slots[q.producers[p].t % q.capacity] == Content(q, q.producers[p].t);
    case Publish(p) =>
      assert Holds(q, p, q.producers[p].t);
      assert q.slots[q.producers[p].t % q.capacity] == Content(q, q.producers[p].t);
    case UndoSize(p) =>
      assert p in RefusedBy(q);
    case _ =>
  }

  /** A step of a producer that draws and publishes no ticket leaves the ring alone. */
  lemma RingUntouched(q: Queue, r: Queue)
    requires Inv(q)
    requires r == q.(size := r.size, producers := r.producers)
    requires forall p, t: nat :: Holds(r, p, t) <==> Holds(q, p, t)
    requires forall p, t: nat :: Holds(r, p, t) ==> r.producers[p].x == q.producers[p].x
    ensures TailInPlace(r) && Window(r) && Tickets(r) && OutInOrder(r)
  {
    forall t: nat ensures Content(r, t) == Content(q, t) { assert Published(r, t) <==> Published(q, t); }
  }

  lemma AddSizeCounts(q: Queue, p: nat, x: nat)
    requires Counts(q) && Enabled(q, AddSize(p, x))
    ensures Counts(Apply(q, AddSize(p, x)))
  {
    var r := Apply(q, AddSize(p, x));
    if q.size >= q.capacity {
      assert RefusedBy(r) == RefusedBy(q) + {p};
      assert ReservedBy(r) == ReservedBy(q);
    } else {
      assert ReservedBy(r) == ReservedBy(q) + {p};
      assert RefusedBy(r) == RefusedBy(q);
    }
  }

  lemma AddSizeInv(q: Queue, p: nat, x: nat)
    requires Inv(q) && Enabled(q, AddSize(p, x))
    ensures Inv(Apply(q, AddSize(p, x)))
  {
    hide TailInPlace, Window, Tickets, OutInOrder;
    AddSizeCounts(q, p, x);
    RingUntouched(q, Apply(q, AddSize(p, x)));
  }

  lemma DrawTicketInv(q: Queue, p: nat)
    requires Inv(q) && Enabled(q, DrawTicket(p))
    ensures Inv(Apply(q, DrawTicket(p)))
  {
    var r := Apply(q, DrawTicket(p));
    assert ReservedBy(r) == ReservedBy(q) - {p} && p in ReservedBy(q) && RefusedBy(r) == RefusedBy(q);
    assert Holds(r, p, q.head);
    assert forall p', t: nat :: Holds(r, p', t) <==> Holds(q, p', t) || (p' == p && t == q.head);
    assert forall t: nat :: t != q.head ==> Content(r, t) == Content(q, t);
  }

  lemma PublishInv(q: Queue, p: nat)
    requires Inv(q) && Enabled(q, Publish(p)) && AssertionHolds(q, Publish(p))
    ensures Inv(Apply(q, Publish(p)))
  {
    var r := Apply(q, Publish(p));
    var u := q.producers[p].t;
    assert Holds(q, p, u);
    assert ReservedBy(r) == ReservedBy(q) && RefusedBy(r) == RefusedBy(q);
    assert forall p', t: nat :: Holds(r, p', t) <==> Holds(q, p', t) && p' != p;
    forall t: nat | q.taken <= t < q.taken + q.capacity
      ensures r.slots[t % r.capacity] == Content(r, t)
    {
      if t < u { SlotsDiffer(t, u, q.capacity); } else if u < t { SlotsDiffer(u, t, q.capacity); }
    }
  }

  lemma TakeSlotInv(q: Queue)
    requires Inv(q) && Enabled(q, TakeSlot) && AssertionHolds(q, TakeSlot)
    ensures Inv(Apply(q, TakeSlot))
  {
    var r := Apply(q, TakeSlot);
    if q.slots[q.tail] != 0 {
      assert q.slots[q.taken % q.capacity] == Content(q, q.taken);
      assert ReservedBy(r) == ReservedBy(q) && RefusedBy(r) == RefusedBy(q);
      assert forall p', t: nat :: Holds(r, p', t) <==> Holds(q, p', t);
      forall t: nat | r.taken <= t < r.taken + r.capacity
        ensures r.slots[t % r.capacity] == Content(r, t)
      {
        if t < q.taken + q.capacity { SlotsDiffer(q.taken, t, q.capacity); }
        else { NextLap(q.taken, q.capacity); }
      }
      assert q.issued[..r.taken] == q.issued[..q.taken] + [q.issued[q.taken]];
    }
  }

  lemma WrapTailInv(q: Queue)
    requires Inv(q) && Enabled(q, WrapTail)
    ensures Inv(Apply(q, WrapTail))
  {
    var r := Apply(q, WrapTail);
    NextSlot(q.taken - 1, q.capacity);
    Unmoved(q, r);
  }

  /** Stepping an index past the last slot and back to 0 is the next ticket's slot. */
  lemma NextSlot(t: nat, n: nat)
    requires n != 0
    ensures (t + 1) % n == if t % n + 1 >= n then 0 else t % n + 1
  {
    var a := t / n;
    assert t + 1 == n * a + (t % n + 1);
    if t % n + 1 >= n { assert t + 1 == n * (a + 1); ModOf(a + 1, 0, n); }
    else { ModOf(a, t % n + 1, n); }
  }

  lemma ModOf(a: nat, b: nat, n: nat)
    requires b < n
    ensures (n * a + b) % n == b
  {
    var k := (n * a + b) / n;
    assert n * a - n * k == n * (a - k);
    NoMultipleBetween(n, a - k);
    NoMultipleBetween(n, k - a);
  }

  lemma NextLap(t: nat, n: nat)
    requires n != 0
    ensures (t + n) % n == t % n
  {
    assert t + n == n * (t / n + 1) + t % n;
    ModOf(t / n + 1, t % n, n);
  }

  /** A step that touches neither producers, slots nor counters keeps what speaks of them. */
  lemma Unmoved(q: Queue, r: Queue)
    requires |q.issued| == q.head
    requires r.producers == q.producers && r.head == q.head && r.issued == q.issued
    ensures ReservedBy(r) == ReservedBy(q) && RefusedBy(r) == RefusedBy(q)
    ensures forall p, t: nat :: Holds(r, p, t) == Holds(q, p, t)
    ensures forall t: nat :: Content(r, t) == Content(q, t)
  {
  }

  lemma ProducerStepInv(q: Queue, p: nat, e: Step)
    requires Inv(q) && (e == UndoSize(p) || e == CheckSlot(p)) && Enabled(q, e) && AssertionHolds(q, e)
    ensures Inv(Apply(q, e))
  {
    hide TailInPlace, Window, Tickets, OutInOrder;
    var r := Apply(q, e);
    assert ReservedBy(r) == ReservedBy(q);
    if e.UndoSize? {
      assert RefusedBy(r) == RefusedBy(q) - {p} && p in RefusedBy(q);
    } else {
      assert RefusedBy(r) == RefusedBy(q);
    }
    RingUntouched(q, r);
  }

  lemma ConsumerStepInv(q: Queue, e: Step)
    requires Inv(q) && (e.AdvanceTail? || e.SubSize?) && Enabled(q, e) && AssertionHolds(q, e)
    ensures Inv(Apply(q, e))
  {
    Unmoved(q, Apply(q, e));
  }

  /** Every step keeps the invariant. */
  lemma StepInv(q: Queue, e: Step)
    requires Inv(q) && Enabled(q, e)
    ensures AssertionHolds(q, e) && Inv(Apply(q, e))
  {
    InvAssertion(q, e);
    match e
    case AddSize(p, x) => AddSizeInv(q, p, x);
    case DrawTicket(p) => DrawTicketInv(q, p);
    case Publish(p) => PublishInv(q, p);
    case TakeSlot => TakeSlotInv(q);
    case WrapTail => WrapTailInv(q);
    case UndoSize(p) => ProducerStepInv(q, p, e);
    case CheckSlot(p) => ProducerStepInv(q, p, e);
    case _ => ConsumerStepInv(q, e);
  }

  /** What is taken out of a slot is the element of the next ticket. */
  lemma TakenIsNext(q: Queue)
    requires Inv(q) && q.consumer.Outside? && q.slots[q.tail] != 0
    ensures q.taken < q.head && q.slots[q.tail] == q.issued[q.taken]
  {
    assert q.slots[q.taken % q.capacity] == Content(q, q.taken);
  }

  lemma ReservedStep(q: Queue, e: Step)
    requires q.capacity != 0 && Enabled(q, e) && AssertionHolds(q, e)
    ensures ReservedBy(Apply(q, e)) ==
      if e.AddSize? && q.size < q.capacity then ReservedBy(q) + {e.p}
      else if e.DrawTicket? then ReservedBy(q) - {e.p}
      else ReservedBy(q)
  {
  }

  /** A producer past its ticket holds a live ticket for its element. */
  lemma HeldTicket(q: Queue, p: nat)
    requires Inv(q) && p in q.producers && (q.producers[p].Ticketed? || q.producers[p].Checked?)
    ensures q.taken <= q.producers[p].t < q.head && q.issued[q.producers[p].t] == q.producers[p].x
  {
    assert Holds(q, p, q.producers[p].t);
  }

  /** A slot that is not empty holds the element of a ticket that was drawn and not taken. */
  lemma TicketOfSlot(q: Queue, k: nat) returns (t: nat)
    requires Inv(q) && k < q.capacity && q.slots[k] != 0
    ensures q.taken <= t < q.head && q.issued[t] == q.slots[k]
  {
    t := WindowTicket(q.taken, k, q.capacity);
    assert q.slots[t % q.capacity] == Content(q, t);
  }

  /** Every slot belongs to one of the next n tickets. */
  lemma WindowTicket(taken: nat, k: nat, n: nat) returns (t: nat)
    requires k < n
    ensures taken <= t < taken + n && t % n == k
  {
    var a, b := taken / n, taken % n;
    assert taken == n * a + b;
    if b <= k {
      t := n * a + k;
      ModOf(a, k, n);
    } else {
      t := n * (a + 1) + k;
      ModOf(a + 1, k, n);
      assert n * (a + 1) == n * a + n;
    }
  }

  /** Places in the ring are occupied from a successful reservation to the final decrement. */
  lemma OccupiedStep(q: Queue, e: Step)
    requires q.capacity != 0 && q.taken <= q.head && Enabled(q, e) && AssertionHolds(q, e)
    ensures Occupied(Apply(q, e)) == Occupied(q)
              + (if e.AddSize? && q.size < q.capacity then 1 else if e.SubSize? then -1 else 0)
  {
    ReservedStep(q, e);
    assert e.AddSize? ==> e.p !in ReservedBy(q);
    assert e.DrawTicket? ==> e.p in ReservedBy(q);
    hide ReservedBy;
  }

  // --------------------------------------------------------------------- runs

  /** The steps can be taken one after the other, every ASSERT on the way holding. */
  ghost predicate Runs(q: Queue, es: seq<Step>)
    decreases |es|
  {
    es == [] || (Enabled(q, es[0]) && AssertionHolds(q, es[0]) && Runs(Apply(q, es[0]), es[1..]))
  }

  ghost function Final(q: Queue, es: seq<Step>): Queue
    requires Runs(q, es)
    decreases |es|
  {
    if es == [] then q else Final(Apply(q, es[0]), es[1..])
  }

  lemma {:induction false} RunInv(q: Queue, es: seq<Step>)
    requires Inv(q) && Runs(q, es)
    ensures Inv(Final(q, es))
    decreases |es|
  {
    if es != [] { StepInv(q, es[0]); RunInv(Apply(q, es[0]), es[1..]); }
  }

  /** The element that producer p last came to enqueue, 0 if it never did. */
  function LastAsked(es: seq<Step>, p: nat): nat {
    if es == [] then 0
    else
      var e := es[|es| - 1];
      if e.AddSize? && e.p == p then e.x else LastAsked(es[..|es| - 1], p)
  }

  /** The elements whose producers drew tickets, in the order of the tickets. */
  function Drawn(es: seq<Step>): seq<nat> {
    if es == [] then []
    else
      var e, before := es[|es| - 1], es[..|es| - 1];
      Drawn(before) + if e.DrawTicket? then [LastAsked(before, e.p)] else []
  }

  /** Producers inside a call have the element they came with, and tickets were drawn for just those. */
  ghost predicate Recorded(q: Queue, es: seq<Step>) {
    && q.issued == Drawn(es)
    && forall p :: p in q.producers && !q.producers[p].Refused? ==> q.producers[p].x == LastAsked(es, p)
  }

  lemma RecordStep(q: Queue, es: seq<Step>, e: Step)
    requires Recorded(q, es) && Enabled(q, e) && AssertionHolds(q, e)
    ensures Recorded(Apply(q, e), es + [e])
  {
    var more := es + [e];
    assert more[..|es|] == es && more[|es|] == e;
    assert forall p :: LastAsked(more, p) == if e.AddSize? && e.p == p then e.x else LastAsked(es, p);
  }

  lemma {:induction false} RunRecorded(q: Queue, before: seq<Step>, es: seq<Step>)
    requires Runs(q, es) && Recorded(q, before)
    ensures Recorded(Final(q, es), before + es)
    decreases |es|
  {
    hide Recorded, Apply, Enabled, AssertionHolds;
    if es == [] {
      assert before + es == before;
    } else {
      RecordStep(q, before, es[0]);
      RunRecorded(Apply(q, es[0]), before + [es[0]], es[1..]);
      assert before + [es[0]] + es[1..] == before + es;
    }
  }

  /** The elements in the ring, in the order the consumer will meet them. */
  ghost function InRing(q: Queue): seq<nat>
    requires q.capacity != 0 && |q.slots| == q.capacity && q.taken <= q.head
  {
    seq(q.head - q.taken, i requires 0 <= i => q.slots[(q.taken + i) % q.capacity])
  }

  lemma PublishedIsInRing(q: Queue, i: nat)
    requires Inv(q) && q.taken + i < q.head && Published(q, q.taken + i)
    ensures InRing(q)[i] == q.issued[q.taken + i]
  {
    assert q.slots[(q.taken + i) % q.capacity] == Content(q, q.taken + i);
  }

  /** When nobody is inside a call, the queue holds what was accepted and has not come out. */
  lemma Quiescent(q: Queue)
    requires Inv(q) && q.producers == map[] && q.consumer.Outside?
    ensures q.size == |InRing(q)| <= q.capacity
    ensures q.issued == q.out + InRing(q)
    ensures forall p, x: nat :: x != 0 ==>
      (Apply(q, AddSize(p, x)).producers[p] == Reserved(x) <==> |InRing(q)| < q.capacity)
  {
    assert ReservedBy(q) == {} && RefusedBy(q) == {};
    var ring := InRing(q);
    forall i | 0 <= i < |ring| ensures ring[i] == q.issued[q.taken + i] {
      assert Published(q, q.taken + i);
      PublishedIsInRing(q, i);
    }
    assert q.out == q.issued[..q.taken];
    assert ring == q.issued[q.taken..];
  }

  /** mpsc_dequeue returns NULL exactly when the next ticket is not published yet. */
  lemma NullMeansNothingNext(q: Queue)
    requires Inv(q) && q.consumer.Outside?
    ensures q.slots[q.tail] == 0 <==> !Published(q, q.taken)
  {
    assert q.slots[q.taken % q.capacity] == Content(q, q.taken);
    if Published(q, q.taken) { assert q.issued[q.taken] in q.issued; }
  }

  /**
    In every interleaving of any number of producers and the consumer: no
    ASSERT of mpsc.h fails at any step that could come next; what the consumer
    has returned is a prefix of the elements that calls came with, in the order
    in which they drew tickets, so each comes out once; and once every call has
    returned, the rest is in the ring, in order.
  */
  lemma {:induction false} MpscCorrect(capacity: nat, es: seq<Step>, e: Step)
    requires capacity != 0 && Runs(Create(capacity), es)
    ensures var q := Final(Create(capacity), es);
      && Inv(q)
      && (Enabled(q, e) ==> AssertionHolds(q, e))
      && q.out <= Drawn(es)
      && (q.producers == map[] && q.consumer.Outside? ==> Drawn(es) == q.out + InRing(q))
  {
    RunRecorded(Create(capacity), [], es);
    assert [] + es == es;
    CreateInv(capacity);
    RunInv(Create(capacity), es);
    var q := Final(Create(capacity), es);
    if Enabled(q, e) { InvAssertion(q, e); }
    if q.producers == map[] && q.consumer.Outside? { Quiescent(q); }
    assert q.out <= q.issued[..q.taken];
  }
}
