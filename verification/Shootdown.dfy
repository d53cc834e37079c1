/**
  Translation shootdown across CPUs: flush_tlb_range (kernel/memory/page_table.c)
  over the message pool and the per-CPU message queues of kernel/cpu.c.

  Every CPU has two roles at once, an initiator inside flush_tlb_range and a
  handler inside cpu_process_messages, and every step below is one atomic
  operation of one CPU. The queues are the queues of module Mpsc, stepped at
  their own grain, so sends and receives may be half done. Initiator and handler
  of one CPU may interleave freely, which allows more runs than the hardware.
  The pool is an atomic bag of as many messages as CPUs.
*/
module Shootdown {
  import opened Basics
  import M = Mpsc

  datatype Mode = Kernel | User

  /** Where a CPU stands inside flush_tlb_range; `i` is the CPU the loop looks at. */
  datatype Initiator =
    | Idle
    | Scan(lo: int, hi: int, i: nat)                        // user range, no message needed so far
    | Alloc(lo: int, hi: int, mode: Mode, i: nat)           // inside cpu_alloc_message
    | Fill(m: nat, lo: int, hi: int, mode: Mode, i: nat)    // message taken from the pool
    | Send(m: nat, i: nat)                                  // about to consider CPU i
    | Counted(m: nat, i: nat)                               // ++ref_count done for CPU i (user range)
    | InSend(m: nat, i: nat)                                // inside mpsc_enqueue on the queue of CPU i
    | Local(m: nat, lo: int, hi: int, a: int)               // flushing its own page a; m == 0: no message
    | Wait(m: nat)                                          // while (msg->ref_count)
    | Left(m: nat)                                          // has seen ref_count == 0

  /** Where a CPU stands inside cpu_process_messages, outside mpsc_dequeue. */
  datatype Handler = Out | Flushing(m: nat, a: int)

  /** A CPU; `tlb[p]` is the time at which its cached translation of page p was loaded. */
  datatype Cpu = Cpu(init: Initiator, handler: Handler, tlb: map<int, nat>)

  /** Where in the queue of a CPU, or in the CPU's hands, a message is. */
  datatype Place = AtSender | AtTicket(t: nat) | InHand | AtHandler

  /**
    A message. `refCount`, `lo`, `hi` are its fields. The rest is history since
    it was filled in: who filled it and when, the CPUs asked to flush (`asked`),
    those of them still owing an acknowledgement, those that gave it, and where
    the message is for each CPU it has been sent to and that has not given it.
  */
  datatype Msg = Msg(owner: nat, mode: Mode, lo: int, hi: int, refCount: nat, sentAt: nat,
                     asked: set<nat>, owed: set<nat>, acked: set<nat>, at: map<nat, Place>)

  datatype State = State(n: nat, clock: nat, pool: set<nat>, msgs: map<nat, Msg>,
                         queues: seq<M.Queue>, cpus: seq<Cpu>)

  datatype Step =
    | Begin(c: nat, lo: int, hi: int, mode: Mode)
    | Pass(c: nat)                 // continue: own CPU, or a CPU in another address space
    | Need(c: nat)                 // first CPU in the same address space: cpu_alloc_message
    | TakeMessage(c: nat, m: nat)  // mpsc_dequeue(msg_pool) succeeded
    | FillMessage(c: nat)          // *msg = (struct ipi_message){...}
    | Count(c: nat)                // ++msg->ref_count
    | Enqueue(c: nat)              // first step of mpsc_enqueue
    | SenderStep(c: nat)           // the next step of mpsc_enqueue
    | EndLoop(c: nat)
    | FlushOwn(c: nat)             // flush_tlb_single, or the end of the local loop
    | SeeZero(c: nat)              // leaves while (msg->ref_count)
    | FreeMessage(c: nat)          // cpu_free_message
    | HandlerStep(c: nat)          // the next step of mpsc_dequeue
    | FlushRemote(c: nat)          // flush_tlb_single in the handler
    | Ack(c: nat)                  // --msg->ref_count
    | Load(c: nat, p: int)         // the CPU caches the current translation of page p

  function UpTo(n: nat): (r: set<nat>)
    ensures forall j: nat :: j in r <==> j < n
    ensures |r| == n
  {
    if n == 0 then {} else UpTo(n - 1) + {n - 1}
  }

  function Others(n: nat, c: nat): set<nat> { UpTo(n) - {c} }

  /** The messages of cpu_init_smp, one per CPU; 0 is the null pointer. */
  function MsgIds(n: nat): set<nat> { UpTo(n + 1) - {0} }

  function Boot(n: nat): State {
    State(n, 0, MsgIds(n), map m | m in MsgIds(n) :: Msg(0, Kernel, 0, 0, 0, 0, {}, {}, {}, map[]),
          seq(n, _ => M.Create(n)), seq(n, _ => Cpu(Idle, Out, map[])))
  }

  // -------------------------------------------------------------------- steps

  /** The next step of the producer c inside mpsc_enqueue. */
  function NextSend(q: M.Queue, c: nat): M.Step
    requires c in q.producers
  {
    match q.producers[c]
    case Reserved(_) => M.DrawTicket(c)
    case Refused => M.UndoSize(c)
    case Ticketed(_, _) => M.CheckSlot(c)
    case Checked(_, _) => M.Publish(c)
  }

  /** The next step of the consumer inside mpsc_dequeue. */
  function NextReceive(q: M.Queue): M.Step {
    match q.consumer
    case Outside => M.TakeSlot
    case Took(_) => M.AdvanceTail
    case Advanced(_) => M.WrapTail
    case Wrapped(_) => M.SubSize
  }

  predicate Shape(s: State) {
    && |s.queues| == s.n && |s.cpus| == s.n
  }

  predicate Enabled(s: State, e: Step)
    requires Shape(s)
  {
    && e.c < s.n
    && var cpu := s.cpus[e.c];
       var init := cpu.init;
       match e
       case Begin(_, lo, hi, _) => init.Idle?
       case Pass(c) =>
         || (init.Scan? && init.i < s.n)
         || (init.Send? && init.i < s.n && init.m in s.msgs
             && (init.i == c || s.msgs[init.m].mode.User?))
       case Need(c) => init.Scan? && init.i < s.n && init.i != c
       case TakeMessage(_, m) => init.Alloc? && m in s.pool
       case FillMessage(_) => init.Fill?
       case Count(c) =>
         init.Send? && init.i < s.n && init.i != c && init.m in s.msgs && s.msgs[init.m].mode.User?
       case Enqueue(c) =>
         || (init.Send? && init.i < s.n && init.i != c && init.m in s.msgs && s.msgs[init.m].mode.Kernel?)
         || init.Counted?
       case SenderStep(c) => init.InSend?
       case EndLoop(_) => (init.Scan? || init.Send?) && init.i >= s.n
       case FlushOwn(_) => init.Local?
       case SeeZero(_) => init.Wait? && init.m in s.msgs && s.msgs[init.m].refCount == 0
       case FreeMessage(_) => init.Left?
       case HandlerStep(_) => cpu.handler.Out?
       case FlushRemote(_) =>
         cpu.handler.Flushing? && cpu.handler.m in s.msgs && cpu.handler.a < s.msgs[cpu.handler.m].hi
       case Ack(_) => cpu.handler.Flushing? && cpu.handler.m in s.msgs && cpu.handler.a >= s.msgs[cpu.handler.m].hi
       case Load(_, _) => true
  }

  /** What a step must find for the run to go on: the ASSERTs of cpu.c and mpsc.h, and valid pointers. */
  predicate AssertionHolds(s: State, e: Step)
    requires Shape(s) && Enabled(s, e)
  {
    var cpu := s.cpus[e.c];
    var init := cpu.init;
    match e
    case TakeMessage(_, m) => m in s.msgs && s.msgs[m].refCount == 0      // ASSERT(msg->ref_count == 0)
    case FillMessage(_) => init.m in s.msgs
    case Count(_) => init.m in s.msgs
    case Enqueue(c) => init.i < s.n && init.m in s.msgs && M.Enabled(s.queues[init.i], M.AddSize(c, init.m))
    case SenderStep(c) =>
      && init.i < s.n && init.m in s.msgs && c in s.queues[init.i].producers
      && !s.queues[init.i].producers[c].Refused?                          // the send is not refused
      && var q := s.queues[init.i];
         M.Enabled(q, NextSend(q, c)) && M.AssertionHolds(q, NextSend(q, c))
    case FreeMessage(_) => init.m in s.msgs && s.msgs[init.m].refCount == 0 // ASSERT(msg->ref_count == 0)
    case EndLoop(_) => init.Send? ==> init.m in s.msgs
    case HandlerStep(c) =>
      var q := s.queues[c];
      && M.Enabled(q, NextReceive(q)) && M.AssertionHolds(q, NextReceive(q))
      && (!q.consumer.Outside? ==> q.consumer.x in s.msgs)
    case FlushRemote(_) => cpu.handler.m in s.msgs
    case Ack(_) => cpu.handler.m in s.msgs && s.msgs[cpu.handler.m].refCount != 0 // ASSERT(msg->ref_count)
    case _ => true
  }

  function SetCpu(s: State, c: nat, cpu: Cpu): State
    requires c < |s.cpus|
  {
    s.(cpus := s.cpus[c := cpu])
  }

  function Goto(s: State, c: nat, init: Initiator): State
    requires c < |s.cpus|
  {
    SetCpu(s, c, s.cpus[c].(init := init))
  }

  /** The message as flush_tlb_range first writes it, for all other CPUs or for the first one found. */
  function Filled(s: State, c: nat, init: Initiator): Msg
    requires init.Fill? && 0 < s.n
  {
    var asked := if init.mode.Kernel? then Others(s.n, c) else {init.i};
    var refCount := if init.mode.Kernel? then s.n - 1 else 1;
    Msg(c, init.mode, init.lo, init.hi, refCount, s.clock + 1, asked, asked, {}, map[])
  }

  /** ++msg->ref_count on behalf of CPU i. */
  function Recount(msg: Msg, i: nat): Msg {
    msg.(refCount := msg.refCount + 1, asked := msg.asked + {i}, owed := msg.owed + {i})
  }

  /** --msg->ref_count by CPU c. */
  function Acked(msg: Msg, c: nat): Msg
    requires msg.refCount != 0
  {
    msg.(refCount := msg.refCount - 1, owed := msg.owed - {c}, acked := msg.acked + {c}, at := msg.at - {c})
  }

  function Enqueued(s: State, c: nat): State
    requires Shape(s) && Enabled(s, Enqueue(c)) && AssertionHolds(s, Enqueue(c))
  {
    var init := s.cpus[c].init;
    var msg := s.msgs[init.m];
    var q := s.queues[init.i];
    Goto(s, c, InSend(init.m, init.i)).(
      queues := s.queues[init.i := M.Apply(q, M.AddSize(c, init.m))],
      msgs := s.msgs[init.m := msg.(at := msg.at[init.i := AtSender])])
  }

  function SenderStepped(s: State, c: nat): State
    requires Shape(s) && Enabled(s, SenderStep(c)) && AssertionHolds(s, SenderStep(c))
  {
    var init := s.cpus[c].init;
    var msg := s.msgs[init.m];
    var q := s.queues[init.i];
    var e := NextSend(q, c);
    var s1 := s.(queues := s.queues[init.i := M.Apply(q, e)]);
    if e.DrawTicket? then
      s1.(msgs := s.msgs[init.m := msg.(at := msg.at[init.i := AtTicket(q.head)])])
    else if e.Publish? then Goto(s1, c, Send(init.m, init.i + 1))
    else s1
  }

  function HandlerStepped(s: State, c: nat): State
    requires Shape(s) && Enabled(s, HandlerStep(c)) && AssertionHolds(s, HandlerStep(c))
  {
    var q := s.queues[c];
    var e := NextReceive(q);
    var r := M.Apply(q, e);
    var s1 := s.(queues := s.queues[c := r]);
    if e.TakeSlot? && r.consumer.Took? && r.consumer.x in s.msgs then
      var msg := s.msgs[r.consumer.x];
      s1.(msgs := s.msgs[r.consumer.x := msg.(at := msg.at[c := InHand])])
    else if e.SubSize? then
      var m := q.consumer.x;
      var msg := s.msgs[m];
      SetCpu(s1.(msgs := s.msgs[m := msg.(at := msg.at[c := AtHandler])]), c,
             s.cpus[c].(handler := Flushing(m, msg.lo)))
    else s1
  }

  function Apply(s: State, e: Step): (r: State)
    requires Shape(s) && Enabled(s, e) && AssertionHolds(s, e)
  {
    var c := e.c;
    var cpu := s.cpus[c];
    var init := cpu.init;
    match e
    case Begin(_, lo, hi, mode) =>
      Goto(s, c, if mode.Kernel? then Alloc(lo, hi, Kernel, 0) else Scan(lo, hi, 0)).(clock := s.clock + 1)
    case Pass(_) =>
      Goto(s, c, if init.Scan? then Scan(init.lo, init.hi, init.i + 1) else Send(init.m, init.i + 1))
    case Need(_) => Goto(s, c, Alloc(init.lo, init.hi, User, init.i))
    case TakeMessage(_, m) =>
      Goto(s, c, Fill(m, init.lo, init.hi, init.mode, init.i)).(
        pool := s.pool - {m},
        msgs := s.msgs[m := s.msgs[m].(owner := c, asked := {}, acked := {})])
    case FillMessage(_) =>
      Goto(s, c, if init.mode.Kernel? then Send(init.m, 0) else Counted(init.m, init.i)).(
        clock := s.clock + 1, msgs := s.msgs[init.m := Filled(s, c, init)])
    case Count(_) =>
      Goto(s, c, Counted(init.m, init.i)).(msgs := s.msgs[init.m := Recount(s.msgs[init.m], init.i)])
    case Enqueue(_) => Enqueued(s, c)
    case SenderStep(_) => SenderStepped(s, c)
    case EndLoop(_) =>
      if init.Scan? then Goto(s, c, Local(0, init.lo, init.hi, init.lo))
      else Goto(s, c, Local(init.m, s.msgs[init.m].lo, s.msgs[init.m].hi, s.msgs[init.m].lo))
    case FlushOwn(_) =>
      if init.a < init.hi then
        SetCpu(s, c, cpu.(init := init.(a := init.a + 1), tlb := cpu.tlb - {init.a}))
      else Goto(s, c, if init.m == 0 then Idle else Wait(init.m))
    case SeeZero(_) => Goto(s, c, Left(init.m))
    case FreeMessage(_) => Goto(s, c, Idle).(pool := s.pool + {init.m})
    case HandlerStep(_) => HandlerStepped(s, c)
    case FlushRemote(_) =>
      SetCpu(s, c, cpu.(handler := Flushing(cpu.handler.m, cpu.handler.a + 1), tlb := cpu.tlb - {cpu.handler.a}))
    case Ack(_) =>
      var msg := s.msgs[cpu.handler.m];
      SetCpu(s, c, cpu.(handler := Out)).(msgs := s.msgs[cpu.handler.m := Acked(msg, c)])
    case Load(_, p) => SetCpu(s, c, cpu.(tlb := cpu.tlb[p := s.clock]))
  }

  // ---------------------------------------------------------------- invariant

  /** The message an initiator holds, 0 if none. */
  function Carried(init: Initiator): nat {
    match init
    case Idle => 0
    case Scan(_, _, _) => 0
    case Alloc(_, _, _, _) => 0
    case Fill(m, _, _, _, _) => m
    case Send(m, _) => m
    case Counted(m, _) => m
    case InSend(m, _) => m
    case Local(m, _, _, _) => m
    case Wait(m) => m
    case Left(m) => m
  }

  /** The CPUs already counted in ref_count that the initiator still has to send to. */
  ghost function Unsent(n: nat, c: nat, init: Initiator, mode: Mode): set<nat> {
    match init
    case Send(_, i) => if mode.Kernel? then Others(n, c) - UpTo(i) else {}
    case Counted(_, i) => {i}
    case InSend(_, i) => if mode.Kernel? then Others(n, c) - UpTo(i + 1) else {}
    case _ => {}
  }

  /** CPUs the loop has not come to yet. */
  ghost predicate Ahead(j: nat, init: Initiator) {
    match init
    case Send(_, i) => i <= j
    case Counted(_, i) => i <= j
    case InSend(_, i) => i < j
    case _ => false
  }

  /** Every translation of a page in [lo, hi) was loaded at time t or later. */
  ghost predicate Fresh(tlb: map<int, nat>, lo: int, hi: int, t: nat) {
    forall p :: p in tlb && lo <= p < hi ==> t <= tlb[p]
  }

  /** Messages sent to CPU c that it has not acknowledged. */
  ghost function Transit(s: State, c: nat): set<nat> { set m | m in s.msgs && c in s.msgs[m].at }

  ghost predicate InvShape(s: State) {
    && Shape(s)
    && 0 < s.n
    && s.msgs.Keys == MsgIds(s.n)
    && s.pool <= MsgIds(s.n)
    && (forall c :: 0 <= c < s.n ==> s.queues[c].capacity == s.n && |s.queues[c].issued| == s.queues[c].head)
  }

  /** Every queue is a reachable queue of module Mpsc. */
  ghost predicate InvRings(s: State) {
    forall q :: q in s.queues ==> M.Inv(q)
  }

  /** The initiator of CPU c. */
  ghost predicate InvInitiator(s: State, c: nat)
    requires InvShape(s) && c < s.n
  {
    var init := s.cpus[c].init;
    var m := Carried(init);
    && (m != 0 ==> m in s.msgs && m !in s.pool && s.msgs[m].owner == c)
    && match init
       case Idle => true
       case Scan(_, _, i) => true
       case Alloc(_, _, mode, i) => mode.User? ==> i < s.n && i != c
       case Fill(m, _, _, mode, i) => m != 0 && s.msgs[m].owed == {} && (mode.User? ==> i < s.n && i != c)
       case Send(m, i) => m != 0 && i <= s.n
       case Counted(m, i) => m != 0 && i < s.n && i != c && s.msgs[m].mode.User?
       case InSend(m, i) => m != 0 && i < s.n && i != c && c in s.queues[i].producers
       case Local(m, lo, hi, a) =>
         m != 0 ==> lo == s.msgs[m].lo && hi == s.msgs[m].hi && lo <= a && Fresh(s.cpus[c].tlb, lo, a, s.msgs[m].sentAt)
       case Wait(m) => m != 0 && Fresh(s.cpus[c].tlb, s.msgs[m].lo, s.msgs[m].hi, s.msgs[m].sentAt)
       case Left(m) => m != 0 && s.msgs[m].owed == {}
                       && Fresh(s.cpus[c].tlb, s.msgs[m].lo, s.msgs[m].hi, s.msgs[m].sentAt)
  }

  /** Who was asked is who owes and who has acknowledged; for a kernel range, everybody else. */
  ghost predicate Asked(n: nat, msg: Msg, init: Initiator) {
    && msg.refCount == |msg.owed|
    && msg.asked == msg.owed + msg.acked
    && msg.owed !! msg.acked
    && msg.asked <= Others(n, msg.owner)
    && (msg.mode.Kernel? && !init.Fill? ==> msg.asked == Others(n, msg.owner))
  }

  /** Who owes has been sent the message, or will be by the rest of the loop. */
  ghost predicate Sent(n: nat, msg: Msg, init: Initiator) {
    && msg.owed == msg.at.Keys + Unsent(n, msg.owner, init, msg.mode)
    && (forall j :: Ahead(j, init) ==> j !in msg.at && j !in msg.acked)
  }

  ghost predicate Owned(n: nat, msg: Msg, init: Initiator) { Asked(n, msg, init) && Sent(n, msg, init) }

  /** Who has acknowledged holds no translation of the range from before the message. */
  ghost predicate AckedFresh(cpus: seq<Cpu>, msg: Msg) {
    forall c :: c in msg.acked ==> c < |cpus| && Fresh(cpus[c].tlb, msg.lo, msg.hi, msg.sentAt)
  }

  /** The bookkeeping of message m. */
  ghost predicate InvMsg(s: State, m: nat)
    requires InvShape(s) && m in s.msgs
  {
    var msg := s.msgs[m];
    && msg.sentAt <= s.clock
    && msg.owner < s.n
    && (m in s.pool ==> msg.refCount == 0 && msg.owed == {} && msg.at == map[])
    && (m !in s.pool ==>
          && Carried(s.cpus[msg.owner].init) == m
          && Owned(s.n, msg, s.cpus[msg.owner].init)
          && AckedFresh(s.cpus, msg))
  }

  /** Message m is where its history says it is. */
  ghost predicate InvPlace(s: State, m: nat, c: nat)
    requires InvShape(s) && m in s.msgs && c < s.n && c in s.msgs[m].at
  {
    var q := s.queues[c];
    match s.msgs[m].at[c]
    case AtSender => s.msgs[m].owner in q.producers && q.producers[s.msgs[m].owner] == M.Reserved(m)
    case AtTicket(t) => q.taken <= t < q.head && q.issued[t] == m
    case InHand => !q.consumer.Outside? && q.consumer.x == m
    case AtHandler => s.cpus[c].handler.Flushing? && s.cpus[c].handler.m == m
  }

  ghost predicate IsAt(s: State, m: nat, c: nat, place: Place) {
    m in s.msgs && c in s.msgs[m].at && s.msgs[m].at[c] == place
  }

  /** Producers inside the queue of CPU c are initiators sending to it, none of them refused. */
  ghost predicate QProducers(s: State, c: nat)
    requires InvShape(s) && c < s.n
  {
    var q := s.queues[c];
    forall p :: p in q.producers ==>
      && p < s.n
      && s.cpus[p].init.InSend? && s.cpus[p].init.i == c
      && !q.producers[p].Refused?
      && q.producers[p].x == s.cpus[p].init.m
      && (q.producers[p].Reserved? ==> IsAt(s, q.producers[p].x, c, AtSender))
  }

  /** Elements in the ring are messages recorded there. */
  ghost predicate QTickets(s: State, c: nat)
    requires InvShape(s) && c < s.n
  {
    var q := s.queues[c];
    forall t {:trigger q.issued[t]} :: q.taken <= t < q.head ==> IsAt(s, q.issued[t], c, AtTicket(t))
  }

  /** So is what the consumer has in hand, and what the handler works on. */
  ghost predicate QHands(s: State, c: nat)
    requires InvShape(s) && c < s.n
  {
    var q := s.queues[c];
    var h := s.cpus[c].handler;
    && (!q.consumer.Outside? ==> IsAt(s, q.consumer.x, c, InHand) && h.Out?)
    && (h.Flushing? ==>
          && IsAt(s, h.m, c, AtHandler)
          && s.msgs[h.m].lo <= h.a
          && Fresh(s.cpus[c].tlb, s.msgs[h.m].lo, h.a, s.msgs[h.m].sentAt))
  }

  /** And there is nothing else. */
  ghost predicate QCount(s: State, c: nat)
    requires InvShape(s) && c < s.n
  {
    M.Occupied(s.queues[c]) + (if s.cpus[c].handler.Flushing? then 1 else 0) == |Transit(s, c)|
  }

  /** Everything in the queue and the hands of CPU c is a message recorded there, and the converse. */
  ghost predicate InvQueue(s: State, c: nat)
    requires InvShape(s) && c < s.n
  {
    QProducers(s, c) && QTickets(s, c) && QHands(s, c) && QCount(s, c)
  }

  ghost predicate Inv(s: State) {
    && InvShape(s)
    && InvRings(s)
    && (forall c :: 0 <= c < s.n ==> InvInitiator(s, c))
    && (forall m :: m in s.msgs ==> InvMsg(s, m))
    && (forall m, c :: m in s.msgs && c in s.msgs[m].at ==> c < s.n && InvPlace(s, m, c))
    && (forall c :: 0 <= c < s.n ==> InvQueue(s, c))
  }

  // ------------------------------------------------------------------- proofs

  lemma BootInv(n: nat)
    requires 0 < n
    ensures Inv(Boot(n))
  {
    var s := Boot(n);
    M.CreateInv(n);
    forall c | 0 <= c < n ensures InvQueue(s, c) {
      assert M.ReservedBy(s.queues[c]) == {} && Transit(s, c) == {};
    }
  }

  /** Translations are only dropped, or loaded at time t or later. */
  ghost predicate Ages(old_: map<int, nat>, new_: map<int, nat>, t: nat) {
    forall p :: p in new_ ==> (p in old_ && old_[p] == new_[p]) || t <= new_[p]
  }

  ghost predicate SameHeader(a: Msg, b: Msg) {
    a.owner == b.owner && a.mode == b.mode && a.lo == b.lo && a.hi == b.hi && a.sentAt == b.sentAt
  }

  /** A step of CPU c that touches no message but m. */
  ghost predicate Touches(s: State, r: State, c: nat, m: nat) {
    && InvShape(s) && InvShape(r)
    && r.n == s.n && s.clock <= r.clock && c < s.n
    && (forall j :: 0 <= j < s.n && j != c ==> r.cpus[j] == s.cpus[j])
    && Ages(s.cpus[c].tlb, r.cpus[c].tlb, s.clock)
    && (forall k :: k in s.msgs && k != m ==> r.msgs[k] == s.msgs[k] && (k in r.pool <==> k in s.pool))
    && (forall i, p: nat :: 0 <= i < s.n && p != c ==>
          (p in r.queues[i].producers <==> p in s.queues[i].producers))
  }

  /** The initiators of the other CPUs, when none of them carries m or m keeps its header. */
  lemma OtherInitiators(s: State, r: State, c: nat, m: nat)
    requires Touches(s, r, c, m) && forall j :: 0 <= j < s.n ==> InvInitiator(s, j)
    requires m == 0
          || (forall j :: 0 <= j < s.n && j != c ==> Carried(s.cpus[j].init) != m)
          || (m in s.msgs && SameHeader(s.msgs[m], r.msgs[m]) && r.msgs[m].owed <= s.msgs[m].owed
              && (m in r.pool <==> m in s.pool))
    ensures forall j :: 0 <= j < s.n && j != c ==> InvInitiator(r, j)
  {
    forall j | 0 <= j < s.n && j != c ensures InvInitiator(r, j) {
      assert InvInitiator(s, j);
      var init := s.cpus[j].init;
      if init.InSend? { assert j in r.queues[init.i].producers <==> j in s.queues[init.i].producers; }
    }
  }

  lemma StillFresh(s: State, r: State, c: nat, msg: Msg, msg': Msg)
    requires |r.cpus| == |s.cpus| && c < |s.cpus| && msg.sentAt <= s.clock
    requires forall j :: 0 <= j < |s.cpus| && j != c ==> r.cpus[j] == s.cpus[j]
    requires Ages(s.cpus[c].tlb, r.cpus[c].tlb, s.clock)
    requires AckedFresh(s.cpus, msg)
    requires msg'.acked == msg.acked && msg'.lo == msg.lo && msg'.hi == msg.hi && msg'.sentAt == msg.sentAt
    ensures AckedFresh(r.cpus, msg')
  {
    forall d | d in msg.acked ensures Fresh(r.cpus[d].tlb, msg.lo, msg.hi, msg.sentAt) {
      assert Fresh(s.cpus[d].tlb, msg.lo, msg.hi, msg.sentAt);
    }
  }

  /** The bookkeeping of the other messages, when the ones CPU c carries are among {0, m}. */
  lemma OtherMessages(s: State, r: State, c: nat, m: nat)
    requires Touches(s, r, c, m) && forall k :: k in s.msgs ==> InvMsg(s, k)
    requires Carried(s.cpus[c].init) == 0 || Carried(s.cpus[c].init) == m || r.cpus[c].init == s.cpus[c].init
    ensures forall k :: k in s.msgs && k != m ==> InvMsg(r, k)
  {
    hide Owned, AckedFresh;
    forall k | k in s.msgs && k != m ensures InvMsg(r, k) {
      assert InvMsg(s, k);
      var msg := s.msgs[k];
      if k !in s.pool {
        assert r.cpus[msg.owner].init == s.cpus[msg.owner].init;
        StillFresh(s, r, c, msg, msg);
      }
    }
  }

  /** No message moves: queues, handlers and recorded places are as before. */
  ghost predicate NoMove(s: State, r: State, c: nat) {
    && InvShape(s) && InvShape(r) && r.n == s.n && c < s.n && s.clock <= r.clock
    && r.queues == s.queues
    && (forall j :: 0 <= j < s.n && j != c ==> r.cpus[j] == s.cpus[j])
    && r.cpus[c].handler == s.cpus[c].handler
    && Ages(s.cpus[c].tlb, r.cpus[c].tlb, s.clock)
    && (forall k :: k in s.msgs ==> r.msgs[k].at == s.msgs[k].at)
    && (forall k :: k in s.msgs && s.msgs[k].at != map[] ==> SameHeader(s.msgs[k], r.msgs[k]))
  }

  lemma NoMoveQueues(s: State, r: State, c: nat)
    requires NoMove(s, r, c) && (s.cpus[c].init.InSend? ==> r.cpus[c].init == s.cpus[c].init)
    requires forall k :: k in s.msgs ==> s.msgs[k].sentAt <= s.clock
    requires forall j :: 0 <= j < s.n ==> InvQueue(s, j)
    ensures forall j :: 0 <= j < s.n ==> InvQueue(r, j)
  {
    forall j | 0 <= j < s.n ensures InvQueue(r, j) {
      assert InvQueue(s, j);
      assert Transit(r, j) == Transit(s, j);
      var q := s.queues[j];
      if s.cpus[j].handler.Flushing? {
        var m := s.cpus[j].handler.m;
        assert IsAt(s, m, j, AtHandler);
        assert s.msgs[m].at != map[];
      }
    }
  }

  lemma NoMovePlaces(s: State, r: State, c: nat)
    requires NoMove(s, r, c)
    requires forall m, j :: m in s.msgs && j in s.msgs[m].at ==> j < s.n && InvPlace(s, m, j)
    ensures forall m, j :: m in r.msgs && j in r.msgs[m].at ==> j < r.n && InvPlace(r, m, j)
  {
    forall m, j | m in r.msgs && j in r.msgs[m].at ensures j < r.n && InvPlace(r, m, j) {
      assert InvPlace(s, m, j);
    }
  }

  lemma Times(s: State)
    requires InvShape(s) && forall k :: k in s.msgs ==> InvMsg(s, k)
    ensures forall k :: k in s.msgs ==> s.msgs[k].sentAt <= s.clock
  {
    hide Owned, AckedFresh;
    forall k | k in s.msgs ensures s.msgs[k].sentAt <= s.clock { assert InvMsg(s, k); }
  }

  /** A step in which no message moves keeps the invariant if it keeps it for its own CPU and message. */
  lemma StillStep(s: State, r: State, c: nat, m: nat)
    requires Inv(s) && Touches(s, r, c, m) && NoMove(s, r, c)
    requires s.cpus[c].init.InSend? ==> r.cpus[c].init == s.cpus[c].init
    requires Carried(s.cpus[c].init) == 0 || Carried(s.cpus[c].init) == m || r.cpus[c].init == s.cpus[c].init
    requires m == 0 || (m in s.msgs && InvMsg(r, m)
                        && (forall j :: 0 <= j < s.n && j != c ==> Carried(s.cpus[j].init) != m))
    requires InvInitiator(r, c)
    ensures Inv(r)
  {
    hide InvInitiator, InvMsg, InvQueue, InvPlace, M.Inv;
    Times(s);
    OtherInitiators(s, r, c, m);
    OtherMessages(s, r, c, m);
    NoMoveQueues(s, r, c);
    NoMovePlaces(s, r, c);
  }

  /** What the invariant says of CPU c and of the message it carries. */
  lemma Own(s: State, c: nat)
    requires Inv(s) && c < s.n
    ensures InvShape(s) && InvInitiator(s, c)
    ensures var m := Carried(s.cpus[c].init);
      m != 0 ==>
        && m in s.msgs && m !in s.pool && InvMsg(s, m)
        && (forall j :: 0 <= j < s.n && j != c ==> Carried(s.cpus[j].init) != m)
  {
    hide InvInitiator, InvMsg, InvQueue, InvPlace, InvRings, UpTo;
    var m := Carried(s.cpus[c].init);
    CarriesOwn(s, c);
    if m != 0 {
      forall j | 0 <= j < s.n && j != c ensures Carried(s.cpus[j].init) != m { CarriesOwn(s, j); }
    }
  }

  /** A CPU carries messages of its own only. */
  lemma CarriesOwn(s: State, c: nat)
    requires InvShape(s) && c < s.n && InvInitiator(s, c)
    ensures var m := Carried(s.cpus[c].init); m != 0 ==> m in s.msgs && m !in s.pool && s.msgs[m].owner == c
  {
  }

  /** Steps of an initiator that holds no message before or after. */
  lemma QuietStepInv(s: State, c: nat, cpu: Cpu, clock: nat)
    requires Inv(s) && c < s.n && Carried(s.cpus[c].init) == Carried(cpu.init) == 0
    requires cpu.handler == s.cpus[c].handler && Ages(s.cpus[c].tlb, cpu.tlb, s.clock)
    requires cpu.init.Alloc? ==> (cpu.init.mode.User? ==> cpu.init.i < s.n && cpu.init.i != c)
    requires cpu.init.Idle? || cpu.init.Scan? || cpu.init.Alloc? || cpu.init.Local?
    requires s.cpus[c].init.Idle? || s.cpus[c].init.Scan? || s.cpus[c].init.Local?
    requires s.clock <= clock
    ensures Inv(SetCpu(s, c, cpu).(clock := clock))
  {
    hide Inv, InvMsg, InvQueue, InvPlace;
    Own(s, c);
    StillStep(s, SetCpu(s, c, cpu).(clock := clock), c, 0);
  }

  /** An initiator that does not move is not hurt by its CPU dropping or loading translations. */
  lemma AgingInitiator(s: State, c: nat, cpu: Cpu)
    requires InvShape(s) && c < s.n && InvInitiator(s, c)
    requires cpu.init == s.cpus[c].init && Ages(s.cpus[c].tlb, cpu.tlb, s.clock)
    requires Carried(cpu.init) != 0 ==> s.msgs[Carried(cpu.init)].sentAt <= s.clock
    ensures InvInitiator(SetCpu(s, c, cpu), c)
  {
  }

  lemma LoadInv(s: State, c: nat, p: int)
    requires Inv(s) && c < s.n
    ensures Inv(Apply(s, Load(c, p)))
  {
    hide Inv, InvQueue, InvPlace, InvInitiator, Owned, AckedFresh;
    Own(s, c);
    var cpu := s.cpus[c].(tlb := s.cpus[c].tlb[p := s.clock]);
    AgingInitiator(s, c, cpu);
    StillStep(s, SetCpu(s, c, cpu), c, 0);
  }

  lemma NextCpu(n: nat, c: nat, i: nat)
    ensures i >= n ==> Others(n, c) - UpTo(i) == {}
    ensures i == c ==> Others(n, c) - UpTo(i) == Others(n, c) - UpTo(i + 1)
    ensures i < n && i != c ==> Others(n, c) - UpTo(i) == Others(n, c) - UpTo(i + 1) + {i}
  {
  }

  /** The initiator moves on with its message, everything about the message unchanged. */
  lemma CarryOn(s: State, c: nat, m: nat, cpu: Cpu)
    requires Inv(s) && c < s.n && m != 0 && Carried(s.cpus[c].init) == Carried(cpu.init) == m
    requires !s.cpus[c].init.InSend?
    requires cpu.handler == s.cpus[c].handler && Ages(s.cpus[c].tlb, cpu.tlb, s.clock)
    requires InvShape(s) && InvInitiator(SetCpu(s, c, cpu), c)
    requires m in s.msgs && Owned(s.n, s.msgs[m], cpu.init)
    ensures Inv(SetCpu(s, c, cpu))
  {
    hide Inv, InvQueue, InvPlace, InvInitiator, Owned, AckedFresh;
    Own(s, c);
    StillFresh(s, SetCpu(s, c, cpu), c, s.msgs[m], s.msgs[m]);
    StillStep(s, SetCpu(s, c, cpu), c, m);
  }

  /** What a message has been sent to does not depend on the initiator once nothing is left to send. */
  lemma OwnedMoves(n: nat, msg: Msg, a: Initiator, b: Initiator)
    requires Owned(n, msg, a) && !a.Fill? && !b.Fill?
    requires Unsent(n, msg.owner, a, msg.mode) == Unsent(n, msg.owner, b, msg.mode)
    requires forall j :: Ahead(j, b) ==> Ahead(j, a)
    ensures Owned(n, msg, b)
  {
  }

  lemma PassInv(s: State, c: nat, m: nat, i: nat, cpu: Cpu)
    requires Inv(s) && c < s.n && s.cpus[c].init == Send(m, i) && i < s.n
    requires m in s.msgs && (i == c || s.msgs[m].mode.User?)
    requires cpu == s.cpus[c].(init := Send(m, i + 1))
    ensures Inv(SetCpu(s, c, cpu))
  {
    hide Inv, Owned, AckedFresh, UpTo;
    Own(s, c);
    NextCpu(s.n, c, i);
    OwnedMoves(s.n, s.msgs[m], s.cpus[c].init, cpu.init);
    CarryOn(s, c, m, cpu);
  }

  lemma EndLoopInv(s: State, c: nat, m: nat, i: nat, cpu: Cpu)
    requires Inv(s) && c < s.n && s.cpus[c].init == Send(m, i) && i >= s.n && m in s.msgs
    requires cpu == s.cpus[c].(init := Local(m, s.msgs[m].lo, s.msgs[m].hi, s.msgs[m].lo))
    ensures Inv(SetCpu(s, c, cpu))
  {
    hide Inv, Owned, AckedFresh, UpTo;
    Own(s, c);
    NextCpu(s.n, c, i);
    OwnedMoves(s.n, s.msgs[m], s.cpus[c].init, cpu.init);
    CarryOn(s, c, m, cpu);
  }

  /** flush_tlb_single drops the translation of one page. */
  lemma DropPage(tlb: map<int, nat>, lo: int, a: int, t: nat, clock: nat)
    requires Fresh(tlb, lo, a, t)
    ensures Fresh(tlb - {a}, lo, a + 1, t) && Ages(tlb, tlb - {a}, clock)
  {
  }

  lemma FlushOwnInv(s: State, c: nat, m: nat, a: int, cpu: Cpu)
    requires Inv(s) && c < s.n && m in s.msgs && m != 0
    requires s.cpus[c].init == Local(m, s.msgs[m].lo, s.msgs[m].hi, a)
    requires cpu == s.cpus[c].(init := Local(m, s.msgs[m].lo, s.msgs[m].hi, a + 1), tlb := s.cpus[c].tlb - {a})
    ensures Inv(SetCpu(s, c, cpu))
  {
    hide Inv, Owned, AckedFresh, Fresh, Ages;
    Own(s, c);
    OwnedMoves(s.n, s.msgs[m], s.cpus[c].init, cpu.init);
    DropPage(s.cpus[c].tlb, s.msgs[m].lo, a, s.msgs[m].sentAt, s.clock);
    CarryOn(s, c, m, cpu);
  }

  lemma Shorter(tlb: map<int, nat>, lo: int, a: int, hi: int, t: nat, clock: nat)
    requires Fresh(tlb, lo, a, t) && hi <= a
    ensures Fresh(tlb, lo, hi, t) && Ages(tlb, tlb, clock)
  {
  }

  lemma EndFlushOwnInv(s: State, c: nat, m: nat, a: int, cpu: Cpu)
    requires Inv(s) && c < s.n && m in s.msgs && m != 0
    requires s.cpus[c].init == Local(m, s.msgs[m].lo, s.msgs[m].hi, a) && a >= s.msgs[m].hi
    requires cpu == s.cpus[c].(init := Wait(m))
    ensures Inv(SetCpu(s, c, cpu))
  {
    hide Inv, Owned, AckedFresh, Fresh, Ages;
    Own(s, c);
    OwnedMoves(s.n, s.msgs[m], s.cpus[c].init, cpu.init);
    Shorter(s.cpus[c].tlb, s.msgs[m].lo, a, s.msgs[m].hi, s.msgs[m].sentAt, s.clock);
    CarryOn(s, c, m, cpu);
  }

  lemma ZeroOwed(n: nat, msg: Msg, init: Initiator)
    requires Owned(n, msg, init) && msg.refCount == 0
    ensures msg.owed == {}
  {
  }

  lemma SeeZeroInv(s: State, c: nat, m: nat, cpu: Cpu)
    requires Inv(s) && c < s.n && m in s.msgs && s.cpus[c].init == Wait(m) && s.msgs[m].refCount == 0
    requires cpu == s.cpus[c].(init := Left(m))
    ensures Inv(SetCpu(s, c, cpu))
  {
    hide Inv, Owned, AckedFresh;
    Own(s, c);
    OwnedMoves(s.n, s.msgs[m], s.cpus[c].init, cpu.init);
    ZeroOwed(s.n, s.msgs[m], s.cpus[c].init);
    CarryOn(s, c, m, cpu);
  }

  // ------------------------------------------------------ pool and first write

  /** What the invariant says of a message in the pool, whose bookkeeping is at rest. */
  lemma Pooled(s: State, m: nat)
    requires Inv(s) && m in s.pool
    ensures InvShape(s) && m in s.msgs
    ensures s.msgs[m].refCount == 0 && s.msgs[m].owed == {} && s.msgs[m].at == map[] && s.msgs[m].sentAt <= s.clock
    ensures forall j :: 0 <= j < s.n ==> Carried(s.cpus[j].init) != m
  {
    assert InvMsg(s, m);
    forall j | 0 <= j < s.n ensures Carried(s.cpus[j].init) != m { assert InvInitiator(s, j); }
  }

  /** A step of CPU c that rewrites message m, without moving it, keeps the frame. */
  lemma UpdateFrame(s: State, r: State, c: nat, m: nat)
    requires InvShape(s) && c < s.n && m in s.msgs && InvShape(r) && r.n == s.n
    requires r == Goto(s, c, r.cpus[c].init).(msgs := s.msgs[m := r.msgs[m]], pool := r.pool, clock := r.clock)
    requires s.clock <= r.clock && (r.pool == s.pool || r.pool == s.pool + {m} || r.pool == s.pool - {m})
    requires r.msgs[m].at == s.msgs[m].at && (r.msgs[m].at != map[] ==> SameHeader(s.msgs[m], r.msgs[m]))
    ensures Touches(s, r, c, m) && NoMove(s, r, c)
  {
  }

  lemma UpdateInv(s: State, r: State, c: nat, m: nat)
    requires Inv(s) && InvShape(s) && c < s.n && m in s.msgs && InvShape(r) && r.n == s.n
    requires r == Goto(s, c, r.cpus[c].init).(msgs := s.msgs[m := r.msgs[m]], pool := r.pool, clock := r.clock)
    requires s.clock <= r.clock && (r.pool == s.pool || r.pool == s.pool + {m} || r.pool == s.pool - {m})
    requires r.msgs[m].at == s.msgs[m].at && (r.msgs[m].at != map[] ==> SameHeader(s.msgs[m], r.msgs[m]))
    requires !s.cpus[c].init.InSend? && (Carried(s.cpus[c].init) == 0 || Carried(s.cpus[c].init) == m)
    requires forall j :: 0 <= j < s.n && j != c ==> Carried(s.cpus[j].init) != m
    requires InvMsg(r, m) && InvInitiator(r, c)
    ensures Inv(r)
  {
    hide Inv, InvMsg, InvInitiator, Touches, NoMove;
    UpdateFrame(s, r, c, m);
    StillStep(s, r, c, m);
  }

  lemma TakeMessageInv(s: State, c: nat, m: nat, r: State)
    requires Inv(s) && c < s.n && m in s.pool && s.cpus[c].init.Alloc? && m in s.msgs
    requires var init := s.cpus[c].init;
      r == Goto(s, c, Fill(m, init.lo, init.hi, init.mode, init.i)).(
             pool := s.pool - {m}, msgs := s.msgs[m := s.msgs[m].(owner := c, asked := {}, acked := {})])
    ensures Inv(r)
  {
    hide Inv, UpTo;
    Own(s, c);
    Pooled(s, m);
    UpdateInv(s, r, c, m);
  }

  lemma FilledOwned(s: State, c: nat, init: Initiator, next: Initiator)
    requires init.Fill? && c < s.n && (init.mode.User? ==> init.i < s.n && init.i != c)
    requires next == if init.mode.Kernel? then Send(init.m, 0) else Counted(init.m, init.i)
    ensures Owned(s.n, Filled(s, c, init), next)
  {
    hide Asked, Sent, Filled;
    FilledAsked(s, c, init, next);
    FilledSent(s, c, init, next);
  }

  lemma FilledAsked(s: State, c: nat, init: Initiator, next: Initiator)
    requires init.Fill? && c < s.n && (init.mode.User? ==> init.i < s.n && init.i != c)
    ensures !next.Fill? ==> Asked(s.n, Filled(s, c, init), next)
  {
    hide UpTo, Others;
    AllOthers(s.n, c);
    if init.mode.User? { OneOfOthers(s.n, c, init.i); }
  }

  lemma OneOfOthers(n: nat, c: nat, i: nat)
    requires i < n && i != c
    ensures i in Others(n, c)
  {
  }

  lemma FilledSent(s: State, c: nat, init: Initiator, next: Initiator)
    requires init.Fill? && c < s.n
    requires next == if init.mode.Kernel? then Send(init.m, 0) else Counted(init.m, init.i)
    ensures Sent(s.n, Filled(s, c, init), next)
  {
    hide UpTo, Others;
    AllOthers(s.n, c);
    var none: map<nat, Place> := map[];
    assert none.Keys + Unsent(s.n, c, next, init.mode) == Unsent(s.n, c, next, init.mode);
  }

  lemma AllOthers(n: nat, c: nat)
    requires c < n
    ensures |Others(n, c)| == n - 1 && Others(n, c) - UpTo(0) == Others(n, c)
  {
  }

  lemma FillMessageInv(s: State, c: nat, m: nat, next: Initiator, r: State)
    requires Inv(s) && c < s.n && m in s.msgs && s.cpus[c].init.Fill? && s.cpus[c].init.m == m
    requires var init := s.cpus[c].init;
      && next == (if init.mode.Kernel? then Send(m, 0) else Counted(m, init.i))
      && r == Goto(s, c, next).(clock := s.clock + 1, msgs := s.msgs[m := Filled(s, c, init)])
    ensures Inv(r)
  {
    hide Inv, UpTo, Owned;
    Own(s, c);
    FilledOwned(s, c, s.cpus[c].init, next);
    OwedNothing(s, c, m);
    UpdateInv(s, r, c, m);
  }

  lemma OwedNothing(s: State, c: nat, m: nat)
    requires InvShape(s) && c < s.n && m in s.msgs && InvMsg(s, m) && m !in s.pool && s.msgs[m].owed == {}
    ensures s.msgs[m].at == map[]
  {
    assert s.msgs[m].at.Keys == {};
  }

  lemma CountedAsked(n: nat, msg: Msg, a: Initiator, b: Initiator, i: nat)
    requires Asked(n, msg, a) && msg.mode.User? && i < n && i != msg.owner && i !in msg.owed && i !in msg.acked
    ensures Asked(n, Recount(msg, i), b)
  {
    hide UpTo;
  }

  lemma CountedSent(n: nat, msg: Msg, m: nat, i: nat)
    requires Sent(n, msg, Send(m, i)) && msg.mode.User?
    ensures i !in msg.owed && i !in msg.acked
    ensures Sent(n, Recount(msg, i), Counted(m, i))
  {
    hide UpTo;
  }

  lemma CountInv(s: State, c: nat, m: nat, i: nat, r: State)
    requires Inv(s) && c < s.n && m in s.msgs && s.cpus[c].init == Send(m, i)
    requires i < s.n && i != c && s.msgs[m].mode.User?
    requires r == Goto(s, c, Counted(m, i)).(
               msgs := s.msgs[m := Recount(s.msgs[m], i)])
    ensures Inv(r)
  {
    hide Inv, UpTo, Asked, Sent;
    Own(s, c);
    assert Sent(s.n, s.msgs[m], Send(m, i)) && Asked(s.n, s.msgs[m], Send(m, i));
    CountedSent(s.n, s.msgs[m], m, i);
    CountedAsked(s.n, s.msgs[m], Send(m, i), Counted(m, i), i);
    StillFresh(s, r, c, s.msgs[m], r.msgs[m]);
    UpdateInv(s, r, c, m);
  }

  lemma FreeMessageInv(s: State, c: nat, m: nat, r: State)
    requires Inv(s) && c < s.n && s.cpus[c].init == Left(m)
    requires r == Goto(s, c, Idle).(pool := s.pool + {m})
    ensures m in s.msgs && s.msgs[m].refCount == 0
    ensures Inv(r)
  {
    hide Inv, UpTo;
    Own(s, c);
    OwedNothing(s, c, m);
    assert r.msgs == s.msgs[m := s.msgs[m]];
    UpdateInv(s, r, c, m);
  }

  // ------------------------------------------------------------ moving messages

  /** Message m moves within the queue and hands of CPU i, by a step of CPU c. */
  ghost predicate Moves(s: State, r: State, c: nat, i: nat, m: nat) {
    && Touches(s, r, c, m) && i < s.n && m in s.msgs
    && (forall j :: 0 <= j < s.n && j != i ==> r.queues[j] == s.queues[j] && r.cpus[j].handler == s.cpus[j].handler)
    && SameHeader(s.msgs[m], r.msgs[m])
    && (forall j :: j != i ==> (j in r.msgs[m].at <==> j in s.msgs[m].at))
    && (forall j :: j != i && j in s.msgs[m].at ==> r.msgs[m].at[j] == s.msgs[m].at[j])
    && (r.cpus[c].init != s.cpus[c].init ==> forall j :: 0 <= j < s.n && j != i ==> c !in s.queues[j].producers)
  }

  lemma MovesOtherProducers(s: State, r: State, c: nat, i: nat, m: nat, j: nat)
    requires Moves(s, r, c, i, m) && j < s.n && j != i && QProducers(s, j)
    ensures QProducers(r, j)
  {
    hide UpTo, Ages;
  }

  lemma MovesOtherHands(s: State, r: State, c: nat, i: nat, m: nat, j: nat)
    requires Moves(s, r, c, i, m) && j < s.n && j != i && QTickets(s, j) && QHands(s, j)
    requires forall k :: k in s.msgs ==> s.msgs[k].sentAt <= s.clock
    ensures QTickets(r, j) && QHands(r, j)
  {
    hide UpTo;
  }

  lemma MovesOtherQueue(s: State, r: State, c: nat, i: nat, m: nat, j: nat)
    requires Moves(s, r, c, i, m) && j < s.n && j != i && InvQueue(s, j)
    requires forall k :: k in s.msgs ==> s.msgs[k].sentAt <= s.clock
    ensures InvQueue(r, j)
  {
    hide QCount, QProducers, QTickets, QHands, UpTo, Ages;
    MovesOtherCount(s, r, c, i, m, j);
    MovesOtherProducers(s, r, c, i, m, j);
    MovesOtherHands(s, r, c, i, m, j);
  }

  lemma MovesOtherQueues(s: State, r: State, c: nat, i: nat, m: nat)
    requires Moves(s, r, c, i, m)
    requires forall k :: k in s.msgs ==> s.msgs[k].sentAt <= s.clock
    requires forall j :: 0 <= j < s.n ==> InvQueue(s, j)
    ensures forall j :: 0 <= j < s.n && j != i ==> InvQueue(r, j)
  {
    hide InvQueue;
    forall j | 0 <= j < s.n && j != i ensures InvQueue(r, j) { MovesOtherQueue(s, r, c, i, m, j); }
  }

  lemma MovesOtherCount(s: State, r: State, c: nat, i: nat, m: nat, j: nat)
    requires Moves(s, r, c, i, m) && j < s.n && j != i && QCount(s, j)
    ensures QCount(r, j)
  {
    hide M.Occupied, Ages;
    assert Transit(r, j) == Transit(s, j);
  }

  lemma MovesOtherPlaces(s: State, r: State, c: nat, i: nat, m: nat)
    requires Moves(s, r, c, i, m)
    requires forall k, j :: k in s.msgs && j in s.msgs[k].at ==> j < s.n && InvPlace(s, k, j)
    ensures forall k, j :: k in r.msgs && j in r.msgs[k].at && j != i ==> j < r.n && InvPlace(r, k, j)
  {
    forall k, j | k in r.msgs && j in r.msgs[k].at && j != i ensures j < r.n && InvPlace(r, k, j) {
      assert InvPlace(s, k, j);
    }
  }

  ghost predicate PlacesAt(s: State, i: nat)
    requires InvShape(s) && i < s.n
  {
    forall k :: k in s.msgs && i in s.msgs[k].at ==> InvPlace(s, k, i)
  }

  /** A step that moves m keeps the invariant if it keeps it for its own CPU, message and queue. */
  lemma MoveStep(s: State, r: State, c: nat, i: nat, m: nat)
    requires Inv(s) && Moves(s, r, c, i, m)
    requires Carried(s.cpus[c].init) == m || r.cpus[c].init == s.cpus[c].init
    requires r.msgs[m].owed <= s.msgs[m].owed && r.pool == s.pool
    requires InvRings(r) && InvInitiator(r, c) && InvMsg(r, m) && InvQueue(r, i) && PlacesAt(r, i)
    ensures Inv(r)
  {
    hide InvInitiator, InvMsg, InvQueue, InvPlace, M.Inv;
    Times(s);
    OtherInitiators(s, r, c, m);
    OtherMessages(s, r, c, m);
    MovesOtherQueues(s, r, c, i, m);
    MovesOtherPlaces(s, r, c, i, m);
  }

  /** The queue of CPU i, as a queue. */
  lemma Ring(s: State, i: nat)
    requires Inv(s) && i < s.n
    ensures InvShape(s) && InvRings(s) && M.Inv(s.queues[i]) && M.Counts(s.queues[i])
    ensures s.queues[i].taken <= s.queues[i].head && s.queues[i].capacity == s.n
    ensures InvQueue(s, i) && PlacesAt(s, i) && forall j :: 0 <= j < s.n ==> QProducers(s, j)
  {
    assert s.queues[i] in s.queues;
    forall j | 0 <= j < s.n ensures QProducers(s, j) { assert InvQueue(s, j); }
  }

  lemma RingsStep(s: State, r: State, i: nat, e: M.Step)
    requires InvShape(s) && InvRings(s) && i < s.n && M.Enabled(s.queues[i], e) && M.AssertionHolds(s.queues[i], e)
    requires r.queues == s.queues[i := M.Apply(s.queues[i], e)]
    ensures InvRings(r)
  {
    hide M.Inv, M.Apply, M.Enabled, M.AssertionHolds;
    assert s.queues[i] in s.queues;
    M.StepInv(s.queues[i], e);
    forall q | q in r.queues ensures M.Inv(q) {
      var j :| 0 <= j < |r.queues| && r.queues[j] == q;
      if j != i { assert s.queues[j] in s.queues; }
    }
  }

  /**
    The queue of a CPU the message has not been sent to has room, however many
    sends and receives are half done: its places are taken by distinct other
    messages, and there are only as many messages as CPUs.
  */
  lemma NeverRefused(s: State, m: nat, i: nat)
    requires InvShape(s) && i < s.n && m in s.msgs && i !in s.msgs[m].at && InvQueue(s, i)
    requires M.Counts(s.queues[i])
    ensures s.queues[i].size < s.queues[i].capacity
  {
    var q := s.queues[i];
    assert M.RefusedBy(q) == {};
    var others := MsgIds(s.n) - {m};
    assert Transit(s, i) <= others;
    SubsetSize(Transit(s, i), others);
  }

  // ------------------------------------------------------------------- enqueue

  /** The first step of mpsc_enqueue by CPU c, on the queue of CPU i, for message m. */
  ghost predicate IsEnqueue(s: State, r: State, c: nat, i: nat, m: nat) {
    && InvShape(s) && c < s.n && i < s.n && i != c && m in s.msgs
    && !s.cpus[c].init.InSend?
    && c !in s.queues[i].producers && m != 0 && s.queues[i].size < s.queues[i].capacity
    && i !in s.msgs[m].at && s.msgs[m].owner == c
    && r == Goto(s, c, InSend(m, i)).(
              queues := s.queues[i := M.Apply(s.queues[i], M.AddSize(c, m))],
              msgs := s.msgs[m := s.msgs[m].(at := s.msgs[m].at[i := AtSender])])
  }

  lemma EnqueueMoves(s: State, r: State, c: nat, i: nat, m: nat)
    requires IsEnqueue(s, r, c, i, m)
    requires forall j :: 0 <= j < s.n ==> QProducers(s, j)
    ensures Moves(s, r, c, i, m)
  {
    forall j | 0 <= j < s.n && j != i ensures c !in s.queues[j].producers { assert QProducers(s, j); }
  }

  lemma TransitPut(s: State, r: State, i: nat, m: nat, place: Place)
    requires m in s.msgs && r.msgs == s.msgs[m := s.msgs[m].(at := s.msgs[m].at[i := place])]
    ensures Transit(r, i) == Transit(s, i) + {m}
  {
  }

  lemma EnqueueCount(s: State, r: State, c: nat, i: nat, m: nat)
    requires IsEnqueue(s, r, c, i, m) && QCount(s, i) && s.queues[i].taken <= s.queues[i].head
    ensures InvShape(r) && QCount(r, i)
  {
    hide UpTo, M.Occupied;
    M.OccupiedStep(s.queues[i], M.AddSize(c, m));
    TransitPut(s, r, i, m, AtSender);
    assert m !in Transit(s, i);
    hide Transit;
  }

  lemma EnqueueQueue(s: State, r: State, c: nat, i: nat, m: nat)
    requires IsEnqueue(s, r, c, i, m) && QProducers(s, i) && QTickets(s, i) && QHands(s, i)
    ensures InvShape(r) && QProducers(r, i) && QTickets(r, i) && QHands(r, i)
  {
    assert QProducers(r, i) by { hide QTickets, QHands; }
    assert QTickets(r, i) by { hide QProducers, QHands; }
    assert QHands(r, i) by { hide QProducers, QTickets; }
  }

  lemma EnqueuePlaces(s: State, r: State, c: nat, i: nat, m: nat)
    requires IsEnqueue(s, r, c, i, m) && PlacesAt(s, i)
    ensures InvShape(r) && PlacesAt(r, i)
  {
    forall k | k in r.msgs && i in r.msgs[k].at ensures InvPlace(r, k, i) {
      if k != m { assert InvPlace(s, k, i); }
    }
  }

  /** The CPU being sent to is taken off the list of those still to be sent to. */
  lemma EnqueueSent(n: nat, msg: Msg, init: Initiator, m: nat, i: nat)
    requires Sent(n, msg, init) && i < n && i != msg.owner
    requires (init == Send(m, i) && msg.mode.Kernel?) || (init == Counted(m, i) && msg.mode.User?)
    ensures i !in msg.at
    ensures Sent(n, msg.(at := msg.at[i := AtSender]), InSend(m, i))
  {
    hide UpTo, Others;
    var next := InSend(m, i);
    assert Ahead(i, init);
    UnsentStep(n, msg.owner, init, m, i, msg.mode);
    assert msg.at[i := AtSender].Keys == msg.at.Keys + {i};
    forall j | Ahead(j, next) ensures j !in msg.at[i := AtSender] && j !in msg.acked {
      assert Ahead(j, init) && j != i;
    }
    hide Unsent, Ahead;
  }

  lemma UnsentStep(n: nat, c: nat, init: Initiator, m: nat, i: nat, mode: Mode)
    requires i < n && i != c && ((init == Send(m, i) && mode.Kernel?) || (init == Counted(m, i) && mode.User?))
    ensures Unsent(n, c, init, mode) == {i} + Unsent(n, c, InSend(m, i), mode)
  {
    NextCpu(n, c, i);
    hide UpTo;
  }

  /** Where the message is does not matter for who was asked. */
  lemma AskedKeeps(n: nat, msg: Msg, at: map<nat, Place>, a: Initiator, b: Initiator)
    requires Asked(n, msg, a) && (!a.Fill? || b.Fill?)
    ensures Asked(n, msg.(at := at), b)
  {
  }

  lemma EnqueueInv(s: State, r: State, c: nat, i: nat, m: nat)
    requires Inv(s) && c < s.n && i < s.n && i != c && m in s.msgs
    requires (s.cpus[c].init == Send(m, i) && s.msgs[m].mode.Kernel?) || s.cpus[c].init == Counted(m, i)
    requires Shape(s) && M.Enabled(s.queues[i], M.AddSize(c, m))
    requires r == Goto(s, c, InSend(m, i)).(
               queues := s.queues[i := M.Apply(s.queues[i], M.AddSize(c, m))],
               msgs := s.msgs[m := s.msgs[m].(at := s.msgs[m].at[i := AtSender])])
    ensures s.queues[i].size < s.queues[i].capacity && Inv(r)
  {
    hide Inv, InvRings, M.Inv, M.Counts, M.Occupied, Asked, Sent, AckedFresh, QProducers, QTickets, QHands;
    hide QCount, InvPlace, UpTo;
    Own(s, c);
    Ring(s, i);
    var msg := s.msgs[m];
    EnqueueSent(s.n, msg, s.cpus[c].init, m, i);
    AskedKeeps(s.n, msg, msg.at[i := AtSender], s.cpus[c].init, InSend(m, i));
    NeverRefused(s, m, i);
    EnqueueMoves(s, r, c, i, m);
    EnqueueCount(s, r, c, i, m);
    EnqueueQueue(s, r, c, i, m);
    EnqueuePlaces(s, r, c, i, m);
    RingsStep(s, r, i, M.AddSize(c, m));
    StillFresh(s, r, c, msg, r.msgs[m]);
    hide Moves;
    MoveStep(s, r, c, i, m);
  }

  // ------------------------------------------------- the rest of mpsc_enqueue

  /** The step after which message m is at `place` for CPU i, the sender c standing at `next`. */
  ghost predicate IsSend(s: State, r: State, c: nat, i: nat, m: nat, e: M.Step, place: Place, next: Initiator) {
    && InvShape(s) && c < s.n && i < s.n && i != c && m in s.msgs && s.msgs[m].owner == c
    && s.cpus[c].init == InSend(m, i) && c in s.queues[i].producers && i in s.msgs[m].at
    && e == NextSend(s.queues[i], c) && M.Enabled(s.queues[i], e) && M.AssertionHolds(s.queues[i], e)
    && (e.DrawTicket? || e.CheckSlot? || e.Publish?)
    && place == (if e.DrawTicket? then AtTicket(s.queues[i].head) else s.msgs[m].at[i])
    && next == (if e.Publish? then Send(m, i + 1) else InSend(m, i))
    && r == Goto(s, c, next).(
              queues := s.queues[i := M.Apply(s.queues[i], e)],
              msgs := s.msgs[m := s.msgs[m].(at := s.msgs[m].at[i := place])])
  }

  lemma SendMoves(s: State, r: State, c: nat, i: nat, m: nat, e: M.Step, place: Place, next: Initiator)
    requires IsSend(s, r, c, i, m, e, place, next)
    requires forall j :: 0 <= j < s.n ==> QProducers(s, j)
    ensures Moves(s, r, c, i, m)
  {
    hide UpTo;
    forall j | 0 <= j < s.n && j != i ensures c !in s.queues[j].producers { assert QProducers(s, j); }
  }

  lemma SendCount(s: State, r: State, c: nat, i: nat, m: nat, e: M.Step, place: Place, next: Initiator)
    requires IsSend(s, r, c, i, m, e, place, next) && QCount(s, i) && s.queues[i].taken <= s.queues[i].head
    ensures InvShape(r) && QCount(r, i)
  {
    hide UpTo, M.Occupied;
    M.OccupiedStep(s.queues[i], e);
    TransitPut(s, r, i, m, place);
    assert Transit(s, i) + {m} == Transit(s, i);
    hide Transit;
  }

  lemma SendProducers(s: State, r: State, c: nat, i: nat, m: nat, e: M.Step, place: Place, next: Initiator)
    requires IsSend(s, r, c, i, m, e, place, next) && QProducers(s, i)
    requires forall j :: 0 <= j < s.n && j != c ==> Carried(s.cpus[j].init) != m
    ensures InvShape(r) && QProducers(r, i)
  {
    hide UpTo;
  }

  lemma SendTickets(s: State, r: State, c: nat, i: nat, m: nat, e: M.Step, place: Place, next: Initiator)
    requires IsSend(s, r, c, i, m, e, place, next) && QTickets(s, i) && QProducers(s, i)
    ensures InvShape(r) && QTickets(r, i)
  {
    hide UpTo;
    if e.DrawTicket? { assert IsAt(s, m, i, AtSender); }
  }

  lemma SendHands(s: State, r: State, c: nat, i: nat, m: nat, e: M.Step, place: Place, next: Initiator)
    requires IsSend(s, r, c, i, m, e, place, next) && QHands(s, i) && QProducers(s, i)
    ensures InvShape(r) && QHands(r, i)
  {
    hide UpTo;
    if e.DrawTicket? { assert IsAt(s, m, i, AtSender); }
  }

  lemma SendPlaces(s: State, r: State, c: nat, i: nat, m: nat, e: M.Step, place: Place, next: Initiator)
    requires IsSend(s, r, c, i, m, e, place, next) && PlacesAt(s, i) && QProducers(s, i)
    requires s.queues[i].taken <= s.queues[i].head
    ensures InvShape(r) && PlacesAt(r, i)
  {
    hide UpTo;
    forall k | k in r.msgs && i in r.msgs[k].at ensures InvPlace(r, k, i) {
      assert InvPlace(s, k, i);
      assert s.queues[i].producers[c].x == m;
    }
  }

  lemma SendSent(n: nat, msg: Msg, m: nat, i: nat, place: Place, next: Initiator)
    requires Sent(n, msg, InSend(m, i)) && i in msg.at && (next == InSend(m, i) || next == Send(m, i + 1))
    ensures Sent(n, msg.(at := msg.at[i := place]), next)
  {
    hide UpTo;
    assert msg.at[i := place].Keys == msg.at.Keys;
  }

  lemma SendInv(s: State, r: State, c: nat, i: nat, m: nat, e: M.Step, place: Place, next: Initiator)
    requires Inv(s) && IsSend(s, r, c, i, m, e, place, next)
    ensures Inv(r)
  {
    hide Inv, InvRings, M.Inv, M.Counts, M.Occupied, Asked, Sent, AckedFresh, QProducers, QTickets, QHands;
    hide QCount, InvPlace, UpTo;
    Own(s, c);
    Ring(s, i);
    var msg := s.msgs[m];
    SendSent(s.n, msg, m, i, place, next);
    AskedKeeps(s.n, msg, msg.at[i := place], s.cpus[c].init, next);
    SendMoves(s, r, c, i, m, e, place, next);
    SendCount(s, r, c, i, m, e, place, next);
    SendProducers(s, r, c, i, m, e, place, next);
    SendTickets(s, r, c, i, m, e, place, next);
    SendHands(s, r, c, i, m, e, place, next);
    SendPlaces(s, r, c, i, m, e, place, next);
    RingsStep(s, r, i, e);
    StillFresh(s, r, c, msg, r.msgs[m]);
    assert InvInitiator(r, c);
    hide Moves;
    MoveStep(s, r, c, i, m);
  }

  // -------------------------------------------------------------- mpsc_dequeue

  /** The step of the consumer after which CPU c has message m at `place` and its handler at h. */
  ghost predicate IsReceive(s: State, r: State, c: nat, m: nat, e: M.Step, place: Place, h: Handler) {
    && InvShape(s) && c < s.n && m in s.msgs && c in s.msgs[m].at
    && s.cpus[c].handler.Out? && s.queues[c].taken <= s.queues[c].head
    && e == NextReceive(s.queues[c]) && M.Enabled(s.queues[c], e) && M.AssertionHolds(s.queues[c], e)
    && (if e.TakeSlot? then
          && s.queues[c].taken < s.queues[c].head && m == s.queues[c].issued[s.queues[c].taken]
          && s.queues[c].slots[s.queues[c].tail] == m && m != 0
          && s.msgs[m].at[c] == AtTicket(s.queues[c].taken)
        else s.queues[c].consumer.x == m && s.msgs[m].at[c] == InHand)
    && place == (if e.SubSize? then AtHandler else InHand)
    && h == (if e.SubSize? then Flushing(m, s.msgs[m].lo) else Out)
    && r == SetCpu(s, c, s.cpus[c].(handler := h)).(
              queues := s.queues[c := M.Apply(s.queues[c], e)],
              msgs := s.msgs[m := s.msgs[m].(at := s.msgs[m].at[c := place])])
  }

  lemma ReceiveMoves(s: State, r: State, c: nat, m: nat, e: M.Step, place: Place, h: Handler)
    requires IsReceive(s, r, c, m, e, place, h)
    ensures Moves(s, r, c, c, m)
  {
    hide UpTo;
  }

  lemma ReceiveCount(s: State, r: State, c: nat, m: nat, e: M.Step, place: Place, h: Handler)
    requires IsReceive(s, r, c, m, e, place, h) && QCount(s, c)
    ensures InvShape(r) && QCount(r, c)
  {
    hide UpTo, M.Occupied;
    M.OccupiedStep(s.queues[c], e);
    TransitPut(s, r, c, m, place);
    assert Transit(s, c) + {m} == Transit(s, c);
    hide Transit;
  }

  lemma ReceiveProducers(s: State, r: State, c: nat, m: nat, e: M.Step, place: Place, h: Handler)
    requires IsReceive(s, r, c, m, e, place, h) && QProducers(s, c)
    ensures InvShape(r) && QProducers(r, c)
  {
    hide UpTo;
  }

  lemma ReceiveTickets(s: State, r: State, c: nat, m: nat, e: M.Step, place: Place, h: Handler)
    requires IsReceive(s, r, c, m, e, place, h) && QTickets(s, c)
    ensures InvShape(r) && QTickets(r, c)
  {
    hide UpTo;
  }

  lemma ReceiveHands(s: State, r: State, c: nat, m: nat, e: M.Step, place: Place, h: Handler)
    requires IsReceive(s, r, c, m, e, place, h) && QHands(s, c)
    ensures InvShape(r) && QHands(r, c)
  {
    hide UpTo;
  }

  lemma ReceivePlaces(s: State, r: State, c: nat, m: nat, e: M.Step, place: Place, h: Handler)
    requires IsReceive(s, r, c, m, e, place, h) && PlacesAt(s, c)
    ensures InvShape(r) && PlacesAt(r, c)
  {
    hide UpTo;
    forall k | k in r.msgs && c in r.msgs[k].at ensures InvPlace(r, k, c) { assert InvPlace(s, k, c); }
  }

  /** The initiator of a CPU whose handler works on a message of another CPU. */
  lemma SelfInitiator(s: State, r: State, c: nat, m: nat)
    requires Touches(s, r, c, m) && InvInitiator(s, c) && r.cpus[c].init == s.cpus[c].init
    requires Carried(s.cpus[c].init) != m
    requires forall k :: k in s.msgs ==> s.msgs[k].sentAt <= s.clock
    requires forall i :: 0 <= i < s.n ==> (c in r.queues[i].producers <==> c in s.queues[i].producers)
    ensures InvInitiator(r, c)
  {
    var init := s.cpus[c].init;
    if init.InSend? { assert c in r.queues[init.i].producers; }
  }

  /** A message on its way to CPU c belongs to another CPU, which waits for c. */
  lemma InTransit(s: State, c: nat, m: nat)
    requires Inv(s) && m in s.msgs && c in s.msgs[m].at
    ensures InvShape(s) && c < s.n && InvInitiator(s, c) && Carried(s.cpus[c].init) != m
    ensures m !in s.pool && InvMsg(s, m) && c in s.msgs[m].owed && s.msgs[m].owner < s.n && s.msgs[m].owner != c
    ensures forall k :: k in s.msgs ==> s.msgs[k].sentAt <= s.clock
  {
    assert InvMsg(s, m);
    assert c < s.n && InvPlace(s, m, c);
    assert InvInitiator(s, c);
    Times(s);
  }

  lemma PlaceSent(n: nat, msg: Msg, init: Initiator, i: nat, place: Place)
    requires Sent(n, msg, init) && i in msg.at
    ensures Sent(n, msg.(at := msg.at[i := place]), init)
  {
    hide UpTo, Unsent;
    assert msg.at[i := place].Keys == msg.at.Keys;
  }

  lemma ReceiveInitiator(s: State, r: State, c: nat, m: nat, e: M.Step, place: Place, h: Handler)
    requires IsReceive(s, r, c, m, e, place, h) && InvInitiator(s, c)
    requires Carried(s.cpus[c].init) != m && Moves(s, r, c, c, m)
    requires forall k :: k in s.msgs ==> s.msgs[k].sentAt <= s.clock
    ensures InvShape(r) && InvInitiator(r, c) && r.pool == s.pool
    ensures r.cpus[c].init == s.cpus[c].init && r.queues == s.queues[c := M.Apply(s.queues[c], e)]
  {
    hide UpTo, InvInitiator;
    SelfInitiator(s, r, c, m);
  }

  lemma ReceiveMsg(s: State, r: State, c: nat, m: nat, e: M.Step, place: Place, h: Handler)
    requires IsReceive(s, r, c, m, e, place, h) && InvMsg(s, m) && m !in s.pool && s.msgs[m].owner != c
    requires Moves(s, r, c, c, m) && InvShape(r)
    ensures InvMsg(r, m) && r.msgs[m].owed == s.msgs[m].owed
  {
    hide Asked, Sent, AckedFresh, UpTo, M.Apply, M.Enabled, M.AssertionHolds;
    var msg := s.msgs[m];
    var init := s.cpus[msg.owner].init;
    PlaceSent(s.n, msg, init, c, place);
    AskedKeeps(s.n, msg, msg.at[c := place], init, init);
    StillFresh(s, r, c, msg, r.msgs[m]);
  }

  lemma ReceiveInv(s: State, r: State, c: nat, m: nat, e: M.Step, place: Place, h: Handler)
    requires Inv(s) && IsReceive(s, r, c, m, e, place, h) && Shape(s) && m in s.msgs && c in s.msgs[m].at
    requires M.Enabled(s.queues[c], e) && M.AssertionHolds(s.queues[c], e)
    ensures Inv(r)
  {
    hide Inv, InvRings, InvMsg, InvInitiator, IsReceive, Moves, M.Inv, M.Counts, M.Apply;
    hide QProducers, QTickets, QHands, QCount, InvPlace, UpTo;
    InTransit(s, c, m);
    Ring(s, c);
    ReceiveMoves(s, r, c, m, e, place, h);
    ReceiveInitiator(s, r, c, m, e, place, h);
    ReceiveMsg(s, r, c, m, e, place, h);
    ReceiveCount(s, r, c, m, e, place, h);
    ReceiveProducers(s, r, c, m, e, place, h);
    ReceiveTickets(s, r, c, m, e, place, h);
    ReceiveHands(s, r, c, m, e, place, h);
    ReceivePlaces(s, r, c, m, e, place, h);
    RingsStep(s, r, c, e);
    MoveStep(s, r, c, c, m);
  }

  // ------------------------------------------------- flushing and acknowledging

  ghost predicate IsFlushRemote(s: State, r: State, c: nat, m: nat) {
    && InvShape(s) && c < s.n && m in s.msgs && c in s.msgs[m].at
    && s.cpus[c].handler.Flushing? && s.cpus[c].handler.m == m
    && r == SetCpu(s, c, s.cpus[c].(handler := Flushing(m, s.cpus[c].handler.a + 1),
                                    tlb := s.cpus[c].tlb - {s.cpus[c].handler.a}))
  }

  lemma FlushRemoteQueue(s: State, r: State, c: nat, m: nat)
    requires IsFlushRemote(s, r, c, m) && InvQueue(s, c) && PlacesAt(s, c)
    ensures InvShape(r) && InvQueue(r, c) && PlacesAt(r, c) && Moves(s, r, c, c, m)
  {
    hide M.Occupied, UpTo;
    DropPage(s.cpus[c].tlb, s.msgs[m].lo, s.cpus[c].handler.a, s.msgs[m].sentAt, s.clock);
    hide Fresh, Ages;
    assert Transit(r, c) == Transit(s, c);
    assert PlacesAt(r, c) by {
      forall k | k in r.msgs && c in r.msgs[k].at ensures InvPlace(r, k, c) { assert InvPlace(s, k, c); }
    }
  }

  lemma FlushRemoteInv(s: State, r: State, c: nat, m: nat)
    requires Inv(s) && IsFlushRemote(s, r, c, m)
    ensures Inv(r)
  {
    hide Inv, InvRings, M.Inv, M.Counts, M.Occupied, Asked, Sent, AckedFresh, QProducers, QTickets, QHands;
    hide QCount, InvPlace, UpTo;
    InTransit(s, c, m);
    Ring(s, c);
    FlushRemoteQueue(s, r, c, m);
    StillFresh(s, r, c, s.msgs[m], r.msgs[m]);
    assert InvMsg(r, m);
    assert InvRings(r) by { SameRings(s, r); }
    SelfInitiator(s, r, c, m);
    hide Moves, InvInitiator, InvMsg;
    MoveStep(s, r, c, c, m);
  }

  lemma SameRings(s: State, r: State)
    requires InvRings(s) && r.queues == s.queues
    ensures InvRings(r)
  {
    hide M.Inv;
  }

  ghost predicate IsAck(s: State, r: State, c: nat, m: nat) {
    && InvShape(s) && c < s.n && m in s.msgs && c in s.msgs[m].at && c in s.msgs[m].owed
    && s.cpus[c].handler.Flushing? && s.cpus[c].handler.m == m && s.cpus[c].handler.a >= s.msgs[m].hi
    && s.msgs[m].refCount != 0
    && r == SetCpu(s, c, s.cpus[c].(handler := Out)).(msgs := s.msgs[m := Acked(s.msgs[m], c)])
  }

  lemma AckAsked(n: nat, msg: Msg, init: Initiator, c: nat)
    requires Asked(n, msg, init) && c in msg.owed
    ensures msg.refCount != 0 && Asked(n, Acked(msg, c), init)
  {
    hide UpTo;
  }

  lemma AckSent(n: nat, msg: Msg, init: Initiator, c: nat)
    requires Sent(n, msg, init) && c in msg.at && msg.refCount != 0
    ensures Sent(n, Acked(msg, c), init)
  {
    hide UpTo;
    assert Acked(msg, c).at.Keys == msg.at.Keys - {c};
    assert c !in Unsent(n, msg.owner, init, msg.mode);
  }

  lemma AckFresh(s: State, r: State, c: nat, m: nat)
    requires IsAck(s, r, c, m) && QHands(s, c) && AckedFresh(s.cpus, s.msgs[m])
    ensures AckedFresh(r.cpus, r.msgs[m])
  {
    var msg := s.msgs[m];
    assert Fresh(s.cpus[c].tlb, msg.lo, msg.hi, msg.sentAt);
    forall d | d in msg.acked + {c} ensures d < |r.cpus| && Fresh(r.cpus[d].tlb, msg.lo, msg.hi, msg.sentAt) {
      assert r.cpus[d].tlb == s.cpus[d].tlb;
    }
  }

  lemma AckQueue(s: State, r: State, c: nat, m: nat)
    requires IsAck(s, r, c, m) && InvQueue(s, c) && PlacesAt(s, c)
    ensures InvShape(r) && InvQueue(r, c) && PlacesAt(r, c)
  {
    hide M.Occupied, UpTo;
    assert Transit(r, c) == Transit(s, c) - {m};
    assert IsAt(s, m, c, AtHandler);
    assert PlacesAt(r, c) by {
      forall k | k in r.msgs && c in r.msgs[k].at ensures InvPlace(r, k, c) { assert InvPlace(s, k, c); }
    }
  }

  lemma AckInv(s: State, r: State, c: nat, m: nat)
    requires Inv(s) && IsAck(s, r, c, m)
    ensures Inv(r)
  {
    hide Inv, InvRings, M.Inv, M.Counts, M.Occupied, Asked, Sent, AckedFresh, QProducers, QTickets, QHands;
    hide QCount, InvPlace, UpTo;
    InTransit(s, c, m);
    Ring(s, c);
    var msg := s.msgs[m];
    var init := s.cpus[msg.owner].init;
    AckAsked(s.n, msg, init, c);
    AckSent(s.n, msg, init, c);
    AckQueue(s, r, c, m);
    AckFresh(s, r, c, m);
    SameRings(s, r);
    assert InvMsg(r, m);
    assert Moves(s, r, c, c, m);
    SelfInitiator(s, r, c, m);
    hide Moves, InvInitiator, InvMsg;
    MoveStep(s, r, c, c, m);
  }

  // ---------------------------------------------------------------- every step

  lemma SenderAssertions(s: State, c: nat)
    requires Inv(s) && Shape(s) && c < s.n && (Enabled(s, Enqueue(c)) || Enabled(s, SenderStep(c)))
    ensures Enabled(s, Enqueue(c)) ==> AssertionHolds(s, Enqueue(c))
    ensures Enabled(s, SenderStep(c)) ==> AssertionHolds(s, SenderStep(c))
  {
    hide Inv, InvRings, M.Inv, M.Counts, M.Occupied, Asked, Sent, AckedFresh, QTickets, QCount, InvPlace, UpTo;
    Own(s, c);
    var i := s.cpus[c].init.i;
    Ring(s, i);
    if s.cpus[c].init.InSend? { M.InvAssertion(s.queues[i], NextSend(s.queues[i], c)); }
  }

  lemma HandlerAssertions(s: State, e: Step)
    requires Inv(s) && Shape(s) && Enabled(s, e) && (e.HandlerStep? || e.FlushRemote? || e.Ack?)
    ensures AssertionHolds(s, e) && InvShape(s)
    ensures e.FlushRemote? || e.Ack? ==>
      e.c in s.msgs[s.cpus[e.c].handler.m].at && e.c in s.msgs[s.cpus[e.c].handler.m].owed
  {
    hide Inv, InvRings, M.Inv, M.Counts, M.Occupied, Asked, Sent, AckedFresh, QTickets, QCount, InvPlace, UpTo;
    Ring(s, e.c);
    if e.HandlerStep? { M.InvAssertion(s.queues[e.c], NextReceive(s.queues[e.c])); }
    else {
      var m := s.cpus[e.c].handler.m;
      assert IsAt(s, m, e.c, AtHandler);
      InTransit(s, e.c, m);
      AckAsked(s.n, s.msgs[m], s.cpus[s.msgs[m].owner].init, e.c);
    }
  }

  /** No ASSERT of cpu.c or mpsc.h fails, whatever the other CPUs are in the middle of. */
  lemma AssertionsHold(s: State, e: Step)
    requires Inv(s) && Shape(s) && Enabled(s, e)
    ensures AssertionHolds(s, e)
  {
    hide Inv, InvRings, M.Inv, M.Counts, M.Occupied, Asked, Sent, AckedFresh, QTickets, QCount, InvPlace;
    hide UpTo, InvQueue;
    if e.Enqueue? || e.SenderStep? { SenderAssertions(s, e.c); }
    else if e.HandlerStep? || e.FlushRemote? || e.Ack? { HandlerAssertions(s, e); }
    else if e.TakeMessage? { Pooled(s, e.m); }
    else {
      Own(s, e.c);
      if e.FreeMessage? { EmptyOwed(s.n, s.msgs[s.cpus[e.c].init.m], s.cpus[e.c].init); }
    }
  }

  lemma EmptyOwed(n: nat, msg: Msg, init: Initiator)
    requires Asked(n, msg, init) && msg.owed == {}
    ensures msg.refCount == 0
  {
  }

  lemma InitiatorStepInv(s: State, e: Step)
    requires Inv(s) && Shape(s) && Enabled(s, e) && AssertionHolds(s, e)
    requires e.Begin? || e.Pass? || e.Need? || e.EndLoop? || e.FlushOwn? || e.SeeZero?
    ensures Inv(Apply(s, e))
  {
    hide Inv, InvRings, M.Inv, M.Counts, M.Occupied, Asked, Sent, AckedFresh, QTickets, QCount, InvPlace;
    hide UpTo, InvQueue;
    var c := e.c;
    Own(s, c);
    var init := s.cpus[c].init;
    var m := Carried(init);
    var cpu := Apply(s, e).cpus[c];
    if m == 0 { QuietStepInv(s, c, cpu, Apply(s, e).clock); }
    else if e.Pass? { PassInv(s, c, m, init.i, cpu); }
    else if e.EndLoop? { EndLoopInv(s, c, m, init.i, cpu); }
    else if e.FlushOwn? && init.a < init.hi { FlushOwnInv(s, c, m, init.a, cpu); }
    else if e.FlushOwn? { EndFlushOwnInv(s, c, m, init.a, cpu); }
    else { SeeZeroInv(s, c, m, cpu); }
  }

  lemma SenderStepInv(s: State, c: nat)
    requires Inv(s) && Shape(s) && c < s.n && Enabled(s, SenderStep(c)) && AssertionHolds(s, SenderStep(c))
    ensures Inv(SenderStepped(s, c))
  {
    hide Inv, InvRings, M.Inv, M.Counts, M.Occupied, Asked, Sent, AckedFresh, QTickets, QCount, InvPlace;
    hide UpTo, InvQueue, M.Apply;
    Own(s, c);
    var init := s.cpus[c].init;
    var m, i, q := init.m, init.i, s.queues[init.i];
    var e := NextSend(q, c);
    SentTo(s, c, m, i);
    var place := if e.DrawTicket? then AtTicket(q.head) else s.msgs[m].at[i];
    var r := SenderStepped(s, c);
    assert s.msgs[m].at[i := s.msgs[m].at[i]] == s.msgs[m].at;
    SendInv(s, r, c, i, m, e, place, r.cpus[c].init);
  }

  /** While c is inside mpsc_enqueue on the queue of i, the message is recorded as sent to i. */
  lemma SentTo(s: State, c: nat, m: nat, i: nat)
    requires Inv(s) && c < |s.cpus| && s.cpus[c].init == InSend(m, i)
    ensures m in s.msgs && i in s.msgs[m].at
  {
    hide M.Inv, M.Counts, M.Occupied, UpTo, Owned, AckedFresh, InvPlace, QHands, QCount;
    Own(s, c);
    Ring(s, i);
    hide Inv;
    var q := s.queues[i];
    if q.producers[c].Reserved? { assert IsAt(s, m, i, AtSender); }
    else {
      M.HeldTicket(q, c);
      assert IsAt(s, q.issued[q.producers[c].t], i, AtTicket(q.producers[c].t));
    }
  }

  /** The message the consumer is about to take or has taken. */
  lemma Receiving(s: State, c: nat, m: nat)
    requires Inv(s) && Shape(s) && c < s.n && s.cpus[c].handler.Out?
    requires var q := s.queues[c];
      if q.consumer.Outside? then q.tail < |q.slots| && m == q.slots[q.tail] && m != 0 else m == q.consumer.x
    ensures m in s.msgs && c in s.msgs[m].at
    ensures var q := s.queues[c];
      if q.consumer.Outside? then
        && q.taken < q.head && m == q.issued[q.taken]
        && s.msgs[m].at[c] == AtTicket(q.taken)
      else s.msgs[m].at[c] == InHand
  {
    hide Inv, M.Inv, M.Occupied, UpTo;
    Ring(s, c);
    var q := s.queues[c];
    if q.consumer.Outside? {
      M.TakenIsNext(q);
      assert IsAt(s, q.issued[q.taken], c, AtTicket(q.taken));
    }
  }

  lemma HandlerStepInv(s: State, c: nat)
    requires Inv(s) && Shape(s) && c < s.n && Enabled(s, HandlerStep(c)) && AssertionHolds(s, HandlerStep(c))
    ensures Inv(HandlerStepped(s, c))
  {
    hide Inv, InvRings, M.Inv, M.Counts, M.Occupied, Asked, Sent, AckedFresh, QTickets, QCount, InvPlace;
    hide UpTo, InvQueue, InvInitiator;
    Ring(s, c);
    var q := s.queues[c];
    var e := NextReceive(q);
    var r := HandlerStepped(s, c);
    if e.TakeSlot? && q.slots[q.tail] == 0 {
      assert s.queues[c := q] == s.queues;
    } else {
      var m := if e.TakeSlot? then q.slots[q.tail] else q.consumer.x;
      Receiving(s, c, m);
      assert s.msgs[m].at[c := s.msgs[m].at[c]] == s.msgs[m].at;
      ReceiveInv(s, r, c, m, e, if e.SubSize? then AtHandler else InHand, r.cpus[c].handler);
    }
  }

  /** Every step of every CPU keeps the invariant. */
  lemma StepInv(s: State, e: Step)
    requires Inv(s) && Shape(s) && Enabled(s, e)
    ensures AssertionHolds(s, e) && Inv(Apply(s, e))
  {
    hide Inv, InvRings, M.Inv, M.Counts, M.Occupied, Asked, Sent, AckedFresh, QTickets, QCount, InvPlace;
    hide UpTo, InvQueue, InvInitiator, M.Apply;
    AssertionsHold(s, e);
    var c := e.c;
    var init := s.cpus[c].init;
    var r := Apply(s, e);
    match e
    case Load(_, p) => LoadInv(s, c, p);
    case TakeMessage(_, m) => TakeMessageInv(s, c, m, r);
    case FillMessage(_) => FillMessageInv(s, c, init.m, r.cpus[c].init, r);
    case Count(_) => CountInv(s, c, init.m, init.i, r);
    case FreeMessage(_) => FreeMessageInv(s, c, init.m, r);
    case Enqueue(_) => OtherCpu(s, c); EnqueueInv(s, r, c, init.i, init.m);
    case SenderStep(_) => SenderStepInv(s, c);
    case HandlerStep(_) => HandlerStepInv(s, c);
    case FlushRemote(_) => HandlerAssertions(s, e); FlushRemoteInv(s, r, c, s.cpus[c].handler.m);
    case Ack(_) => HandlerAssertions(s, e); AckInv(s, r, c, s.cpus[c].handler.m);
    case _ => InitiatorStepInv(s, e);
  }

  lemma OtherCpu(s: State, c: nat)
    requires Inv(s) && Shape(s) && Enabled(s, Enqueue(c))
    ensures s.cpus[c].init.i != c
  {
    Own(s, c);
  }

  // --------------------------------------------------------------------- runs

  ghost predicate Runs(s: State, es: seq<Step>)
    decreases |es|
  {
    es == [] || (Shape(s) && Enabled(s, es[0]) && AssertionHolds(s, es[0]) && Runs(Apply(s, es[0]), es[1..]))
  }

  ghost function Final(s: State, es: seq<Step>): State
    requires Runs(s, es)
    decreases |es|
  {
    if es == [] then s else Final(Apply(s, es[0]), es[1..])
  }

  lemma {:induction false} RunInv(s: State, es: seq<Step>)
    requires Inv(s) && Runs(s, es)
    ensures Inv(Final(s, es))
    decreases |es|
  {
    hide Inv, Apply, Enabled, AssertionHolds;
    if es != [] {
      StepInv(s, es[0]);
      RunInv(Apply(s, es[0]), es[1..]);
    }
  }

  lemma EnqueueHasRoom(s: State, c: nat)
    requires Inv(s) && Shape(s) && Enabled(s, Enqueue(c)) && AssertionHolds(s, Enqueue(c)) && s.cpus[c].init.i != c
    ensures Accepted(s, Enqueue(c))
  {
    hide Inv;
    EnqueueInv(s, Enqueued(s, c), c, s.cpus[c].init.i, s.cpus[c].init.m);
  }

  lemma {:induction false} SameSize(s: State, es: seq<Step>)
    requires Runs(s, es)
    ensures Final(s, es).n == s.n
    decreases |es|
  {
    if es != [] { SameSize(Apply(s, es[0]), es[1..]); }
  }

  /** Message m is nowhere: no queue holds it, no sender sends it, no CPU works on it. */
  ghost predicate Nowhere(s: State, m: nat)
    requires Shape(s)
  {
    forall c :: 0 <= c < s.n ==>
      && (forall p :: p in s.queues[c].producers && !s.queues[c].producers[p].Refused? ==>
        s.queues[c].producers[p].x != m)
      && m !in s.queues[c].slots
      && (!s.queues[c].consumer.Outside? ==> s.queues[c].consumer.x != m)
      && (s.cpus[c].handler.Flushing? ==> s.cpus[c].handler.m != m)
  }

  /** A nonzero slot holds a message recorded there. */
  lemma SlotRecorded(s: State, c: nat, k: nat)
    requires InvShape(s) && c < s.n && M.Inv(s.queues[c]) && QTickets(s, c) && k < |s.queues[c].slots|
    requires s.queues[c].slots[k] != 0
    ensures s.queues[c].slots[k] in s.msgs && c in s.msgs[s.queues[c].slots[k]].at
  {
    var q := s.queues[c];
    var t := M.TicketOfSlot(q, k);
    hide M.Inv;
    assert IsAt(s, q.issued[t], c, AtTicket(t));
  }

  lemma PooledNowhere(s: State, m: nat)
    requires Inv(s) && Shape(s) && m in s.pool
    ensures Nowhere(s, m)
  {
    hide Inv, M.Inv, M.Counts, M.Occupied, Asked, Sent, AckedFresh, QCount, InvPlace, UpTo;
    Pooled(s, m);
    forall c | 0 <= c < s.n
      ensures (forall p :: p in s.queues[c].producers && !s.queues[c].producers[p].Refused? ==>
        s.queues[c].producers[p].x != m)
      ensures m !in s.queues[c].slots
      ensures !s.queues[c].consumer.Outside? ==> s.queues[c].consumer.x != m
      ensures s.cpus[c].handler.Flushing? ==> s.cpus[c].handler.m != m
    {
      Ring(s, c);
      if m in s.queues[c].slots {
        var k :| 0 <= k < |s.queues[c].slots| && s.queues[c].slots[k] == m;
        SlotRecorded(s, c, k);
      }
    }
  }

  // ---------------------------------------------------- a flush as asked for

  /** A call of flush_tlb_range by CPU c, begun after time t; `who` are the CPUs its loop chose to ask. */
  datatype Call = Call(c: nat, lo: int, hi: int, mode: Mode, t: nat, who: set<nat>)

  /** Message m asks for what the caller asked for, of the CPUs chosen, since the call began. */
  ghost predicate Asks(s: State, f: Call, m: nat) {
    && m in s.msgs && s.msgs[m].lo == f.lo && s.msgs[m].hi == f.hi && s.msgs[m].mode == f.mode
    && f.t < s.msgs[m].sentAt
    && (f.mode.User? ==> s.msgs[m].asked == f.who)
  }

  /** CPU d is to flush: CPU c itself, those chosen, and for a kernel range all. */
  ghost predicate Concerned(n: nat, c: nat, mode: Mode, who: set<nat>, d: nat) {
    d == c || d in who || (mode.Kernel? && d < n)
  }

  /** The CPUs that are to flush hold no translation of the range from before the call. */
  ghost predicate AllFlushed(s: State, f: Call)
    requires Shape(s)
  {
    forall d: nat :: Concerned(s.n, f.c, f.mode, f.who, d) ==>
      d < s.n && Fresh(s.cpus[d].tlb, f.lo, f.hi, f.t + 1)
  }

  /** The initiator of CPU c is where the call can have brought it, with the call's own range. */
  ghost predicate Underway(s: State, f: Call)
    requires Shape(s) && f.c < s.n
  {
    && f.t < s.clock
    && (f.mode.Kernel? ==> f.who == {})
    && match s.cpus[f.c].init
       case Idle => AllFlushed(s, f)
       case Scan(lo, hi, _) => lo == f.lo && hi == f.hi && f.mode.User? && f.who == {}
       case Alloc(lo, hi, mode, i) => lo == f.lo && hi == f.hi && mode == f.mode && (mode.User? ==> f.who == {i})
       case Fill(_, lo, hi, mode, i) => lo == f.lo && hi == f.hi && mode == f.mode && (mode.User? ==> f.who == {i})
       case Local(m, lo, hi, a) =>
         && lo == f.lo && hi == f.hi
         && if m != 0 then Asks(s, f, m)
            else f.mode.User? && f.who == {} && Fresh(s.cpus[f.c].tlb, lo, a, f.t + 1)
       case Send(m, _) => Asks(s, f, m)
       case Counted(m, _) => Asks(s, f, m)
       case InSend(m, _) => Asks(s, f, m)
       case Wait(m) => Asks(s, f, m)
       case Left(m) => Asks(s, f, m)
  }

  lemma Fresher(tlb: map<int, nat>, lo: int, hi: int, t: nat, u: nat)
    requires Fresh(tlb, lo, hi, u) && t <= u
    ensures Fresh(tlb, lo, hi, t)
  {
  }

  /** An initiator that left its wait loop, and every CPU it asked, has flushed what the caller asked for. */
  lemma LeftMeansFlushed(s: State, f: Call)
    requires Inv(s) && Shape(s) && f.c < s.n && s.cpus[f.c].init.Left? && Underway(s, f)
    ensures AllFlushed(s, f)
  {
    hide Inv, Sent, UpTo, Fresh;
    Own(s, f.c);
    var msg := s.msgs[s.cpus[f.c].init.m];
    assert msg.asked == msg.acked;
    forall d: nat | Concerned(s.n, f.c, f.mode, f.who, d)
      ensures d < s.n && Fresh(s.cpus[d].tlb, f.lo, f.hi, f.t + 1)
    {
      if d != f.c && f.mode.Kernel? { OneOfOthers(s.n, f.c, d); }
      assert d == f.c || d in msg.acked;
      Fresher(s.cpus[d].tlb, f.lo, f.hi, f.t + 1, msg.sentAt);
    }
  }

  /** A step drops translations, or loads one at the present time; no clock goes back. */
  lemma StepAges(s: State, e: Step, d: nat)
    requires Shape(s) && Enabled(s, e) && AssertionHolds(s, e) && d < s.n
    ensures var r := Apply(s, e);
      Shape(r) && r.n == s.n && s.clock <= r.clock && Ages(s.cpus[d].tlb, r.cpus[d].tlb, s.clock)
    ensures forall p :: p in Apply(s, e).cpus[d].tlb ==>
      e == Load(d, p) || (p in s.cpus[d].tlb && Apply(s, e).cpus[d].tlb[p] == s.cpus[d].tlb[p])
  {
    hide M.Apply, M.Enabled, M.AssertionHolds, UpTo;
  }

  /** A message's header is written by its owner only, on taking and filling it. */
  lemma StepHeader(s: State, e: Step, m: nat)
    requires Shape(s) && Enabled(s, e) && AssertionHolds(s, e) && m in s.msgs
    requires e.TakeMessage? ==> e.m != m
    requires e.FillMessage? || e.Count? ==> Carried(s.cpus[e.c].init) != m
    ensures var r := Apply(s, e);
      m in r.msgs && SameHeader(s.msgs[m], r.msgs[m]) && r.msgs[m].asked == s.msgs[m].asked
  {
    hide M.Apply, M.Enabled, M.AssertionHolds;
  }

  lemma FlushedStays(s: State, e: Step, f: Call)
    requires Shape(s) && Enabled(s, e) && AssertionHolds(s, e) && AllFlushed(s, f) && f.t < s.clock
    ensures Shape(Apply(s, e)) && AllFlushed(Apply(s, e), f)
  {
    assert e.c < s.n;
    hide Enabled, AssertionHolds, Apply;
    StepAges(s, e, e.c);
    var r := Apply(s, e);
    forall d: nat | Concerned(r.n, f.c, f.mode, f.who, d)
      ensures d < r.n && Fresh(r.cpus[d].tlb, f.lo, f.hi, f.t + 1)
    {
      assert Concerned(s.n, f.c, f.mode, f.who, d);
      StepAges(s, e, d);
    }
  }
  /** Steps that leave the initiator where it is. */
  lemma UnderwayStill(s: State, r: State, f: Call)
    requires Shape(s) && Shape(r) && r.n == s.n && f.c < s.n && s.clock <= r.clock && Underway(s, f)
    requires r.cpus[f.c].init == s.cpus[f.c].init && Ages(s.cpus[f.c].tlb, r.cpus[f.c].tlb, s.clock)
    requires var m := Carried(s.cpus[f.c].init); m in s.msgs ==>
      m in r.msgs && SameHeader(s.msgs[m], r.msgs[m]) && r.msgs[m].asked == s.msgs[m].asked
    requires s.cpus[f.c].init.Idle? ==> AllFlushed(r, f)
    ensures Underway(r, f)
  {
    hide AllFlushed;
  }

  /** The call with the CPU that its loop chooses to ask in step e. */
  ghost function Choosing(s: State, e: Step, f: Call): Call
    requires Shape(s) && Enabled(s, e)
  {
    if e.c == f.c && (e.Need? || e.Count?) then f.(who := f.who + {s.cpus[f.c].init.i}) else f
  }

  lemma InitiatorStays(s: State, e: Step, c: nat)
    requires Shape(s) && Enabled(s, e) && AssertionHolds(s, e) && c < s.n
    requires e.c != c || e.Load? || e.HandlerStep? || e.FlushRemote? || e.Ack?
    ensures Apply(s, e).cpus[c].init == s.cpus[c].init
  {
    hide M.Apply, M.Enabled, M.AssertionHolds, UpTo;
  }

  /** No other CPU writes the header of the message CPU c carries. */
  lemma NotRewritten(s: State, e: Step, c: nat)
    requires Inv(s) && Shape(s) && Enabled(s, e) && c < s.n && Carried(s.cpus[c].init) in s.msgs
    requires e.c != c || e.Load? || e.HandlerStep? || e.FlushRemote? || e.Ack?
    ensures var m := Carried(s.cpus[c].init);
      && (e.TakeMessage? ==> e.m != m)
      && (e.FillMessage? || e.Count? ==> Carried(s.cpus[e.c].init) != m)
  {
    assert 0 !in s.msgs;
    hide Inv, InvInitiator, InvMsg, UpTo;
    Own(s, c);
  }

  /** Steps of other CPUs, and of CPU c outside flush_tlb_range. */
  lemma UnderwayAside(s: State, e: Step, f: Call)
    requires Inv(s) && Shape(s) && Enabled(s, e) && AssertionHolds(s, e) && f.c < s.n && Underway(s, f)
    requires e.c != f.c || e.Load? || e.HandlerStep? || e.FlushRemote? || e.Ack?
    ensures Shape(Apply(s, e)) && Apply(s, e).n == s.n && Underway(Apply(s, e), f)
  {
    hide Inv, Underway, AllFlushed, Apply, AssertionHolds, InvInitiator, InvMsg;
    var m := Carried(s.cpus[f.c].init);
    StepAges(s, e, f.c);
    InitiatorStays(s, e, f.c);
    if m in s.msgs {
      NotRewritten(s, e, f.c);
      StepHeader(s, e, m);
    }
    if s.cpus[f.c].init.Idle? {
      IdleFlushed(s, f);
      FlushedStays(s, e, f);
    }
    UnderwayStill(s, Apply(s, e), f);
  }

  lemma IdleFlushed(s: State, f: Call)
    requires Shape(s) && f.c < s.n && Underway(s, f) && s.cpus[f.c].init.Idle?
    ensures AllFlushed(s, f) && f.t < s.clock
  {
  }

  /** Steps of CPU c in flush_tlb_range up to the first send. */
  lemma UnderwayAsking(s: State, e: Step, f: Call)
    requires InvShape(s) && Enabled(s, e) && AssertionHolds(s, e) && f.c < s.n && Underway(s, f) && e.c == f.c
    requires e.Pass? || e.Need? || e.TakeMessage? || e.FillMessage?
    ensures Shape(Apply(s, e)) && Apply(s, e).n == s.n && Underway(Apply(s, e), Choosing(s, e, f))
  {
    hide AllFlushed, UpTo;
  }

  /** Its sends, up to the local loop. */
  lemma UnderwaySending(s: State, e: Step, f: Call)
    requires InvShape(s) && Enabled(s, e) && AssertionHolds(s, e) && f.c < s.n && Underway(s, f) && e.c == f.c
    requires e.Count? || e.Enqueue? || e.SenderStep? || e.EndLoop?
    ensures Shape(Apply(s, e)) && Apply(s, e).n == s.n && Underway(Apply(s, e), Choosing(s, e, f))
  {
    hide AllFlushed, UpTo, M.Apply, M.Enabled, M.AssertionHolds;
  }

  /** Its local loop and its wait. */
  lemma UnderwayEnding(s: State, e: Step, f: Call)
    requires InvShape(s) && Enabled(s, e) && AssertionHolds(s, e) && f.c < s.n && Underway(s, f) && e.c == f.c
    requires e.FlushOwn? || e.SeeZero? || (e.FreeMessage? && AllFlushed(s, f))
    ensures Shape(Apply(s, e)) && Apply(s, e).n == s.n && Underway(Apply(s, e), f)
  {
    hide UpTo;
    var init := s.cpus[f.c].init;
    if e.FlushOwn? && init.m == 0 {
      if init.a < init.hi { DropPage(s.cpus[f.c].tlb, init.lo, init.a, f.t + 1, s.clock); }
      else { Shorter(s.cpus[f.c].tlb, init.lo, init.a, init.hi, f.t + 1, s.clock); }
    }
    if e.FreeMessage? { FlushedStays(s, e, f); }
  }

  lemma UnderwayStep(s: State, e: Step, f: Call)
    requires Inv(s) && Shape(s) && Enabled(s, e) && AssertionHolds(s, e) && f.c < s.n && Underway(s, f)
    requires e.Begin? ==> e.c != f.c
    ensures Shape(Apply(s, e)) && Apply(s, e).n == s.n && Underway(Apply(s, e), Calling(s, e, f))
  {
    assert InvShape(s);
    hide Inv, InvShape, AssertionHolds, Underway, AllFlushed, Apply;
    if e.c != f.c || e.Load? || e.HandlerStep? || e.FlushRemote? || e.Ack? { UnderwayAside(s, e, f); }
    else if e.Pass? || e.Need? || e.TakeMessage? || e.FillMessage? { UnderwayAsking(s, e, f); }
    else if e.Count? || e.Enqueue? || e.SenderStep? || e.EndLoop? { UnderwaySending(s, e, f); }
    else {
      if e.FreeMessage? { LeftMeansFlushed(s, f); }
      UnderwayEnding(s, e, f);
    }
  }

  lemma BeginUnderway(s: State, e: Step)
    requires Shape(s) && Enabled(s, e) && AssertionHolds(s, e) && e.Begin?
    ensures Shape(Apply(s, e)) && Underway(Apply(s, e), Call(e.c, e.lo, e.hi, e.mode, s.clock, {}))
    ensures e.c < s.n && Apply(s, e).n == s.n && forall d :: 0 <= d < s.n ==> Apply(s, e).cpus[d].tlb == s.cpus[d].tlb
  {
  }

  /** The call CPU f.c is in, or was in last, after step e. */
  ghost function Calling(s: State, e: Step, f: Call): Call
    requires Shape(s) && Enabled(s, e)
  {
    if e.Begin? && e.c == f.c then Call(e.c, e.lo, e.hi, e.mode, s.clock, {}) else Choosing(s, e, f)
  }

  ghost function Calls(s: State, es: seq<Step>, f: Call): Call
    requires Runs(s, es)
    decreases |es|
  {
    if es == [] then f else Calls(Apply(s, es[0]), es[1..], Calling(s, es[0], f))
  }

  lemma RunAhead(s: State, e: Step, es: seq<Step>, f: Call)
    requires Shape(s) && Enabled(s, e) && AssertionHolds(s, e) && Runs(Apply(s, e), es)
    ensures Runs(s, [e] + es) && Final(s, [e] + es) == Final(Apply(s, e), es)
    ensures Calls(s, [e] + es, f) == Calls(Apply(s, e), es, Calling(s, e, f))
  {
    hide Apply, Enabled, AssertionHolds, Calling;
    assert ([e] + es)[1..] == es && ([e] + es)[0] == e;
  }

  lemma {:induction false} RunSplit(s: State, es: seq<Step>, k: nat, f: Call)
    requires Runs(s, es) && k <= |es|
    ensures Runs(s, es[..k]) && Runs(Final(s, es[..k]), es[k..])
    ensures Final(s, es) == Final(Final(s, es[..k]), es[k..])
    ensures Calls(s, es, f) == Calls(Final(s, es[..k]), es[k..], Calls(s, es[..k], f))
    decreases k
  {
    hide Apply, Enabled, AssertionHolds, Calling;
    if k == 0 {
      assert es[..0] == [] && es[0..] == es;
    } else {
      RunSplit(Apply(s, es[0]), es[1..], k - 1, Calling(s, es[0], f));
      assert es[1..][k - 1..] == es[k..];
      RunAhead(s, es[0], es[1..][..k - 1], f);
      assert es[..k] == [es[0]] + es[1..][..k - 1];
    }
  }

  ghost predicate NoneBegins(es: seq<Step>, c: nat) {
    forall j :: 0 <= j < |es| && es[j].Begin? ==> es[j].c != c
  }

  lemma {:induction false} RunUnderway(s: State, es: seq<Step>, f: Call)
    requires Inv(s) && Runs(s, es) && Shape(s) && f.c < s.n && Underway(s, f) && NoneBegins(es, f.c)
    ensures Shape(Final(s, es)) && Final(s, es).n == s.n
    ensures var g := Calls(s, es, f); g == f.(who := g.who) && Underway(Final(s, es), g)
    decreases |es|
  {
    hide Inv, Apply, Enabled, AssertionHolds, Underway;
    if es != [] {
      var e := es[0];
      StepInv(s, e);
      UnderwayStep(s, e, f);
      RunUnderway(Apply(s, e), es[1..], Calling(s, e, f));
    }
  }

  /** A translation held at the end of a run was loaded in it, or was held already. */
  lemma {:induction false} Loaded(s: State, es: seq<Step>, d: nat, p: int)
    requires Runs(s, es) && Shape(s) && d < s.n
    ensures Shape(Final(s, es)) && Final(s, es).n == s.n
    ensures p in Final(s, es).cpus[d].tlb && Load(d, p) !in es ==>
      p in s.cpus[d].tlb && Final(s, es).cpus[d].tlb[p] == s.cpus[d].tlb[p]
    decreases |es|
  {
    hide Apply, Enabled, AssertionHolds;
    if es != [] {
      StepAges(s, es[0], d);
      Loaded(Apply(s, es[0]), es[1..], d, p);
    }
  }

  /** No translation is from the future. */
  lemma {:induction false} NoneAhead(s: State, es: seq<Step>, d: nat, p: int)
    requires Runs(s, es) && Shape(s) && d < s.n && (p in s.cpus[d].tlb ==> s.cpus[d].tlb[p] <= s.clock)
    ensures Shape(Final(s, es)) && Final(s, es).n == s.n
    ensures p in Final(s, es).cpus[d].tlb ==> Final(s, es).cpus[d].tlb[p] <= Final(s, es).clock
    decreases |es|
  {
    hide Apply, Enabled, AssertionHolds;
    if es != [] {
      StepTime(s, es[0], d, p);
      NoneAhead(Apply(s, es[0]), es[1..], d, p);
    }
  }

  lemma StepTime(s: State, e: Step, d: nat, p: int)
    requires Shape(s) && Enabled(s, e) && AssertionHolds(s, e) && d < s.n
    requires p in s.cpus[d].tlb ==> s.cpus[d].tlb[p] <= s.clock
    ensures Shape(Apply(s, e)) && Apply(s, e).n == s.n
    ensures p in Apply(s, e).cpus[d].tlb ==> Apply(s, e).cpus[d].tlb[p] <= Apply(s, e).clock
  {
    StepAges(s, e, d);
    hide M.Apply, M.Enabled, M.AssertionHolds;
  }

  /** Step k of the run is the last call of flush_tlb_range by its CPU. */
  ghost predicate LastBegin(es: seq<Step>, k: nat) {
    k < |es| && es[k].Begin? && NoneBegins(es[k + 1..], es[k].c)
  }

  /** The CPUs that the loop of CPU c chose to ask in its last call. */
  ghost function Chosen(n: nat, es: seq<Step>, c: nat): set<nat>
    requires Runs(Boot(n), es)
  {
    Calls(Boot(n), es, Call(c, 0, 0, User, 0, {})).who
  }

  /**
    Of the pages step k asked to flush, the CPU and the CPUs chosen, for a
    kernel range all CPUs, hold only translations loaded since.
  */
  ghost predicate FlushedSince(s: State, es: seq<Step>, k: nat, who: set<nat>)
    requires Shape(s) && k < |es| && es[k].Begin?
  {
    forall d: nat :: Concerned(s.n, es[k].c, es[k].mode, who, d) ==>
      && d < s.n
      && forall p :: p in s.cpus[d].tlb && es[k].lo <= p < es[k].hi ==> Load(d, p) in es[k + 1..]
  }

  /** A call that is over has flushed what it was asked to, on every CPU that was to. */
  lemma {:induction false} FlushCorrect(n: nat, es: seq<Step>, s: State, k: nat)
    requires 0 < n && Runs(Boot(n), es) && s == Final(Boot(n), es) && LastBegin(es, k)
    ensures Shape(s) && s.n == n && es[k].c < n
    ensures s.cpus[es[k].c].init.Left? || s.cpus[es[k].c].init.Idle? ==>
      FlushedSince(s, es, k, Chosen(n, es, es[k].c))
  {
    hide Inv, Apply, Enabled, AssertionHolds, Underway, AllFlushed;
    var b, f0 := es[k], Call(es[k].c, 0, 0, User, 0, {});
    BootInv(n);
    RunSplit(Boot(n), es, k, f0);
    var s0 := Final(Boot(n), es[..k]);
    RunInv(Boot(n), es[..k]);
    SameSize(Boot(n), es[..k]);
    var f := Call(b.c, b.lo, b.hi, b.mode, s0.clock, {});
    assert es[k..][0] == b && es[k..][1..] == es[k + 1..];
    StepInv(s0, b);
    BeginUnderway(s0, b);
    CallsKeepsCpu(Boot(n), es[..k], f0);
    var s1, post := Apply(s0, b), es[k + 1..];
    RunUnderway(s1, post, f);
    RunInv(s1, post);
    var g := Calls(s1, post, f);
    if s.cpus[b.c].init.Left? || s.cpus[b.c].init.Idle? {
      if s.cpus[b.c].init.Left? { LeftMeansFlushed(s, g); } else { IdleFlushed(s, g); }
      forall d: nat | Concerned(n, b.c, b.mode, g.who, d)
        ensures d < n && forall p :: p in s.cpus[d].tlb && b.lo <= p < b.hi ==> Load(d, p) in post
      {
        FlushedCpu(s, g, d);
        forall p | p in s.cpus[d].tlb && b.lo <= p < b.hi ensures Load(d, p) in post {
          NoneAhead(Boot(n), es[..k], d, p);
          Loaded(s1, post, d, p);
        }
      }
    }
  }

  lemma FlushedCpu(s: State, f: Call, d: nat)
    requires Shape(s) && AllFlushed(s, f) && Concerned(s.n, f.c, f.mode, f.who, d)
    ensures d < s.n && Fresh(s.cpus[d].tlb, f.lo, f.hi, f.t + 1)
  {
  }

  lemma {:induction false} CallsKeepsCpu(s: State, es: seq<Step>, f: Call)
    requires Runs(s, es)
    ensures Calls(s, es, f).c == f.c
    decreases |es|
  {
    hide Apply, Enabled, AssertionHolds;
    if es != [] { CallsKeepsCpu(Apply(s, es[0]), es[1..], Calling(s, es[0], f)); }
  }

  /** The send about to start finds room in the queue. */
  ghost predicate Accepted(s: State, e: Step)
    requires Shape(s) && Enabled(s, e) && e.Enqueue?
  {
    && s.cpus[e.c].init.i < s.n
    && s.queues[s.cpus[e.c].init.i].size < s.queues[s.cpus[e.c].init.i].capacity
  }

  /**
    In every interleaving of n CPUs flushing kernel and user ranges:
    no ASSERT fails at any step that could come next and no send is refused;
    when a call has left its wait loop or returned, its CPU and every CPU its
    loop chose (for a kernel range: every CPU) hold no translation of a page it
    was asked to flush but those loaded since it began; and a message is in the
    pool only if no queue holds it, nobody is sending it and nobody works on it.
  */
  lemma {:induction false} ShootdownCorrect(n: nat, es: seq<Step>, s: State, e: Step, k: nat, m: nat)
    requires 0 < n && Runs(Boot(n), es) && s == Final(Boot(n), es)
    ensures Shape(s) && s.n == n
    ensures Enabled(s, e) ==> AssertionHolds(s, e)
    ensures Enabled(s, e) && e.Enqueue? ==> Accepted(s, e)
    ensures LastBegin(es, k) ==>
      && es[k].c < n
      && (s.cpus[es[k].c].init.Left? || s.cpus[es[k].c].init.Idle? ==>
            FlushedSince(s, es, k, Chosen(n, es, es[k].c)))
    ensures m in s.pool ==> Nowhere(s, m)
  {
    BootInv(n);
    RunInv(Boot(n), es);
    SameSize(Boot(n), es);
    hide Inv, AssertionHolds, Nowhere, UpTo, Runs, Final, LastBegin, FlushedSince, Chosen;
    if Enabled(s, e) {
      AssertionsHold(s, e);
      if e.Enqueue? { OtherCpu(s, e.c); EnqueueHasRoom(s, e.c); }
    }
    if LastBegin(es, k) { FlushCorrect(n, es, s, k); }
    if m in s.pool { PooledNowhere(s, m); }
  }
}
