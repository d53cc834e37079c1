/**
  The scheduler on one CPU (kernel/sched.c), with the reference counts of tasks
  (kernel/task.c) and their reaping (kernel/syscall/task.c). Every event is a
  stretch of kernel code that runs with interrupts off.
*/
module Sched {
  import opened Basics

  type Id = nat

  /** The idle task, which is neither registered nor queued. */
  const IDLE: Id := 0

  datatype TaskState = Running | Interruptible | Uninterruptible | Dead

  /** What a blocked task waits for: something outside, or a child (waitpid_blocker). */
  datatype Blocker = NotBlocked | Event | Child(pid: int, tgid: int, pgid: int)

  datatype Task = Task(
    tid: int, tgid: int, pgid: int, ppid: int,
    state: TaskState, refs: nat,
    block: Blocker,
    signalled: bool,               // pending_signals & ~blocked_signals
    interrupted: bool,
    waited: Option<Id>)            // blocker.waited_task, until it is given up

  /** `tasks` are those somebody has a reference to; `freed` those whose memory was given back. */
  datatype State = State(tasks: map<Id, Task>, ready: seq<Id>, all: seq<Id>, current: Option<Id>, freed: set<Id>)

  predicate Blocked(t: Task) { t.state == Interruptible || t.state == Uninterruptible }

  // ---------------------------------------------------------------------- reaping

  /** unblock_waitpid's is_target */
  predicate IsTarget(b: Blocker, t: Task)
    requires b.Child?
  {
    if b.pid < -1 then t.pgid == -b.pid
    else if b.pid == -1 then t.ppid == b.tgid
    else if b.pid == 0 then t.pgid == b.pgid
    else t.tgid == b.pid
  }

  ghost predicate Reapable(s: State, b: Blocker, i: nat) {
    b.Child? && i < |s.all| && s.all[i] in s.tasks && s.tasks[s.all[i]].state == Dead && IsTarget(b, s.tasks[s.all[i]])
  }

  /** The first dead target on the list, or the length. */
  ghost function FirstReapable(s: State, b: Blocker, i: nat): (k: nat)
    requires i <= |s.all|
    ensures i <= k <= |s.all| && (k < |s.all| ==> Reapable(s, b, k)) && forall j :: i <= j < k ==> !Reapable(s, b, j)
    decreases |s.all| - i
  {
    if i == |s.all| || Reapable(s, b, i) then i else FirstReapable(s, b, i + 1)
  }

  ghost predicate AnyTarget(s: State, b: Blocker) {
    b.Child? && exists i :: 0 <= i < |s.all| && s.all[i] in s.tasks && IsTarget(b, s.tasks[s.all[i]])
  }

  /** unblock_waitpid for task w: the state it leaves, or None where it returns false. */
  ghost function Reap(s: State, w: Id, b: Blocker): Option<State>
    requires w in s.tasks
  {
    var k := FirstReapable(s, b, 0);
    if k < |s.all| then
      Some(s.(all := s.all[..k] + s.all[k + 1..], tasks := s.tasks[w := s.tasks[w].(waited := Some(s.all[k]))]))
    else if AnyTarget(s, b) then None
    else Some(s.(tasks := s.tasks[w := s.tasks[w].(waited := None)]))
  }

  // --------------------------------------------------------------------- switching

  /** unblock_tasks makes a task ready: it is counted once more for being scheduled. */
  ghost function Wake(s: State, t: Id, interrupted: bool): State
    requires t in s.tasks
  {
    var x := s.tasks[t];
    s.(tasks := s.tasks[t := x.(state := Running, block := NotBlocked, interrupted := interrupted, refs := x.refs + 1)],
       ready := s.ready + [t])
  }

  /** The body of unblock_tasks' loop; `fires` are the tasks whose event has come. */
  ghost function UnblockOne(s: State, t: Id, fires: set<Id>): State {
    if t !in s.tasks || !Blocked(s.tasks[t]) then s
    else
      var b := s.tasks[t].block;
      if s.tasks[t].state == Interruptible && s.tasks[t].signalled then Wake(s, t, true)
      else if b.Child? then
        match Reap(s, t, b)
        case None => s
        case Some(s') => Wake(s', t, false)
      else if t in fires then Wake(s, t, false) else s
  }

  ghost function UnblockAll(s: State, list: seq<Id>, fires: set<Id>): State
    decreases |list|
  {
    if list == [] then s else UnblockAll(UnblockOne(s, list[0], fires), list[1..], fires)
  }

  /** switch_context: the next task is taken off the queue before the previous one goes back on it. */
  ghost function Switch(s: State, fires: set<Id>): State {
    var prev := s.current;
    var u := UnblockAll(s, s.all, fires);
    var back := if prev.None? || prev.value == IDLE then [] else [prev.value];
    if u.ready == [] then u.(current := Some(IDLE), ready := back)
    else u.(current := Some(u.ready[0]), ready := u.ready[1..] + back)
  }

  /** task_unref; the initial task, with tid 0, is never freed. */
  ghost function Unref(s: State, t: Id): State
    requires t in s.tasks && s.tasks[t].refs > 0
  {
    if s.tasks[t].refs == 1 then s.(tasks := s.tasks - {t}, freed := s.freed + if s.tasks[t].tid == 0 then {} else {t})
    else s.(tasks := s.tasks[t := s.tasks[t].(refs := s.tasks[t].refs - 1)])
  }

  /** sched_yield(false) on a task that is not idle: its share as scheduled goes. */
  ghost function Leave(s: State, fires: set<Id>): State
    requires s.current.Some? && s.current.value in s.tasks && s.tasks[s.current.value].refs > 0
  {
    Switch(Unref(s, s.current.value).(current := None), fires)
  }

  // ------------------------------------------------------------------------ events

  datatype Step =
    | Register(id: Id, task: Task)                            // task_create and sched_register
    | Tick(fires: set<Id>)                                    // sched_yield(true)
    | Block(blocker: Blocker, uninterruptible: bool, fires: set<Id>)   // sched_block after its look at the condition
    | Check(blocker: Blocker)                                 // unblock_waitpid returns true to the current task
    | Collect                                                 // sys_wait4 gives up the task it waited for
    | Exit(fires: set<Id>)
    | Signal(id: Id, on: bool)

  ghost predicate RunningTask(s: State) {
    s.current.Some? && s.current.value in s.tasks
  }

  ghost predicate Enabled(s: State, e: Step) {
    match e
    case Register(id, task) =>
      && id !in s.tasks && id != IDLE
      && task.state == Running && task.refs == 1 && task.block == NotBlocked && task.waited == None
    case Tick(_) => true
    case Block(b, _, _) =>
      RunningTask(s) && b != NotBlocked && s.tasks[s.current.value].waited == None
    case Check(b) =>
      RunningTask(s) && b.Child? && s.tasks[s.current.value].waited == None && Reap(s, s.current.value, b).Some?
    case Collect =>
      RunningTask(s) && s.tasks[s.current.value].waited.Some?
    case Exit(_) =>
      RunningTask(s) && s.tasks[s.current.value].waited == None && s.tasks[s.current.value].tid != 1   // init panics
    case Signal(id, _) => id in s.tasks
  }

  /** sched_register puts the task before the first with a tid not smaller. */
  ghost function InsertByTid(s: State, i: nat, id: Id, tid: int): seq<Id>
    requires i <= |s.all|
    decreases |s.all| - i
  {
    if i < |s.all| && s.all[i] in s.tasks && s.tasks[s.all[i]].tid < tid then InsertByTid(s, i + 1, id, tid)
    else s.all[..i] + [id] + s.all[i..]
  }

  /** exit: the children of the task pass to init. */
  ghost function Adopt(s: State, tgid: int): map<Id, Task> {
    map t | t in s.tasks :: if t in s.all && s.tasks[t].ppid == tgid then s.tasks[t].(ppid := 1) else s.tasks[t]
  }

  /** Adopt's loop over the list has passed i tasks. */
  ghost predicate AdoptedBefore(s: State, m: map<Id, Task>, tgid: int, i: nat)
    requires i <= |s.all| && m.Keys == s.tasks.Keys
  {
    forall t :: t in m ==>
      m[t] == if t in s.all[..i] && s.tasks[t].ppid == tgid then s.tasks[t].(ppid := 1) else s.tasks[t]
  }

  lemma AdoptedNone(s: State, tgid: int)
    ensures AdoptedBefore(s, s.tasks, tgid, 0)
  {
  }

  lemma AdoptedNext(s: State, m: map<Id, Task>, tgid: int, i: nat)
    requires i < |s.all| && Distinct(s.all) && m.Keys == s.tasks.Keys && AdoptedBefore(s, m, tgid, i) && s.all[i] in m
    ensures var t := s.all[i];
      AdoptedBefore(s, if m[t].ppid == tgid then m[t := m[t].(ppid := 1)] else m, tgid, i + 1)
  {
    assert s.all[..i + 1] == s.all[..i] + [s.all[i]];
    assert s.all[i] !in s.all[..i];
    hide Distinct;
  }

  lemma AdoptedEvery(s: State, m: map<Id, Task>, tgid: int)
    requires m.Keys == s.tasks.Keys && AdoptedBefore(s, m, tgid, |s.all|)
    ensures m == Adopt(s, tgid)
  {
    assert s.all[..|s.all|] == s.all;
  }

  ghost function Apply(s: State, e: Step): State
    requires Inv(s) && Enabled(s, e)
  {
    match e
    case Register(id, task) =>
      s.(tasks := s.tasks[id := task.(refs := 2)], all := InsertByTid(s, 0, id, task.tid), ready := s.ready + [id])
    case Tick(fires) => Switch(s, fires)
    case Block(b, uninterruptible, fires) =>
      var c := s.current.value;
      var state := if uninterruptible then Uninterruptible else Interruptible;
      var t := s.tasks[c].(block := b, state := state, interrupted := false);
      Leave(s.(tasks := s.tasks[c := t]), fires)
    case Check(b) => Reap(s, s.current.value, b).value
    case Collect =>
      var c := s.current.value;
      Unref(s.(tasks := s.tasks[c := s.tasks[c].(waited := None)]), s.tasks[c].waited.value)
    case Exit(fires) =>
      var c := s.current.value;
      var adopted := Adopt(s, s.tasks[c].tgid);
      Leave(s.(tasks := adopted[c := adopted[c].(state := Dead)]), fires)
    case Signal(id, on) => s.(tasks := s.tasks[id := s.tasks[id].(signalled := on)])
  }

  // --------------------------------------------------------------------- invariant

  ghost predicate Distinct(q: seq<Id>) {
    forall i, j :: 0 <= i < j < |q| ==> q[i] != q[j]
  }

  /** The task is on the CPU or in the ready queue. */
  ghost predicate Scheduled(s: State, t: Id) {
    s.current == Some(t) || t in s.ready
  }

  /** Some task holds t as the one it waited for. */
  ghost predicate Waited(s: State, t: Id) {
    exists w :: w in s.tasks && s.tasks[w].waited == Some(t)
  }

  /**
    Task t is in exactly one of: running, ready, blocked, dead. Its references
    are one as a listed or waited-for task and one as a scheduled task.
  */
  ghost predicate TaskOk(s: State, t: Id)
    requires t in s.tasks
  {
    var x := s.tasks[t];
    && (x.state == Running <==> Scheduled(s, t))
    && !(s.current == Some(t) && t in s.ready)
    && (Blocked(x) <==> x.block != NotBlocked)
    && x.refs == 1 + (if Scheduled(s, t) then 1 else 0)
    && (t in s.all <==> !Waited(s, t))
    && (x.waited.Some? ==> x.state != Dead && x.waited.value in s.tasks && s.tasks[x.waited.value].state == Dead)
    && (Blocked(x) ==> x.waited.None?)
  }

  /** A list of tasks there are, each once. */
  ghost predicate Listed(q: seq<Id>, tasks: map<Id, Task>) {
    Distinct(q) && forall i :: 0 <= i < |q| ==> q[i] in tasks
  }

  ghost predicate SoleWaiters(tasks: map<Id, Task>) {
    forall v, w ::
      v in tasks && w in tasks && tasks[v].waited.Some? && tasks[v].waited == tasks[w].waited ==> v == w
  }

  ghost predicate Lists(s: State) {
    && Listed(s.ready, s.tasks) && Listed(s.all, s.tasks)
    && IDLE !in s.tasks
    && (s.current.Some? && s.current.value != IDLE ==> s.current.value in s.tasks)
    && SoleWaiters(s.tasks)
  }

  lemma ListedMember(q: seq<Id>, tasks: map<Id, Task>, t: Id)
    requires Listed(q, tasks) && t in q
    ensures t in tasks
  {
    var i :| 0 <= i < |q| && q[i] == t;
  }

  lemma ListedInsert(q: seq<Id>, tasks: map<Id, Task>, more: map<Id, Task>, k: nat, t: Id)
    requires Listed(q, tasks) && t !in q && k <= |q| && tasks.Keys <= more.Keys && t in more
    ensures Listed(q[..k] + [t] + q[k..], more)
  {
    var r := q[..k] + [t] + q[k..];
    forall i | 0 <= i < |r| ensures r[i] == (if i < k then q[i] else if i == k then t else q[i - 1]) {}
  }

  lemma ListedAppend(q: seq<Id>, tasks: map<Id, Task>, more: map<Id, Task>, t: Id)
    requires Listed(q, tasks) && t !in q && tasks.Keys <= more.Keys && t in more
    ensures Listed(q + [t], more)
  {
    ListedInsert(q, tasks, more, |q|, t);
    assert q[..|q|] + [t] + q[|q|..] == q + [t];
  }

  lemma ListedTail(q: seq<Id>, tasks: map<Id, Task>)
    requires Listed(q, tasks) && q != []
    ensures Listed(q[1..], tasks) && q[0] in tasks
  {
  }

  lemma ListedWithout(q: seq<Id>, tasks: map<Id, Task>, less: map<Id, Task>, t: Id)
    requires Listed(q, tasks) && t !in q && tasks.Keys - {t} <= less.Keys
    ensures Listed(q, less)
  {
  }

  /** What holds even while switch_context has no current task. */
  ghost predicate Consistent(s: State) {
    Lists(s) && forall t :: t in s.tasks ==> TaskOk(s, t)
  }

  ghost predicate Inv(s: State) {
    Consistent(s) && s.current.Some?
  }

  /** The fields of a task the invariant is about. */
  ghost predicate SameTask(x: Task, y: Task) {
    x.state == y.state && x.refs == y.refs && x.block == y.block && x.waited == y.waited
  }

  lemma SameConsistent(s: State, s': State)
    requires Consistent(s) && s'.ready == s.ready && s'.all == s.all && s'.current == s.current
    requires s'.tasks.Keys == s.tasks.Keys && forall t :: t in s.tasks ==> SameTask(s.tasks[t], s'.tasks[t])
    ensures Consistent(s')
  {
    forall t | t in s'.tasks ensures TaskOk(s', t) {
      assert TaskOk(s, t);
      assert Waited(s', t) <==> Waited(s, t) by {
        if Waited(s, t) { var w :| w in s.tasks && s.tasks[w].waited == Some(t); assert s'.tasks[w].waited == Some(t); }
        if Waited(s', t) {
          var w :| w in s'.tasks && s'.tasks[w].waited == Some(t);
          assert s.tasks[w].waited == Some(t);
        }
      }
    }
  }

  /** Changing a task's fields other than `waited` changes nobody's being waited for. */
  lemma WaitedSame(s: State, s': State, t: Id)
    requires s'.tasks.Keys == s.tasks.Keys && forall w :: w in s.tasks ==> s'.tasks[w].waited == s.tasks[w].waited
    ensures Waited(s', t) <==> Waited(s, t)
  {
    if Waited(s, t) { var w :| w in s.tasks && s.tasks[w].waited == Some(t); assert s'.tasks[w].waited == Some(t); }
    if Waited(s', t) { var w :| w in s'.tasks && s'.tasks[w].waited == Some(t); assert s.tasks[w].waited == Some(t); }
  }

  lemma WakeTask(s: State, t: Id, interrupted: bool, v: Id)
    requires t in s.tasks && Blocked(s.tasks[t]) && v in s.tasks && TaskOk(s, t) && TaskOk(s, v)
    ensures TaskOk(Wake(s, t, interrupted), v)
  {
    WaitedSame(s, Wake(s, t, interrupted), v);
    hide Waited;
  }

  lemma WakeLists(s: State, t: Id, interrupted: bool)
    requires Lists(s) && t in s.tasks && t !in s.ready
    ensures Lists(Wake(s, t, interrupted))
  {
  }

  lemma WakeOk(s: State, t: Id, interrupted: bool)
    requires Consistent(s) && t in s.tasks && Blocked(s.tasks[t])
    ensures Consistent(Wake(s, t, interrupted))
  {
    assert TaskOk(s, t);
    WakeLists(s, t, interrupted);
    hide Lists, TaskOk;
    forall v | v in Wake(s, t, interrupted).tasks ensures TaskOk(Wake(s, t, interrupted), v) {
      WakeTask(s, t, interrupted, v);
    }
  }

  lemma FirstReapableOk(s: State, w: Id, b: Blocker)
    requires Consistent(s) && w in s.tasks && Blocked(s.tasks[w]) && FirstReapable(s, b, 0) < |s.all|
    ensures var t := s.all[FirstReapable(s, b, 0)]; t in s.tasks && t != w && s.tasks[t].state == Dead && !Waited(s, t)
  {
    assert TaskOk(s, s.all[FirstReapable(s, b, 0)]);
  }

  /** A blocked waiter takes a dead task off the list and is made ready. */
  lemma ReapWakeOk(s: State, w: Id, b: Blocker)
    requires Consistent(s) && w in s.tasks && Blocked(s.tasks[w]) && Reap(s, w, b).Some?
    ensures Consistent(Wake(Reap(s, w, b).value, w, false))
  {
    var k := FirstReapable(s, b, 0);
    var mid := Reap(s, w, b).value;
    assert TaskOk(s, w);
    if k == |s.all| {
      assert mid.tasks == s.tasks && mid == s;
      hide Consistent, FirstReapable;
      WakeOk(s, w, false);
    } else {
      FirstReapableOk(s, w, b);
      var t := s.all[k];
      ReapLists(s, w, k);
      WakeLists(mid, w, false);
      hide Lists, TaskOk, FirstReapable, Reap;
      var s' := Wake(mid, w, false);
      forall v | v in s'.tasks ensures TaskOk(s', v) { ReapWakeTask(s, w, k, v); }
    }
  }

  /** The state in between: the waiter holds the dead task but is not awake yet. */
  ghost function Taken(s: State, w: Id, k: nat): State
    requires w in s.tasks && k < |s.all|
  {
    s.(all := s.all[..k] + s.all[k + 1..], tasks := s.tasks[w := s.tasks[w].(waited := Some(s.all[k]))])
  }

  lemma ReapLists(s: State, w: Id, k: nat)
    requires Lists(s) && w in s.tasks && k < |s.all| && !Waited(s, s.all[k])
    ensures Lists(Taken(s, w, k))
  {
    var s' := Taken(s, w, k);
    forall i | 0 <= i < |s'.all| ensures s'.all[i] == s.all[if i < k then i else i + 1] {}
    forall v | v in s.tasks && s.tasks[v].waited.Some? ensures s.tasks[v].waited.value != s.all[k] {}
  }

  lemma ReapWakeTask(s: State, w: Id, k: nat, v: Id)
    requires w in s.tasks && Blocked(s.tasks[w]) && k < |s.all| && v in s.tasks && Distinct(s.all)
    requires s.all[k] in s.tasks && s.all[k] != w && s.tasks[s.all[k]].state == Dead && !Waited(s, s.all[k])
    requires TaskOk(s, w) && TaskOk(s, v)
    ensures TaskOk(Wake(Taken(s, w, k), w, false), v)
  {
    var s' := Wake(Taken(s, w, k), w, false);
    WaitedOneMore(s, s', w, s.all[k], v);
    TakenOut(s.all, k, v);
    hide Waited, Distinct;
  }

  lemma WaitedOneMore(s: State, s': State, w: Id, t: Id, v: Id)
    requires w in s.tasks && s.tasks[w].waited.None? && s'.tasks.Keys == s.tasks.Keys && s'.tasks[w].waited == Some(t)
    requires forall x :: x in s.tasks && x != w ==> s'.tasks[x].waited == s.tasks[x].waited
    ensures Waited(s', v) <==> Waited(s, v) || v == t
  {
    if Waited(s, v) { var x :| x in s.tasks && s.tasks[x].waited == Some(v); assert s'.tasks[x].waited == Some(v); }
    if Waited(s', v) {
      var x :| x in s'.tasks && s'.tasks[x].waited == Some(v);
      assert x == w || s.tasks[x].waited == Some(v);
    }
  }

  lemma TakenOut(q: seq<Id>, k: nat, v: Id)
    requires Distinct(q) && k < |q|
    ensures v in q[..k] + q[k + 1..] <==> v in q && v != q[k]
  {
    assert q == q[..k] + [q[k]] + q[k + 1..];
  }

  /** What unblocking leaves alone: who is on the CPU, the queue so far, and which tasks there are. */
  ghost predicate Unblocked(s: State, u: State) {
    && u.current == s.current && u.tasks.Keys == s.tasks.Keys && u.freed == s.freed
    && |s.ready| <= |u.ready| && u.ready[..|s.ready|] == s.ready
  }

  lemma UnblockOneOk(s: State, t: Id, fires: set<Id>)
    requires Consistent(s)
    ensures Consistent(UnblockOne(s, t, fires)) && Unblocked(s, UnblockOne(s, t, fires))
  {
    hide Consistent, FirstReapable;
    if t in s.tasks && Blocked(s.tasks[t]) {
      var b := s.tasks[t].block;
      if s.tasks[t].state == Interruptible && s.tasks[t].signalled { WakeOk(s, t, true); }
      else if b.Child? {
        if Reap(s, t, b).Some? { ReapWakeOk(s, t, b); }
      } else if t in fires { WakeOk(s, t, false); }
    }
  }

  lemma {:induction false} UnblockAllOk(s: State, list: seq<Id>, fires: set<Id>)
    requires Consistent(s)
    ensures Consistent(UnblockAll(s, list, fires)) && Unblocked(s, UnblockAll(s, list, fires))
    decreases |list|
  {
    hide Consistent, UnblockOne;
    if list != [] {
      var u := UnblockOne(s, list[0], fires);
      UnblockOneOk(s, list[0], fires);
      UnblockAllOk(u, list[1..], fires);
      var z := UnblockAll(u, list[1..], fires);
      assert z.ready[..|s.ready|] == u.ready[..|s.ready|] by { assert u.ready == z.ready[..|u.ready|]; }
    }
  }

  /** The exchange of the task on the CPU for the head of the queue. */
  ghost function Rotate(u: State): State {
    var back := if u.current.None? || u.current.value == IDLE then [] else [u.current.value];
    if u.ready == [] then u.(current := Some(IDLE), ready := back)
    else u.(current := Some(u.ready[0]), ready := u.ready[1..] + back)
  }

  lemma RotateTask(u: State, t: Id)
    requires Lists(u) && t in u.tasks && TaskOk(u, t)
    ensures TaskOk(Rotate(u), t)
  {
    var r := Rotate(u);
    WaitedSame(u, r, t);
    assert u.ready != [] ==> u.ready == [u.ready[0]] + u.ready[1..];
    assert Scheduled(r, t) <==> Scheduled(u, t);
    hide Waited;
  }

  lemma RotateOk(u: State)
    requires Consistent(u)
    ensures Inv(Rotate(u))
  {
    var r := Rotate(u);
    RotateLists(u);
    hide Lists, TaskOk;
    forall t | t in r.tasks ensures TaskOk(r, t) { RotateTask(u, t); }
  }

  lemma RotateLists(u: State)
    requires Consistent(u)
    ensures Lists(Rotate(u))
  {
    assert Lists(u);
    hide Consistent, Listed, SoleWaiters;
    var q := if u.ready == [] then [] else u.ready[1..];
    if u.ready != [] { ListedTail(u.ready, u.tasks); }
    if u.current.Some? && u.current.value != IDLE {
      HeadRuns(u);
      ListedAppend(q, u.tasks, u.tasks, u.current.value);
      assert q + [u.current.value] == Rotate(u).ready;
    } else {
      assert q + [] == q;
    }
  }

  lemma SwitchOk(s: State, fires: set<Id>)
    requires Consistent(s)
    ensures Inv(Switch(s, fires)) && Switch(s, fires) == Rotate(UnblockAll(s, s.all, fires))
    ensures Switch(s, fires).tasks.Keys == s.tasks.Keys && Switch(s, fires).freed == s.freed
  {
    hide Inv, Consistent, UnblockAll;
    UnblockAllOk(s, s.all, fires);
    RotateOk(UnblockAll(s, s.all, fires));
  }

  /** The current task, with a new state, off the CPU and counted once less. */
  ghost function Parked(s: State, x: Task): State
    requires RunningTask(s)
  {
    s.(tasks := s.tasks[s.current.value := x], current := None)
  }

  lemma ParkedTask(s: State, x: Task, t: Id)
    requires Inv(s) && RunningTask(s) && t in s.tasks && s.tasks[s.current.value].waited.None?
    requires x.waited.None? && x.refs == 1 && x.state != Running && (Blocked(x) <==> x.block != NotBlocked)
    ensures TaskOk(Parked(s, x), t)
  {
    var c, p := s.current.value, Parked(s, x);
    assert TaskOk(s, c) && TaskOk(s, t);
    WaitedSame(s, p, t);
    hide Lists, Waited;
  }

  lemma ParkedOk(s: State, x: Task)
    requires Inv(s) && RunningTask(s) && s.tasks[s.current.value].waited.None?
    requires x.waited.None? && x.refs == 1 && x.state != Running && (Blocked(x) <==> x.block != NotBlocked)
    ensures Consistent(Parked(s, x))
  {
    var p := Parked(s, x);
    assert Lists(p);
    forall t | t in p.tasks ensures TaskOk(p, t) { ParkedTask(s, x, t); }
  }

  lemma CurrentCounts(s: State)
    requires Inv(s) && RunningTask(s)
    ensures var x := s.tasks[s.current.value]; x.refs == 2 && x.state == Running && x.block == NotBlocked
  {
    assert TaskOk(s, s.current.value);
  }

  lemma LeaveIs(s: State, x: Task, fires: set<Id>)
    requires Inv(s) && RunningTask(s) && s.tasks[s.current.value].waited.None?
    requires x.waited.None? && x.refs == 2 && x.state != Running && (Blocked(x) <==> x.block != NotBlocked)
    ensures var p := Parked(s, x.(refs := 1));
      Consistent(p) && Leave(s.(tasks := s.tasks[s.current.value := x]), fires) == Switch(p, fires)
  {
    hide Inv, Consistent, Switch;
    var c := s.current.value;
    assert s.tasks[c := x][c := x.(refs := 1)] == s.tasks[c := x.(refs := 1)];
    assert Unref(s.(tasks := s.tasks[c := x]), c).(current := None) == Parked(s, x.(refs := 1));
    ParkedOk(s, x.(refs := 1));
  }

  predicate IsSwitch(e: Step) { e.Tick? || e.Block? || e.Exit? }

  /** The task on the CPU as it is when it gives the CPU up in step e. */
  ghost function Stopping(x: Task, e: Step): Task
    requires e.Block? || e.Exit?
  {
    if e.Exit? then x.(state := Dead, refs := 1)
    else x.(block := e.blocker, interrupted := false, refs := 1,
            state := if e.uninterruptible then Uninterruptible else Interruptible)
  }

  /** The state in which switch_context starts, in a step that switches. */
  ghost function Entering(s: State, e: Step): State
    requires IsSwitch(e) && Inv(s) && Enabled(s, e)
  {
    if e.Tick? then s
    else
      var a := if e.Exit? then s.(tasks := Adopt(s, s.tasks[s.current.value].tgid)) else s;
      Parked(a, Stopping(a.tasks[s.current.value], e))
  }

  lemma Enters(s: State, e: Step)
    requires IsSwitch(e) && Inv(s) && Enabled(s, e)
    ensures Consistent(Entering(s, e)) && Apply(s, e) == Switch(Entering(s, e), e.fires)
  {
    hide Switch, Reap, Leave, Adopt, Consistent;
    if !e.Tick? {
      var c := s.current.value;
      var a := if e.Exit? then s.(tasks := Adopt(s, s.tasks[c].tgid)) else s;
      AdoptConsistent(s, e);
      CurrentCounts(a);
      LeaveIs(a, Stopping(a.tasks[c], e).(refs := 2), e.fires);
      assert Stopping(a.tasks[c], e).(refs := 2).(refs := 1) == Stopping(a.tasks[c], e);
    }
  }

  lemma AdoptConsistent(s: State, e: Step)
    requires Inv(s) && RunningTask(s)
    ensures var c := s.current.value;
      var a := if e.Exit? then s.(tasks := Adopt(s, s.tasks[c].tgid)) else s;
      Inv(a) && c in a.tasks && a.tasks[c].waited == s.tasks[c].waited
  {
    if e.Exit? { SameConsistent(s, s.(tasks := Adopt(s, s.tasks[s.current.value].tgid))); }
  }

  lemma EntersSame(s: State, e: Step)
    requires IsSwitch(e) && Inv(s) && Enabled(s, e)
    ensures Entering(s, e).all == s.all && Entering(s, e).ready == s.ready
    ensures Entering(s, e).tasks.Keys == s.tasks.Keys && Entering(s, e).freed == s.freed
  {
  }

  /** Every step that switches keeps the invariant, and which tasks there are. */
  lemma SwitchStepOk(s: State, e: Step)
    requires Inv(s) && Enabled(s, e) && IsSwitch(e)
    ensures Inv(Apply(s, e)) && Apply(s, e).tasks.Keys == s.tasks.Keys && Apply(s, e).freed == s.freed
  {
    hide Consistent, Switch, Apply, Enabled;
    Enters(s, e);
    EntersSame(s, e);
    SwitchOk(Entering(s, e), e.fires);
  }

  lemma {:induction false} InsertByTidIs(s: State, i: nat, id: Id, tid: int) returns (k: nat)
    requires i <= |s.all|
    ensures i <= k <= |s.all| && InsertByTid(s, i, id, tid) == s.all[..k] + [id] + s.all[k..]
    ensures forall j :: i <= j < k ==> s.all[j] in s.tasks && s.tasks[s.all[j]].tid < tid
    ensures k < |s.all| && s.all[k] in s.tasks ==> tid <= s.tasks[s.all[k]].tid
    decreases |s.all| - i
  {
    if i < |s.all| && s.all[i] in s.tasks && s.tasks[s.all[i]].tid < tid { k := InsertByTidIs(s, i + 1, id, tid); }
    else { k := i; }
  }

  lemma RegisterOk(s: State, e: Step)
    requires Inv(s) && Enabled(s, e) && e.Register?
    ensures Inv(Apply(s, e))
  {
    var k := InsertByTidIs(s, 0, e.id, e.task.tid);
    var s' := Apply(s, e);
    var all := s.all[..k] + [e.id] + s.all[k..];
    hide InsertByTid;
    assert s.all == s.all[..k] + s.all[k..];
    RegisterLists(s, s', k, e.id);
    forall t | t in s'.tasks ensures TaskOk(s', t) { RegisterTask(s, s', k, e.id, t); }
  }

  lemma RegisterLists(s: State, s': State, k: nat, id: Id)
    requires Consistent(s) && id !in s.tasks && id != IDLE && k <= |s.all| && id in s'.tasks
    requires s'.tasks[id].waited.None?
    requires s'.tasks == s.tasks[id := s'.tasks[id]] && s'.current == s.current
    requires s'.all == s.all[..k] + [id] + s.all[k..] && s'.ready == s.ready + [id]
    ensures Lists(s')
  {
    assert Lists(s);
    if id in s.all { ListedMember(s.all, s.tasks, id); }
    if id in s.ready { ListedMember(s.ready, s.tasks, id); }
    ListedInsert(s.all, s.tasks, s'.tasks, k, id);
    ListedAppend(s.ready, s.tasks, s'.tasks, id);
    hide Consistent, Listed;
  }

  lemma RegisterTask(s: State, s': State, k: nat, id: Id, t: Id)
    requires Inv(s) && id !in s.tasks && id != IDLE && k <= |s.all| && id in s'.tasks && t in s'.tasks
    requires s'.tasks == s.tasks[id := s'.tasks[id]] && s'.current == s.current
    requires s'.all == s.all[..k] + [id] + s.all[k..] && s'.ready == s.ready + [id]
    requires var x := s'.tasks[id]; x.state == Running && x.refs == 2 && x.block == NotBlocked && x.waited.None?
    ensures TaskOk(s', t)
  {
    assert s.all == s.all[..k] + s.all[k..];
    assert Waited(s', t) <==> Waited(s, t) by {
      if Waited(s, t) { var w :| w in s.tasks && s.tasks[w].waited == Some(t); assert s'.tasks[w].waited == Some(t); }
      if Waited(s', t) { var w :| w in s'.tasks && s'.tasks[w].waited == Some(t); assert s.tasks[w].waited == Some(t); }
    }
    if t in s.tasks { assert TaskOk(s, t); }
    else { NoneWaitsForStranger(s, t); }
  }

  lemma NoneWaitsForStranger(s: State, t: Id)
    requires Consistent(s) && t !in s.tasks
    ensures !Waited(s, t) && t !in s.all && t !in s.ready
  {
    forall w | w in s.tasks ensures s.tasks[w].waited != Some(t) { assert TaskOk(s, w); }
  }

  lemma TakenOk(s: State, w: Id, k: nat)
    requires Inv(s) && s.current == Some(w) && w in s.tasks && s.tasks[w].waited.None?
    requires k < |s.all| && s.all[k] in s.tasks && s.tasks[s.all[k]].state == Dead
    ensures Inv(Taken(s, w, k)) && Taken(s, w, k).tasks.Keys == s.tasks.Keys && Taken(s, w, k).freed == s.freed
  {
    assert TaskOk(s, w) && TaskOk(s, s.all[k]);
    ReapLists(s, w, k);
    hide TaskOk;
    var s' := Taken(s, w, k);
    forall v | v in s'.tasks ensures TaskOk(s', v) { CheckTask(s, w, k, v); }
  }

  lemma ReapIs(s: State, w: Id, b: Blocker)
    requires w in s.tasks && s.tasks[w].waited.None? && Reap(s, w, b).Some?
    ensures var k := FirstReapable(s, b, 0); Reap(s, w, b).value == if k < |s.all| then Taken(s, w, k) else s
  {
    hide FirstReapable, AnyTarget;
    assert s.tasks[w := s.tasks[w].(waited := None)] == s.tasks;
  }

  lemma CheckOk(s: State, e: Step)
    requires Inv(s) && Enabled(s, e) && e.Check?
    ensures Inv(Apply(s, e)) && Apply(s, e).tasks.Keys == s.tasks.Keys && Apply(s, e).freed == s.freed
  {
    hide Consistent, FirstReapable, Reap, Taken, Leave, Switch, Unref, Adopt, InsertByTid, IsTarget;
    var w, k := s.current.value, FirstReapable(s, e.blocker, 0);
    ReapIs(s, w, e.blocker);
    if k < |s.all| { TakenOk(s, w, k); }
  }

  lemma CheckTask(s: State, w: Id, k: nat, v: Id)
    requires w in s.tasks && s.tasks[w].state == Running && s.tasks[w].waited.None? && k < |s.all|
    requires v in s.tasks && Distinct(s.all)
    requires s.all[k] in s.tasks && s.all[k] != w && s.tasks[s.all[k]].state == Dead && !Waited(s, s.all[k])
    requires TaskOk(s, w) && TaskOk(s, v)
    ensures TaskOk(Taken(s, w, k), v)
  {
    WaitedOneMore(s, Taken(s, w, k), w, s.all[k], v);
    TakenOut(s.all, k, v);
    hide Waited, Distinct;
  }

  /** sys_wait4 gives up the last reference to the task it waited for: exactly that task is freed. */
  lemma CollectOk(s: State, e: Step)
    requires Inv(s) && Enabled(s, e) && e.Collect?
    ensures var t := s.tasks[s.current.value].waited.value;
      && Inv(Apply(s, e)) && Apply(s, e).tasks.Keys == s.tasks.Keys - {t}
      && Apply(s, e).freed == s.freed + (if s.tasks[t].tid == 0 then {} else {t})
      && t in s.tasks && s.tasks[t].state == Dead && t !in s.all && !Scheduled(s, t)
  {
    var c := s.current.value;
    var t := s.tasks[c].waited.value;
    var s' := Apply(s, e);
    assert TaskOk(s, c) && TaskOk(s, t);
    assert Waited(s, t);
    assert s'.tasks == Released(s, c, t);
    CollectLists(s, s', c, t);
    hide TaskOk, Lists, Waited;
    forall v | v in s'.tasks ensures TaskOk(s', v) { CollectTask(s, s', c, t, v); }
  }

  /** The tasks once c has given up t. */
  ghost function Released(s: State, c: Id, t: Id): map<Id, Task>
    requires c in s.tasks
  {
    s.tasks[c := s.tasks[c].(waited := None)] - {t}
  }

  lemma AllKnown(s: State, i: nat)
    requires Consistent(s) && i < |s.all|
    ensures Distinct(s.all) && s.all[i] in s.tasks
  {
  }

  lemma WaitedOneLess(s: State, s': State, c: Id, t: Id, v: Id)
    requires c in s.tasks && t in s.tasks && s.tasks[c].waited == Some(t) && s.tasks[t].waited.None? && v != t
    requires s'.tasks == Released(s, c, t)
    ensures Waited(s', v) <==> Waited(s, v)
  {
    if Waited(s, v) { var w :| w in s.tasks && s.tasks[w].waited == Some(v); assert s'.tasks[w].waited == Some(v); }
    if Waited(s', v) { var w :| w in s'.tasks && s'.tasks[w].waited == Some(v); assert s.tasks[w].waited == Some(v); }
  }

  /** At most one task holds t. */
  lemma SoleWaiter(s: State, c: Id, t: Id, v: Id)
    requires Lists(s) && c in s.tasks && v in s.tasks && s.tasks[c].waited == Some(t) && v != c
    ensures s.tasks[v].waited != Some(t)
  {
  }

  lemma CollectLists(s: State, s': State, c: Id, t: Id)
    requires Lists(s) && c in s.tasks && t in s.tasks && t !in s.all && !Scheduled(s, t)
    requires s' == s.(tasks := Released(s, c, t), freed := s'.freed)
    ensures Lists(s')
  {
    ListedWithout(s.all, s.tasks, s'.tasks, t);
    ListedWithout(s.ready, s.tasks, s'.tasks, t);
    hide Listed;
  }

  lemma CollectTask(s: State, s': State, c: Id, t: Id, v: Id)
    requires Lists(s) && c in s.tasks && t in s.tasks && s.tasks[c].waited == Some(t) && v in s.tasks && v != t
    requires TaskOk(s, c) && TaskOk(s, t) && TaskOk(s, v)
    requires s' == s.(tasks := Released(s, c, t), freed := s'.freed)
    ensures TaskOk(s', v)
  {
    WaitedOneLess(s, s', c, t, v);
    if v != c { SoleWaiter(s, c, t, v); }
    hide Waited, Lists;
  }

  lemma SignalOk(s: State, e: Step)
    requires Inv(s) && Enabled(s, e) && e.Signal?
    ensures Inv(Apply(s, e)) && Apply(s, e).tasks.Keys == s.tasks.Keys && Apply(s, e).freed == s.freed
  {
    SameConsistent(s, Apply(s, e));
  }

  /** Every event keeps the invariant. */
  lemma StepInv(s: State, e: Step)
    requires Inv(s) && Enabled(s, e)
    ensures Inv(Apply(s, e))
  {
    match e
    case Register(_, _) => RegisterOk(s, e);
    case Tick(_) => SwitchStepOk(s, e);
    case Block(_, _, _) => SwitchStepOk(s, e);
    case Check(_) => CheckOk(s, e);
    case Collect => CollectOk(s, e);
    case Exit(_) => SwitchStepOk(s, e);
    case Signal(_, _) => SignalOk(s, e);
  }

  /** A task is freed only when it is dead, off every list, and collected by the task that waited for it. */
  lemma FreedOnlyWhenReaped(s: State, e: Step, t: Id)
    requires Inv(s) && Enabled(s, e)
    requires (t in s.tasks && t !in Apply(s, e).tasks) || (t !in s.freed && t in Apply(s, e).freed)
    ensures e.Collect? && s.tasks[s.current.value].waited == Some(t)
    ensures t in s.tasks && s.tasks[t].state == Dead && t !in s.all && !Scheduled(s, t)
    ensures t !in Apply(s, e).tasks && (t in Apply(s, e).freed <==> t in s.freed || s.tasks[t].tid != 0)
  {
    match e
    case Register(_, _) =>
    case Tick(_) => SwitchStepOk(s, e);
    case Block(_, _, _) => SwitchStepOk(s, e);
    case Check(_) => CheckOk(s, e);
    case Collect => CollectOk(s, e);
    case Exit(_) => SwitchStepOk(s, e);
    case Signal(_, _) => SignalOk(s, e);
  }

  // ------------------------------------------------------------------- whole runs

  ghost predicate IsRun(s: State, es: seq<Step>)
    requires Inv(s)
    decreases |es|
  {
    es == [] || (Enabled(s, es[0]) && (StepInv(s, es[0]); IsRun(Apply(s, es[0]), es[1..])))
  }

  ghost function After(s: State, es: seq<Step>): (r: State)
    requires Inv(s) && IsRun(s, es)
    ensures Inv(r)
    decreases |es|
  {
    if es == [] then s else (StepInv(s, es[0]); After(Apply(s, es[0]), es[1..]))
  }

  /** The system before any task is registered. */
  ghost function Boot(): (s: State)
    ensures Inv(s)
  {
    State(map[], [], [], Some(IDLE), {})
  }

  /**
    After any run from boot, every registered task is in exactly one of running,
    ready, blocked and dead, at one place in the queue, and its references are
    its share as listed or waited for and its share as scheduled. The list of
    tasks is in the order of their tids.
  */
  lemma OneStateOnly(es: seq<Step>, t: Id)
    requires IsRun(Boot(), es) && t in After(Boot(), es).tasks
    ensures var s := After(Boot(), es);
      var running, ready := s.current == Some(t), t in s.ready;
      var blocked, dead := Blocked(s.tasks[t]), s.tasks[t].state == Dead;
      && (running || ready || blocked || dead)
      && !(running && (ready || blocked || dead)) && !(ready && (blocked || dead)) && !(blocked && dead)
      && (forall i, j :: 0 <= i < j < |s.ready| ==> s.ready[i] != s.ready[j])
      && (t in s.all <==> !Waited(s, t)) && Sorted(s.all, s.tasks)
      && s.tasks[t].refs == 1 + (if running || ready then 1 else 0)
  {
    ListSorted(Boot(), es);
    assert TaskOk(After(Boot(), es), t);
  }

  ghost function Switches(es: seq<Step>): (n: nat)
    ensures n <= |es|
  {
    if es == [] then 0 else (if IsSwitch(es[0]) then 1 else 0) + Switches(es[1..])
  }

  lemma SwitchQueue(s: State, fires: set<Id>, k: nat)
    requires Consistent(s) && k < |s.ready|
    ensures var r := Switch(s, fires);
            if k == 0 then r.current == Some(s.ready[0]) else k - 1 < |r.ready| && r.ready[k - 1] == s.ready[k]
  {
    hide Consistent, UnblockAll;
    UnblockAllOk(s, s.all, fires);
    var u := UnblockAll(s, s.all, fires);
    assert u.ready[k] == u.ready[..|s.ready|][k];
  }

  /** Every switch moves the queue up by one place; nothing else moves it. */
  lemma StepQueue(s: State, e: Step, k: nat)
    requires Inv(s) && Enabled(s, e) && k < |s.ready|
    ensures var r := Apply(s, e);
      if !IsSwitch(e) then k < |r.ready| && r.ready[k] == s.ready[k]
      else if k == 0 then r.current == Some(s.ready[0])
      else k - 1 < |r.ready| && r.ready[k - 1] == s.ready[k]
  {
    hide UnblockAll, FirstReapable, Leave, Switch, Adopt, Lists, TaskOk, InsertByTid, AnyTarget, Wake, Entering;
    if IsSwitch(e) {
      Enters(s, e);
      EntersSame(s, e);
      SwitchQueue(Entering(s, e), e.fires, k);
    }
  }

  /**
    First in, first out: over any run, the task at place k of the ready queue
    moves up one place with each switch, and the (k+1)-th switch dispatches it.
  */
  lemma {:induction false} Fifo(s: State, es: seq<Step>, k: nat)
    requires Inv(s) && IsRun(s, es) && k < |s.ready|
    ensures Switches(es) <= k ==>
      k - Switches(es) < |After(s, es).ready| && After(s, es).ready[k - Switches(es)] == s.ready[k]
    ensures es != [] && IsSwitch(es[|es| - 1]) && Switches(es) == k + 1 ==> After(s, es).current == Some(s.ready[k])
    decreases |es|
  {
    hide Inv, Enabled, Apply;
    if es != [] {
      var e := es[0];
      StepInv(s, e);
      StepQueue(s, e, k);
      if !IsSwitch(e) { Fifo(Apply(s, e), es[1..], k); }
      else if k > 0 { Fifo(Apply(s, e), es[1..], k - 1); }
      else if Switches(es) == 1 && |es| > 1 { NoMoreSwitches(es[1..]); }
    }
  }

  /** A run without switches does not end in one. */
  lemma {:induction false} NoMoreSwitches(es: seq<Step>)
    requires Switches(es) == 0 && es != []
    ensures !IsSwitch(es[|es| - 1])
  {
    if |es| > 1 { NoMoreSwitches(es[1..]); }
  }

  // ------------------------------------------------------------------- list by tid

  ghost predicate Sorted(q: seq<Id>, tasks: map<Id, Task>) {
    forall i, j :: 0 <= i < j < |q| && q[i] in tasks && q[j] in tasks ==> tasks[q[i]].tid <= tasks[q[j]].tid
  }

  lemma SortedSame(q: seq<Id>, tasks: map<Id, Task>, tasks': map<Id, Task>)
    requires Sorted(q, tasks) && forall t :: t in q && t in tasks' ==> t in tasks && tasks'[t].tid == tasks[t].tid
    ensures Sorted(q, tasks')
  {
  }

  lemma SortedWithout(q: seq<Id>, tasks: map<Id, Task>, k: nat)
    requires Sorted(q, tasks) && k < |q|
    ensures Sorted(q[..k] + q[k + 1..], tasks)
  {
    var r := q[..k] + q[k + 1..];
    forall i | 0 <= i < |r| ensures r[i] == q[if i < k then i else i + 1] {}
  }

  lemma SortedInsert(q: seq<Id>, tasks: map<Id, Task>, k: nat, id: Id)
    requires Sorted(q, tasks) && k <= |q| && id in tasks && forall i :: 0 <= i < |q| ==> q[i] in tasks
    requires forall j :: 0 <= j < k ==> tasks[q[j]].tid < tasks[id].tid
    requires k < |q| ==> tasks[id].tid <= tasks[q[k]].tid
    ensures Sorted(q[..k] + [id] + q[k..], tasks)
  {
    var r := q[..k] + [id] + q[k..];
    forall i | 0 <= i < |r| ensures r[i] == (if i < k then q[i] else if i == k then id else q[i - 1]) {}
    forall j | k <= j < |q| ensures tasks[id].tid <= tasks[q[j]].tid {
      assert j == k || tasks[q[k]].tid <= tasks[q[j]].tid;
    }
  }

  lemma ReapSorted(s: State, w: Id, b: Blocker)
    requires w in s.tasks && Sorted(s.all, s.tasks) && Reap(s, w, b).Some?
    ensures Sorted(Reap(s, w, b).value.all, Reap(s, w, b).value.tasks)
  {
    var k, r := FirstReapable(s, b, 0), Reap(s, w, b).value;
    if k < |s.all| { SortedWithout(s.all, s.tasks, k); }
    hide Sorted, FirstReapable, AnyTarget;
    SortedSame(r.all, s.tasks, r.tasks);
  }

  lemma UnblockOneSorted(s: State, v: Id, fires: set<Id>)
    requires Sorted(s.all, s.tasks)
    ensures Sorted(UnblockOne(s, v, fires).all, UnblockOne(s, v, fires).tasks)
  {
    hide Sorted, Reap;
    if v in s.tasks && Blocked(s.tasks[v]) {
      var b := s.tasks[v].block;
      var m := if b.Child? && Reap(s, v, b).Some? then Reap(s, v, b).value else s;
      if b.Child? && Reap(s, v, b).Some? { ReapSorted(s, v, b); ReapOwn(s, v, b, v); }
      SortedSame(m.all, m.tasks, Wake(m, v, false).tasks);
      SortedSame(s.all, s.tasks, Wake(s, v, true).tasks);
    }
  }

  lemma {:induction false} UnblockSorted(s: State, list: seq<Id>, fires: set<Id>)
    requires Sorted(s.all, s.tasks)
    ensures Sorted(UnblockAll(s, list, fires).all, UnblockAll(s, list, fires).tasks)
    decreases |list|
  {
    hide Sorted, UnblockOne;
    if list != [] {
      UnblockOneSorted(s, list[0], fires);
      UnblockSorted(UnblockOne(s, list[0], fires), list[1..], fires);
    }
  }

  lemma StepSorted(s: State, e: Step)
    requires Inv(s) && Enabled(s, e) && Sorted(s.all, s.tasks)
    ensures Sorted(Apply(s, e).all, Apply(s, e).tasks)
  {
    hide Sorted, Consistent, Reap, Switch, Leave, InsertByTid;
    if IsSwitch(e) { SwitchSorted(s, e); }
    else if e.Register? { RegisterSorted(s, e); }
    else if e.Check? { ReapSorted(s, s.current.value, e.blocker); }
    else if e.Collect? { CollectSorted(s, e); }
    else { SortedSame(s.all, s.tasks, Apply(s, e).tasks); }
  }

  lemma CollectSorted(s: State, e: Step)
    requires Inv(s) && Enabled(s, e) && e.Collect? && Sorted(s.all, s.tasks)
    ensures Sorted(Apply(s, e).all, Apply(s, e).tasks)
  {
    assert TaskOk(s, s.current.value) && TaskOk(s, s.tasks[s.current.value].waited.value);
    hide Sorted, Consistent, TaskOk;
    SortedSame(s.all, s.tasks, Apply(s, e).tasks);
  }

  lemma SwitchSorted(s: State, e: Step)
    requires Inv(s) && Enabled(s, e) && IsSwitch(e) && Sorted(s.all, s.tasks)
    ensures Sorted(Apply(s, e).all, Apply(s, e).tasks)
  {
    hide Sorted, Switch, UnblockAll, Apply, Consistent;
    Enters(s, e);
    var p := Entering(s, e);
    SortedSame(p.all, s.tasks, p.tasks);
    SwitchOk(p, e.fires);
    UnblockSorted(p, p.all, e.fires);
  }

  lemma RegisterSorted(s: State, e: Step)
    requires Inv(s) && Enabled(s, e) && e.Register? && Sorted(s.all, s.tasks)
    ensures Sorted(Apply(s, e).all, Apply(s, e).tasks)
  {
    var k := InsertByTidIs(s, 0, e.id, e.task.tid);
    var tasks := Apply(s, e).tasks;
    NoneWaitsForStranger(s, e.id);
    assert Listed(s.all, s.tasks);
    hide Consistent, InsertByTid, Sorted;
    assert tasks == s.tasks[e.id := tasks[e.id]] && tasks[e.id].tid == e.task.tid;
    SortedSame(s.all, s.tasks, tasks);
    forall j | 0 <= j < |s.all| ensures s.all[j] in s.tasks && s.all[j] != e.id { assert s.all[j] in s.all; }
    SortedInsert(s.all, tasks, k, e.id);
  }

  /** After any run from boot, the list of tasks is in the order of their tids. */
  lemma {:induction false} ListSorted(s: State, es: seq<Step>)
    requires Inv(s) && IsRun(s, es) && Sorted(s.all, s.tasks)
    ensures Sorted(After(s, es).all, After(s, es).tasks)
    decreases |es|
  {
    hide Inv, Apply, Enabled, Sorted;
    if es != [] {
      StepSorted(s, es[0]);
      StepInv(s, es[0]);
      ListSorted(Apply(s, es[0]), es[1..]);
    }
  }

  // -------------------------------------------------------------------- waking up

  /** unblock_waitpid returns true: a target is dead, or nobody is a target. */
  ghost predicate WaitOver(s: State, b: Blocker)
    requires b.Child?
  {
    || (exists i :: 0 <= i < |s.all| && s.all[i] in s.tasks
                    && s.tasks[s.all[i]].state == Dead && IsTarget(b, s.tasks[s.all[i]]))
    || (forall i :: 0 <= i < |s.all| && s.all[i] in s.tasks ==> !IsTarget(b, s.tasks[s.all[i]]))
  }

  /** Blocked task t is to be made ready: by a signal, by its event, or because its wait is over. */
  ghost predicate Due(s: State, t: Id, fires: set<Id>)
    requires t in s.tasks
  {
    var x := s.tasks[t];
    || (x.state == Interruptible && x.signalled)
    || (x.block == Event && t in fires)
    || (x.block.Child? && WaitOver(s, x.block))
  }

  lemma ReapReturns(s: State, w: Id, b: Blocker)
    requires w in s.tasks && b.Child?
    ensures Reap(s, w, b).Some? <==> WaitOver(s, b)
  {
    var k := FirstReapable(s, b, 0);
    if k < |s.all| {
      assert Reapable(s, b, k);
    } else {
      forall i | 0 <= i < |s.all| && s.all[i] in s.tasks && IsTarget(b, s.tasks[s.all[i]])
        ensures s.tasks[s.all[i]].state != Dead
      {
        assert !Reapable(s, b, i);
      }
    }
  }

  /** Blocked task x of state s, as it is once it was made ready. */
  ghost predicate MadeReady(x: Task, y: Task) {
    && y.state == Running && y.block == NotBlocked && y.refs == x.refs + 1
    && y.interrupted == (x.state == Interruptible && x.signalled)
  }

  lemma WakeOne(s: State, t: Id, fires: set<Id>)
    requires t in s.tasks && Blocked(s.tasks[t]) && s.tasks[t].block != NotBlocked
    ensures var u := UnblockOne(s, t, fires);
      if Due(s, t, fires) then t in u.tasks && MadeReady(s.tasks[t], u.tasks[t]) && u.ready == s.ready + [t]
      else u == s
  {
    hide WaitOver, Reap;
    if s.tasks[t].block.Child? { ReapReturns(s, t, s.tasks[t].block); ReapOwn(s, t, s.tasks[t].block, t); }
  }

  /** unblock_waitpid changes the waiter's `waited` only, and no queue. */
  lemma ReapOwn(s: State, w: Id, b: Blocker, v: Id)
    requires w in s.tasks && v in s.tasks
    ensures Reap(s, w, b).Some? ==>
      var r := Reap(s, w, b).value;
      && r.ready == s.ready && r.current == s.current && r.tasks.Keys == s.tasks.Keys
      && r.tasks[v] == if v == w then s.tasks[v].(waited := r.tasks[v].waited) else s.tasks[v]
  {
    hide FirstReapable, AnyTarget;
  }

  lemma OthersUnblock(s: State, v: Id, fires: set<Id>, t: Id)
    requires t in s.tasks && t != v
    ensures var u := UnblockOne(s, v, fires);
      && u.tasks.Keys == s.tasks.Keys && u.tasks[t] == s.tasks[t] && u.current == s.current
      && (t in u.ready <==> t in s.ready)
  {
    hide Reap;
    if v in s.tasks { ReapOwn(s, v, s.tasks[v].block, v); ReapOwn(s, v, s.tasks[v].block, t); }
  }

  /** A task is not touched while others are unblocked. */
  lemma {:induction false} OthersUnblocked(s: State, list: seq<Id>, fires: set<Id>, t: Id)
    requires t in s.tasks && t !in list
    ensures var u := UnblockAll(s, list, fires);
      && u.tasks.Keys == s.tasks.Keys && u.tasks[t] == s.tasks[t] && u.current == s.current
      && (t in u.ready <==> t in s.ready)
    decreases |list|
  {
    hide UnblockOne;
    if list != [] {
      OthersUnblock(s, list[0], fires, t);
      OthersUnblocked(UnblockOne(s, list[0], fires), list[1..], fires, t);
    }
  }

  lemma {:induction false} UnblockSplit(s: State, a: seq<Id>, b: seq<Id>, fires: set<Id>)
    ensures UnblockAll(s, a + b, fires) == UnblockAll(UnblockAll(s, a, fires), b, fires)
    decreases |a|
  {
    hide UnblockOne;
    if a == [] {
      assert a + b == b;
    } else {
      assert (a + b)[1..] == a[1..] + b;
      UnblockSplit(UnblockOne(s, a[0], fires), a[1..], b, fires);
    }
  }

  /** unblock_tasks makes a blocked task ready exactly if it is due when its turn comes. */
  lemma UnblockWakes(s: State, fires: set<Id>, k: nat)
    requires Consistent(s) && k < |s.all| && s.all[k] in s.tasks && Blocked(s.tasks[s.all[k]])
    ensures var t, m, u := s.all[k], UnblockAll(s, s.all[..k], fires), UnblockAll(s, s.all, fires);
      && t in m.tasks && t in u.tasks && m.tasks[t] == s.tasks[t]
      && if Due(m, t, fires) then MadeReady(s.tasks[t], u.tasks[t]) && t in u.ready
         else u.tasks[t] == s.tasks[t] && t !in u.ready && u.current != Some(t)
  {
    var t, a, b := s.all[k], s.all[..k], s.all[k + 1..];
    assert TaskOk(s, t) && Distinct(s.all);
    assert t !in a && t !in b;
    assert s.all == a + ([t] + b) && ([t] + b)[1..] == b;
    hide Consistent, UnblockOne, Due, MadeReady, Distinct;
    UnblockSplit(s, a, [t] + b, fires);
    OthersUnblocked(s, a, fires, t);
    var m := UnblockAll(s, a, fires);
    WakeOne(m, t, fires);
    OthersUnblocked(UnblockOne(m, t, fires), b, fires, t);
  }

  /**
    After every step that switches, a task that was blocked runs or is in the
    queue exactly if it was due when its turn came: signalled and interruptible,
    waiting for an event that has come, or for a child where a target is dead or
    nobody is a target. It is then told whether it was interrupted. Any other
    blocked task is left as it was.
  */
  lemma WokenExactly(s: State, e: Step, k: nat)
    requires Inv(s) && Enabled(s, e) && IsSwitch(e) && k < |s.all|
    requires s.all[k] in Entering(s, e).tasks && Blocked(Entering(s, e).tasks[s.all[k]])
    ensures var p, r, t := Entering(s, e), Apply(s, e), s.all[k];
      var m := UnblockAll(p, p.all[..k], e.fires);
      && t in m.tasks && t in r.tasks && m.tasks[t] == p.tasks[t]
      && (Due(m, t, e.fires) <==> Scheduled(r, t))
      && if Due(m, t, e.fires) then MadeReady(p.tasks[t], r.tasks[t]) else r.tasks[t] == p.tasks[t]
  {
    hide Inv, Apply, Enabled, UnblockAll, Due, MadeReady;
    Enters(s, e);
    var p, t := Entering(s, e), s.all[k];
    assert p.all == s.all && t != IDLE by { EntersSame(s, e); ListedTask(p, k); }
    UnblockWakes(p, e.fires, k);
    SwitchOk(p, e.fires);
    ScheduledIff(p, e.fires, t);
  }

  lemma ListedTask(s: State, k: nat)
    requires Consistent(s) && k < |s.all|
    ensures s.all[k] in s.tasks && s.all[k] != IDLE
  {
  }

  lemma ScheduledIff(p: State, fires: set<Id>, t: Id)
    requires Consistent(p) && t in p.tasks && t != IDLE
    ensures var u := UnblockAll(p, p.all, fires); Scheduled(Switch(p, fires), t) <==> Scheduled(u, t)
  {
    hide Consistent, UnblockAll;
    var u := UnblockAll(p, p.all, fires);
    assert u.ready != [] ==> u.ready == [u.ready[0]] + u.ready[1..];
    UnblockAllOk(p, p.all, fires);
  }

  /** What is dispatched by the next n switches: t runs at the end of every run whose last step is the n-th. */
  ghost predicate DispatchedBy(r: State, t: Id, n: nat)
    requires Inv(r)
  {
    forall es :: IsRun(r, es) && es != [] && IsSwitch(es[|es| - 1]) && Switches(es) == n ==>
      After(r, es).current == Some(t)
  }

  /** A task that was due is on the CPU, or has a place in the queue and is dispatched by the switch of that place. */
  lemma WokenIsDispatched(s: State, e: Step, k: nat)
    requires Inv(s) && Enabled(s, e) && IsSwitch(e) && k < |s.all|
    requires s.all[k] in Entering(s, e).tasks && Blocked(Entering(s, e).tasks[s.all[k]])
    requires var p := Entering(s, e); var m := UnblockAll(p, p.all[..k], e.fires);
      s.all[k] in m.tasks && Due(m, s.all[k], e.fires)
    ensures var r, t := Apply(s, e), s.all[k];
      Inv(r) && (r.current == Some(t) || exists j: nat :: j < |r.ready| && r.ready[j] == t && DispatchedBy(r, t, j + 1))
  {
    WokenExactly(s, e, k);
    StepInv(s, e);
    hide Inv, Apply, Enabled, UnblockAll, Due, Entering;
    var r, t := Apply(s, e), s.all[k];
    if r.current != Some(t) {
      var j: nat :| j < |r.ready| && r.ready[j] == t;
      forall es | IsRun(r, es) && es != [] && IsSwitch(es[|es| - 1]) && Switches(es) == j + 1
        ensures After(r, es).current == Some(t)
      {
        Fifo(r, es, j);
      }
    }
  }

  lemma {:induction false} NobodyWakes(s: State, list: seq<Id>, fires: set<Id>)
    requires forall t :: t in s.tasks ==> !Blocked(s.tasks[t])
    ensures UnblockAll(s, list, fires) == s
    decreases |list|
  {
    if list != [] { NobodyWakes(s, list[1..], fires); }
  }

  /**
    The next task is chosen before the previous one goes back into the queue: a
    task that is alone gives way to the idle task, and runs again after the next
    switch.
  */
  lemma LoneTask(s: State, fires: set<Id>, fires2: set<Id>)
    requires Inv(s) && RunningTask(s) && s.ready == [] && forall t :: t in s.tasks ==> !Blocked(s.tasks[t])
    ensures Apply(s, Tick(fires)) == s.(current := Some(IDLE), ready := [s.current.value])
    ensures Inv(Apply(s, Tick(fires))) && Apply(Apply(s, Tick(fires)), Tick(fires2)) == s
  {
    StepInv(s, Tick(fires));
    assert s.current.value != IDLE;
    hide Consistent;
    NobodyWakes(s, s.all, fires);
    var r := s.(current := Some(IDLE), ready := [s.current.value]);
    NobodyWakes(r, r.all, fires2);
    assert [s.current.value][1..] + [] == [];
  }

  /** Task t sleeps until its event comes: no step of the run brings it, and no signal can wake t. */
  ghost predicate Undisturbed(s: State, es: seq<Step>, t: Id)
    requires t in s.tasks
  {
    && s.tasks[t].block == Event
    && (forall i :: 0 <= i < |es| && IsSwitch(es[i]) ==> t !in es[i].fires)
    && (s.tasks[t].state == Interruptible ==>
          !s.tasks[t].signalled && forall i :: 0 <= i < |es| && es[i].Signal? && es[i].id == t ==> !es[i].on)
  }

  /** Steps other than switches leave a blocked task blocked, on the same thing. */
  lemma AsleepStep(s: State, e: Step, t: Id)
    requires Inv(s) && Enabled(s, e) && !IsSwitch(e) && t in s.tasks && Blocked(s.tasks[t])
    ensures t in Apply(s, e).tasks
    ensures var x, y := s.tasks[t], Apply(s, e).tasks[t];
      && y.state == x.state && y.block == x.block
      && y.signalled == (if e.Signal? && e.id == t then e.on else x.signalled)
  {
    assert TaskOk(s, t);
    if RunningTask(s) { CurrentCounts(s); }
    if e.Check? {
      ReapOwn(s, s.current.value, e.blocker, t);
    } else if e.Collect? {
      assert TaskOk(s, s.current.value);
    }
    hide Reap, Switch, Leave, FirstReapable, UnblockAll, Lists;
  }

  lemma AsleepSwitch(s: State, e: Step, t: Id)
    requires Inv(s) && Enabled(s, e) && IsSwitch(e) && t in s.tasks && Blocked(s.tasks[t]) && Undisturbed(s, [e], t)
    ensures t in Apply(s, e).tasks && Apply(s, e).tasks[t] == Entering(s, e).tasks[t]
    ensures var x, y := s.tasks[t], Apply(s, e).tasks[t];
      y.state == x.state && y.block == x.block && y.signalled == x.signalled
  {
    hide Consistent, Apply, Enabled, Entering, UnblockAll;
    NoneWaitsForBlocked(s, t);
    var k :| 0 <= k < |s.all| && s.all[k] == t;
    EntersAsleep(s, e, t);
    assert [e][0] == e;
    WokenExactly(s, e, k);
  }

  lemma EntersAsleep(s: State, e: Step, t: Id)
    requires Inv(s) && Enabled(s, e) && IsSwitch(e) && t in s.tasks && Blocked(s.tasks[t])
    ensures t in Entering(s, e).tasks
    ensures Entering(s, e).tasks[t] == s.tasks[t].(ppid := Entering(s, e).tasks[t].ppid)
  {
    if RunningTask(s) { CurrentCounts(s); }
    hide Consistent;
  }

  /** Only a dead task is waited for. */
  lemma NoneWaitsForBlocked(s: State, t: Id)
    requires Consistent(s) && t in s.tasks && s.tasks[t].state != Dead
    ensures !Waited(s, t) && t in s.all
  {
    assert TaskOk(s, t);
    forall w | w in s.tasks ensures s.tasks[w].waited != Some(t) { assert TaskOk(s, w); }
  }

  /**
    Over every run that does not bring its event, a sleeping task goes on
    sleeping: an uninterruptible one whatever signals come, an interruptible one
    as long as none comes.
  */
  lemma {:induction false} SleepsOn(s: State, es: seq<Step>, t: Id)
    requires Inv(s) && IsRun(s, es) && t in s.tasks && Blocked(s.tasks[t]) && Undisturbed(s, es, t)
    ensures t in After(s, es).tasks && After(s, es).tasks[t].state == s.tasks[t].state
    ensures After(s, es).tasks[t].block == Event && !Scheduled(After(s, es), t)
    decreases |es|
  {
    hide Inv, Apply, Enabled, Entering, Scheduled, Undisturbed;
    if es == [] {
      Asleep(s, es, t);
    } else {
      var e := es[0];
      StepInv(s, e);
      StillUndisturbed(s, es, Apply(s, e), t);
      if IsSwitch(e) { AsleepSwitch(s, e, t); } else { AsleepStep(s, e, t); }
      SleepsOn(Apply(s, e), es[1..], t);
    }
  }

  lemma Asleep(s: State, es: seq<Step>, t: Id)
    requires Inv(s) && t in s.tasks && Blocked(s.tasks[t]) && Undisturbed(s, es, t)
    ensures !Scheduled(s, t) && s.tasks[t].block == Event
  {
    assert TaskOk(s, t);
  }

  lemma StillUndisturbed(s: State, es: seq<Step>, r: State, t: Id)
    requires t in s.tasks && Undisturbed(s, es, t) && es != []
    ensures Undisturbed(s, [es[0]], t)
    ensures t in r.tasks && r.tasks[t].state == s.tasks[t].state && r.tasks[t].block == s.tasks[t].block
            && r.tasks[t].signalled == (if es[0].Signal? && es[0].id == t then es[0].on else s.tasks[t].signalled) ==>
      Undisturbed(r, es[1..], t)
  {
    assert forall i :: 0 <= i < |es| - 1 ==> es[1..][i] == es[i + 1];
  }

  // ---------------------------------------------------------------------- children

  /**
    What wait4 takes: with pid -1 a child of the caller, with a pid above 0 that
    thread group, with 0 a task of the caller's process group, below -1 one of
    the process group -pid. It is dead, was the first such on the list and is off
    it; where it takes nothing, no task on the list qualifies, dead or alive.
  */
  lemma WaitTakes(s: State, w: Id, b: Blocker, i: nat)
    requires w in s.tasks && b.Child? && Reap(s, w, b).Some? && Listed(s.all, s.tasks) && i < |s.all|
    ensures var r := Reap(s, w, b).value; w in r.tasks && match r.tasks[w].waited
      case Some(t) =>
        && t in s.tasks && s.tasks[t].state == Dead && t in s.all && t !in r.all
        && (b.pid == -1 ==> s.tasks[t].ppid == b.tgid) && (b.pid > 0 ==> s.tasks[t].tgid == b.pid)
        && (b.pid == 0 ==> s.tasks[t].pgid == b.pgid) && (b.pid < -1 ==> s.tasks[t].pgid == -b.pid)
      case None =>
        && (b.pid == -1 ==> s.tasks[s.all[i]].ppid != b.tgid) && (b.pid > 0 ==> s.tasks[s.all[i]].tgid != b.pid)
        && (b.pid == 0 ==> s.tasks[s.all[i]].pgid != b.pgid) && (b.pid < -1 ==> s.tasks[s.all[i]].pgid != -b.pid)
        && r.all == s.all
  {
    var k := FirstReapable(s, b, 0);
    if k < |s.all| { TakenOut(s.all, k, s.all[k]); }
  }

  /** Who a task is does not change while tasks are unblocked, and the dead stay dead. */
  ghost predicate SamePerson(x: Task, y: Task) {
    x.tid == y.tid && x.tgid == y.tgid && x.pgid == y.pgid && x.ppid == y.ppid && (x.state == Dead <==> y.state == Dead)
  }

  lemma {:induction false} UnblockPersons(s: State, list: seq<Id>, fires: set<Id>, t: Id)
    requires t in s.tasks
    ensures t in UnblockAll(s, list, fires).tasks && SamePerson(s.tasks[t], UnblockAll(s, list, fires).tasks[t])
    decreases |list|
  {
    if list != [] {
      var v := list[0];
      if v in s.tasks { ReapOwn(s, v, s.tasks[v].block, t); ReapOwn(s, v, s.tasks[v].block, v); }
      assert t in UnblockOne(s, v, fires).tasks && SamePerson(s.tasks[t], UnblockOne(s, v, fires).tasks[t]) by {
        hide Reap;
      }
      hide UnblockOne;
      UnblockPersons(UnblockOne(s, v, fires), list[1..], fires, t);
    }
  }

  /** When a task exits it is dead, its children and no others become init's, and nobody else dies. */
  lemma ExitPersons(s: State, fires: set<Id>, t: Id)
    requires Inv(s) && Enabled(s, Exit(fires)) && t in s.tasks
    ensures var r, c := Apply(s, Exit(fires)), s.current.value;
      && t in r.tasks && r.tasks[t].tid == s.tasks[t].tid && r.tasks[t].tgid == s.tasks[t].tgid
      && r.tasks[t].pgid == s.tasks[t].pgid
      && (r.tasks[t].state == Dead <==> t == c || s.tasks[t].state == Dead)
      && r.tasks[t].ppid == if t in s.all && s.tasks[t].ppid == s.tasks[c].tgid then 1 else s.tasks[t].ppid
  {
    hide Consistent, UnblockAll, Apply, Switch;
    Enters(s, Exit(fires));
    var p := Entering(s, Exit(fires));
    SwitchOk(p, fires);
    UnblockPersons(p, p.all, fires, t);
  }

  /**
    A child that exits is noticed: a task blocked in wait4 for its children runs
    or is in the queue afterwards, unless another waiter has taken the child.
  */
  lemma ExitNoticed(s: State, fires: set<Id>, k: nat)
    requires Inv(s) && Enabled(s, Exit(fires)) && k < |s.all| && s.all[k] in s.tasks && Blocked(s.tasks[s.all[k]])
    requires var b := s.tasks[s.all[k]].block;
      b.Child? && b.pid == -1 && Entering(s, Exit(fires)).tasks[s.current.value].ppid == b.tgid
    ensures Scheduled(Apply(s, Exit(fires)), s.all[k]) || Waited(Apply(s, Exit(fires)), s.current.value)
  {
    var e, c, w := Exit(fires), s.current.value, s.all[k];
    hide Inv, Consistent, Apply, Enabled, Entering, Due, WaitOver, UnblockAll, Switch, IsTarget;
    Enters(s, e);
    EntersSame(s, e);
    StepInv(s, e);
    SwitchStepOk(s, e);
    ExitEnters(s, fires, w);
    WokenExactly(s, e, k);
    var p, r := Entering(s, e), Apply(s, e);
    if !Waited(r, c) {
      NotTaken(r, c);
      StillListed(p, fires, k, c);
      UnblockPersons(p, p.all[..k], fires, c);
      DeadTarget(UnblockAll(p, p.all[..k], fires), p.tasks[w].block, w, c, fires);
    }
  }

  /** The exiting task is dead when the switch begins; a blocked one is as it was. */
  lemma ExitEnters(s: State, fires: set<Id>, w: Id)
    requires Inv(s) && Enabled(s, Exit(fires)) && w in s.tasks && Blocked(s.tasks[w])
    ensures var p, c := Entering(s, Exit(fires)), s.current.value;
      && c in p.tasks && p.tasks[c].state == Dead && w in p.tasks
      && p.tasks[w].state == s.tasks[w].state && p.tasks[w].block == s.tasks[w].block
  {
    CurrentCounts(s);
  }

  lemma DeadTarget(m: State, b: Blocker, w: Id, c: Id, fires: set<Id>)
    requires w in m.tasks && m.tasks[w].block == b && b.Child? && b.pid == -1
    requires c in m.all && c in m.tasks && m.tasks[c].state == Dead && m.tasks[c].ppid == b.tgid
    ensures Due(m, w, fires)
  {
    var i :| 0 <= i < |m.all| && m.all[i] == c;
  }

  lemma NotTaken(s: State, t: Id)
    requires Consistent(s) && t in s.tasks && !Waited(s, t)
    ensures t in s.all
  {
    assert TaskOk(s, t);
  }

  /** Unblocking takes tasks off the list and puts none on it. */
  lemma {:induction false} UnblockShrinks(s: State, list: seq<Id>, fires: set<Id>, t: Id)
    requires t in UnblockAll(s, list, fires).all
    ensures t in s.all
    decreases |list|
  {
    hide FirstReapable, AnyTarget;
    if list != [] { UnblockShrinks(UnblockOne(s, list[0], fires), list[1..], fires, t); }
  }

  lemma StillListed(p: State, fires: set<Id>, k: nat, t: Id)
    requires Consistent(p) && k <= |p.all| && t in Switch(p, fires).all
    ensures t in UnblockAll(p, p.all[..k], fires).all
  {
    hide Consistent, UnblockAll;
    assert p.all == p.all[..k] + p.all[k..];
    UnblockSplit(p, p.all[..k], p.all[k..], fires);
    UnblockShrinks(UnblockAll(p, p.all[..k], fires), p.all[k..], fires, t);
  }

  // ------------------------------------------------------------------- the code

  class Cpu {
    var tasks: map<Id, Task>
    var ready: seq<Id>              // ready_queue
    var all: seq<Id>                // all_tasks
    var current: Option<Id>         // current_task
    ghost var freed: set<Id>

    ghost function Now(): State reads this { State(tasks, ready, all, current, freed) }

    constructor ()
      ensures Now() == Boot() && Inv(Now())
    {
      tasks, ready, all, current, freed := map[], [], [], Some(IDLE), {};
    }

    /** enqueue_ready: the walk asserts that the task is not in the queue yet. */
    method EnqueueReady(t: Id)
      requires t in tasks && tasks[t].state == Running && t !in ready
      modifies this`ready
      ensures ready == old(ready) + [t]
    {
      if ready != [] {
        var it := 0;
        while it + 1 < |ready|
          invariant it < |ready|
        {
          assert ready[it] != t;
          it := it + 1;
        }
        ready := ready[..it + 1] + [t];
      } else {
        ready := [t];
      }
    }

    /** dequeue_ready */
    method DequeueReady() returns (t: Id)
      requires ready != [] ==> ready[0] in tasks && tasks[ready[0]].state != Dead
      modifies this`ready
      ensures if old(ready) == [] then t == IDLE && ready == [] else t == old(ready)[0] && ready == old(ready)[1..]
    {
      if ready == [] { return IDLE; }
      t := ready[0];
      ready := ready[1..];
    }

    /** unblock_waitpid: true, and the dead task off the list, or nothing to wait for; or false. */
    method UnblockWaitpid(w: Id, b: Blocker) returns (ok: bool)
      requires w in tasks && b.Child? && forall i :: 0 <= i < |all| ==> all[i] in tasks
      modifies this
      ensures match Reap(old(Now()), w, b) case Some(s) => ok && Now() == s case None => !ok && Now() == old(Now())
    {
      ghost var s := Now();
      var it, anyTarget := 0, false;
      while it < |all|
        invariant it <= |all| && Now() == s
        invariant FirstReapable(s, b, 0) == FirstReapable(s, b, it)
        invariant anyTarget <==> exists i :: 0 <= i < it && IsTarget(b, tasks[all[i]])
      {
        var isTarget := IsTarget(b, tasks[all[it]]);
        anyTarget := anyTarget || isTarget;
        if isTarget && tasks[all[it]].state == Dead { break; }
        it := it + 1;
      }
      if it == |all| {
        if !anyTarget {
          tasks := tasks[w := tasks[w].(waited := None)];
          return true;
        }
        return false;
      }
      tasks := tasks[w := tasks[w].(waited := Some(all[it]))];
      all := all[..it] + all[it + 1..];
      ok := true;
    }

    /** The body of unblock_tasks' loop. */
    method UnblockTask(t: Id, fires: set<Id>)
      requires Consistent(Now()) && t in tasks
      modifies this
      ensures Now() == UnblockOne(old(Now()), t, fires) && Consistent(Now())
    {
      hide Consistent, Reap;
      UnblockOneOk(Now(), t, fires);
      if !Blocked(tasks[t]) { return; }
      BlockedNotQueued(Now(), t);
      ghost var s := Now();
      var b := tasks[t].block;
      var interrupted := tasks[t].state == Interruptible && tasks[t].signalled;
      var unblocked := interrupted;
      if !interrupted {
        if b.Child? {
          unblocked := UnblockWaitpid(t, b);
          ReapKeeps(s, t, b);
        } else {
          unblocked := t in fires;
        }
      }
      if unblocked {
        var x := tasks[t];
        x := x.(block := NotBlocked, interrupted := interrupted, state := Running, refs := x.refs + 1);
        tasks := tasks[t := x];
        EnqueueReady(t);
      }
    }

    /**
      unblock_tasks. A task that is taken off the list meanwhile is dead, so it
      makes no difference whether the walk still comes by it.
    */
    method UnblockTasks(fires: set<Id>)
      requires Consistent(Now())
      modifies this
      ensures Now() == UnblockAll(old(Now()), old(all), fires) && Consistent(Now())
    {
      ghost var s := Now();
      var list, i := all, 0;
      assert list[0..] == list;
      while i < |list|
        invariant i <= |list| && Consistent(Now()) && tasks.Keys == s.tasks.Keys
        invariant UnblockAll(Now(), list[i..], fires) == UnblockAll(s, list, fires)
      {
        ghost var before := Now();
        UnblockOneOk(before, list[i], fires);
        hide Consistent, UnblockOne;
        assert list[i..][0] == list[i] && list[i..][1..] == list[i + 1..];
        UnblockTask(list[i], fires);
        i := i + 1;
      }
    }

    /** switch_context */
    method SwitchContext(fires: set<Id>)
      requires Consistent(Now())
      modifies this
      ensures Now() == Switch(old(Now()), fires) && Inv(Now())
    {
      hide Consistent, UnblockAll, TaskOk, Lists;
      SwitchOk(Now(), fires);
      UnblockAllOk(Now(), all, fires);
      var prev := current;
      if prev == Some(IDLE) { prev := None; }
      UnblockTasks(fires);
      HeadRuns(Now());
      var t := DequeueReady();
      current := Some(t);
      if prev.Some? { EnqueueReady(prev.value); }
    }

    /** task_unref on a task that is not current unless another reference remains. */
    method TaskUnref(t: Id)
      requires t in tasks && tasks[t].refs > 0 && (tasks[t].refs == 1 ==> current != Some(t))
      modifies this`tasks, this`freed
      ensures Now() == Unref(old(Now()), t)
    {
      tasks := tasks[t := tasks[t].(refs := tasks[t].refs - 1)];
      if tasks[t].refs > 0 { return; }
      if tasks[t].tid != 0 { freed := freed + {t}; }
      tasks := tasks - {t};
      assert Now() == Unref(old(Now()), t);
    }

    /** sched_yield(true), from the timer interrupt. */
    method Tick(fires: set<Id>)
      requires Inv(Now())
      modifies this
      ensures Inv(Now()) && Now() == Apply(old(Now()), Step.Tick(fires))
    {
      SwitchContext(fires);
    }

    /** sched_yield(false): s is the state before the current task changed its own to x. */
    method YieldAway(fires: set<Id>, ghost s: State, ghost x: Task)
      requires Inv(s) && RunningTask(s) && s.tasks[s.current.value].waited.None?
      requires x.waited.None? && x.refs == 2 && x.state != Running && (Blocked(x) <==> x.block != NotBlocked)
      requires Now() == s.(tasks := s.tasks[s.current.value := x])
      modifies this
      ensures Inv(Now()) && Now() == Leave(old(Now()), fires)
    {
      hide Inv, Consistent, Switch;
      ParkedOk(s, x.(refs := 1));
      var c := current.value;
      TaskUnref(c);
      current := None;
      assert s.tasks[c := x][c := x.(refs := 1)] == s.tasks[c := x.(refs := 1)];
      assert Now() == Parked(s, x.(refs := 1));
      SwitchContext(fires);
    }

    /**
      sched_block, once its condition was found not to hold. Interrupts are on
      between the look and this section, so the condition may hold by now.
    */
    method Block(b: Blocker, uninterruptible: bool, fires: set<Id>)
      requires Inv(Now()) && Enabled(Now(), Step.Block(b, uninterruptible, fires))
      modifies this
      ensures Inv(Now()) && Now() == Apply(old(Now()), Step.Block(b, uninterruptible, fires))
    {
      hide Inv, Leave, Reap;
      ghost var s := Now();
      CurrentCounts(s);
      var c := current.value;
      var state := if uninterruptible then Uninterruptible else Interruptible;
      tasks := tasks[c := tasks[c].(block := b, state := state, interrupted := false)];
      YieldAway(fires, s, tasks[c]);
    }

    /** exit, from the adoption of its children on. */
    method Exit(fires: set<Id>)
      requires Inv(Now()) && Enabled(Now(), Step.Exit(fires))
      modifies this
      ensures Inv(Now()) && Now() == Apply(old(Now()), Step.Exit(fires))
    {
      hide Consistent, Leave, Reap, Adopt;
      ghost var s := Now();
      var c := current.value;
      var tgid := tasks[c].tgid;
      AdoptOk(s, tgid);
      AdoptChildren(tgid);
      ghost var a := Now();
      CurrentCounts(a);
      tasks := tasks[c := tasks[c].(state := Dead)];
      YieldAway(fires, a, tasks[c]);
    }

    /** exit's loop over all_tasks: orphans get init as their parent. */
    method AdoptChildren(tgid: int)
      requires Consistent(Now())
      modifies this`tasks
      ensures tasks == Adopt(old(Now()), tgid)
    {
      ghost var s := Now();
      hide Consistent, Adopt, AdoptedBefore;
      AdoptedNone(s, tgid);
      var i := 0;
      while i < |all|
        invariant i <= |all| && tasks.Keys == s.tasks.Keys && AdoptedBefore(s, tasks, tgid, i)
      {
        var t := all[i];
        AllKnown(s, i);
        AdoptedNext(s, tasks, tgid, i);
        if tasks[t].ppid == tgid { tasks := tasks[t := tasks[t].(ppid := 1)]; }
        i := i + 1;
      }
      AdoptedEvery(s, tasks, tgid);
    }

    /** sys_wait4 and sched_block's first look at the condition. */
    method Check(b: Blocker)
      requires Inv(Now()) && Enabled(Now(), Step.Check(b))
      modifies this
      ensures Inv(Now()) && Now() == Apply(old(Now()), Step.Check(b))
    {
      CheckOk(Now(), Step.Check(b));
      hide TaskOk;
      var ok := UnblockWaitpid(current.value, b);
    }

    /** sys_wait4's last use of the task it waited for. */
    method Collect()
      requires Inv(Now()) && Enabled(Now(), Step.Collect)
      modifies this
      ensures Inv(Now()) && Now() == Apply(old(Now()), Step.Collect)
    {
      CollectOk(Now(), Step.Collect);
      var c := current.value;
      var t := tasks[c].waited.value;
      assert TaskOk(Now(), c) && TaskOk(Now(), t);
      hide Consistent;
      tasks := tasks[c := tasks[c].(waited := None)];
      TaskUnref(t);
    }

    /** sched_register on a new task, whose creator's reference becomes its share as scheduled. */
    method Register(id: Id, task: Task)
      requires Inv(Now()) && Enabled(Now(), Step.Register(id, task))
      modifies this
      ensures Inv(Now()) && Now() == Apply(old(Now()), Step.Register(id, task))
    {
      hide TaskOk;
      ghost var s := Now();
      RegisterOk(s, Step.Register(id, task));
      NoneWaitsForStranger(s, id);
      var it := 0;
      while it < |all| && tasks[all[it]].tid < task.tid
        invariant it <= |all| && InsertByTid(s, it, id, task.tid) == InsertByTid(s, 0, id, task.tid)
      {
        it := it + 1;
      }
      all := all[..it] + [id] + all[it..];
      tasks := tasks[id := task.(refs := task.refs + 1)];
      EnqueueReady(id);
    }
  }

  lemma AdoptOk(s: State, tgid: int)
    requires Inv(s)
    ensures var a := s.(tasks := Adopt(s, tgid));
      && Inv(a) && a.tasks.Keys == s.tasks.Keys && forall t :: t in s.tasks ==> a.tasks[t].waited == s.tasks[t].waited
  {
    hide Lists, TaskOk;
    SameConsistent(s, s.(tasks := Adopt(s, tgid)));
  }

  lemma BlockedNotQueued(s: State, t: Id)
    requires Consistent(s) && t in s.tasks && Blocked(s.tasks[t])
    ensures t !in s.ready && forall i :: 0 <= i < |s.all| ==> s.all[i] in s.tasks
  {
    assert TaskOk(s, t);
  }

  /** dequeue_ready's and enqueue_ready's assertions hold when the task on the CPU is exchanged. */
  lemma HeadRuns(u: State)
    requires Consistent(u)
    ensures u.ready != [] ==> u.ready[0] in u.tasks && u.tasks[u.ready[0]].state == Running
    ensures u.current.Some? && u.current.value != IDLE ==>
      u.current.value in u.tasks && u.tasks[u.current.value].state == Running && u.current.value !in u.ready
  {
    if u.ready != [] { assert TaskOk(u, u.ready[0]); }
    if u.current.Some? && u.current.value != IDLE { assert TaskOk(u, u.current.value); }
  }

  lemma ReapKeeps(s: State, t: Id, b: Blocker)
    requires t in s.tasks
    ensures Reap(s, t, b).Some? ==>
      Reap(s, t, b).value.ready == s.ready && t in Reap(s, t, b).value.tasks
      && Reap(s, t, b).value.tasks[t] == s.tasks[t].(waited := Reap(s, t, b).value.tasks[t].waited)
  {
  }
}
