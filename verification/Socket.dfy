/**
  The handshake of Unix sockets (kernel/unix_socket.c): listen, connect and
  accept, interleaved at the critical sections of their locks.
*/
module Socket {
  import opened Basics

  type Id = nat

  datatype SocketState = Opened | Listening | Pending | Connected

  /** `next` heads the chain of a listener, and links a pending socket to the one behind it. */
  datatype Sock = Sock(
    state: SocketState, bound: bool, backlog: nat, numPending: nat, next: Option<Id>, isConnected: bool)

  /** Where a thread is in unix_socket_accept. */
  datatype Phase = Outside | Looking(listener: Id) | Holding(listener: Id, connector: Id)

  /**
    For each listener, `joined` are the sockets that connected to it, in order,
    and `left` how many accept took off its chain.
  */
  datatype State = State(socks: map<Id, Sock>, threads: map<Id, Phase>, joined: map<Id, seq<Id>>, left: map<Id, nat>)

  const SIZE_LIMIT := 0x1_0000_0000

  /** (size_t)backlog */
  function AsSize(backlog: int): nat
    requires -0x8000_0000 <= backlog < 0x8000_0000
  {
    if backlog < 0 then backlog + SIZE_LIMIT else backlog
  }

  datatype Step =
    | Open(id: Id)
    | Bind(id: Id)
    | Listen(id: Id, backlog: int)
    | Connect(id: Id, listener: Id)
    | Enter(thread: Id, listener: Id)     // accept's first look at the listener
    | Take(thread: Id)                    // accept's section under the listener's lock
    | Finish(thread: Id)                  // accept's section under the connector's lock

  ghost function PhaseOf(s: State, t: Id): Phase {
    if t in s.threads then s.threads[t] else Outside
  }

  ghost predicate Enabled(s: State, e: Step) {
    match e
    case Open(id) => id !in s.socks
    case Bind(id) => id in s.socks
    case Listen(id, backlog) => id in s.socks && -0x8000_0000 <= backlog < 0x8000_0000
    case Connect(id, l) => id in s.socks && l in s.socks
    case Enter(t, l) => l in s.socks && PhaseOf(s, t) == Outside
    case Take(t) => PhaseOf(s, t).Looking? && PhaseOf(s, t).listener in s.socks
    case Finish(t) => PhaseOf(s, t).Holding? && PhaseOf(s, t).connector in s.socks
  }

  ghost function History(s: State, l: Id): seq<Id> {
    if l in s.joined then s.joined[l] else []
  }

  ghost function Left(s: State, l: Id): nat {
    if l in s.left then s.left[l] else 0
  }

  /** The sockets waiting at a listener. */
  ghost function Chain(s: State, l: Id): seq<Id> {
    if Left(s, l) <= |History(s, l)| then History(s, l)[Left(s, l)..] else []
  }

  /** unix_socket_listen accepts the call. */
  predicate CanListen(x: Sock) {
    (x.state == Opened || x.state == Listening) && x.bound
  }

  /** unix_socket_connect goes through: the socket is new, the listener listens and has room. */
  ghost predicate CanConnect(s: State, c: Id, l: Id)
    requires c in s.socks && l in s.socks
  {
    && s.socks[c].state == Opened && s.socks[l].state == Listening
    && s.socks[l].numPending < s.socks[l].backlog
  }

  ghost function WithNext(socks: map<Id, Sock>, i: Id, next: Option<Id>): map<Id, Sock> {
    if i in socks then socks[i := socks[i].(next := next)] else socks
  }

  /** The socket whose `next` is the end of the chain: the listener, or the last one waiting. */
  ghost function Tail(s: State, l: Id): Id {
    var ch := Chain(s, l);
    if ch == [] then l else ch[|ch| - 1]
  }

  /** The links after c was put at the end of l's chain. */
  ghost function Appended(s: State, l: Id, c: Id): map<Id, Sock>
    requires l in s.socks && c in s.socks
  {
    var socks := s.socks[l := s.socks[l].(numPending := s.socks[l].numPending + 1)];
    WithNext(socks[c := socks[c].(state := Pending, next := None)], Tail(s, l), Some(c))
  }

  ghost function Apply(s: State, e: Step): State
    requires Enabled(s, e)
  {
    match e
    case Open(id) =>
      s.(socks := s.socks[id := Sock(Opened, false, 0, 0, None, false)], joined := s.joined[id := []],
        left := s.left[id := 0])
    case Bind(id) => s.(socks := s.socks[id := s.socks[id].(bound := true)])
    case Listen(id, backlog) =>
      if !CanListen(s.socks[id]) then s
      else s.(socks := s.socks[id := s.socks[id].(backlog := AsSize(backlog), state := Listening)])
    case Connect(c, l) =>
      if !CanConnect(s, c, l) then s
      else s.(socks := Appended(s, l, c), joined := s.joined[l := History(s, l) + [c]])
    case Enter(t, l) =>
      if s.socks[l].state != Listening then s else s.(threads := s.threads[t := Looking(l)])
    case Take(t) =>
      var l := PhaseOf(s, t).listener;
      if s.socks[l].next.None? then s
      else
        var c, n := s.socks[l].next.value, s.socks[l].numPending;
        s.(socks := s.socks[l := s.socks[l].(next := if c in s.socks then s.socks[c].next else None,
                                             numPending := if n > 0 then n - 1 else 0)],
           threads := s.threads[t := Holding(l, c)],
           left := s.left[l := Left(s, l) + 1])
    case Finish(t) =>
      var c := PhaseOf(s, t).connector;
      s.(socks := s.socks[c := s.socks[c].(state := Connected, isConnected := true)],
        threads := s.threads[t := Outside])
  }

  // --------------------------------------------------------------------- invariant

  /** Place k of the chain: a pending socket, linked to the one behind it. */
  ghost predicate LinkOk(s: State, ch: seq<Id>, k: nat)
    requires k < |ch|
  {
    ch[k] in s.socks && s.socks[ch[k]].state == Pending
    && s.socks[ch[k]].next == if k + 1 < |ch| then Some(ch[k + 1]) else None
  }

  /** The links spell out the chain, and num_pending is its length. */
  ghost predicate Linked(s: State, l: Id)
    requires l in s.socks
  {
    var ch := Chain(s, l);
    && s.socks[l].numPending == |ch|
    && s.socks[l].next == (if ch == [] then None else Some(ch[0]))
    && (forall k :: 0 <= k < |ch| ==> LinkOk(s, ch, k))
  }

  ghost predicate SockOk(s: State, i: Id)
    requires i in s.socks
  {
    && Left(s, i) <= |History(s, i)|
    && (if s.socks[i].state == Listening then Linked(s, i) else History(s, i) == [])
    && (s.socks[i].state == Opened ==> s.socks[i].numPending == 0 && s.socks[i].next.None?)
    && (s.socks[i].isConnected <==> s.socks[i].state == Connected)
  }

  ghost predicate Entered(s: State, l: Id, k: nat, c: Id) {
    k < |History(s, l)| && History(s, l)[k] == c
  }

  /** A socket joins once: it is in one place of one history, and not open any more. */
  ghost predicate Once(s: State) {
    && (forall c, l, j, m, k :: Entered(s, l, j, c) && Entered(s, m, k, c) ==> l == m && j == k)
    && (forall c, l, j :: Entered(s, l, j, c) ==>
      c in s.socks && (s.socks[c].state == Pending || s.socks[c].state == Connected))
  }

  /** A thread holding a socket took it off the chain, and it is still pending. */
  ghost predicate ThreadOk(s: State, t: Id) {
    match PhaseOf(s, t)
    case Outside => true
    case Looking(l) => l in s.socks && s.socks[l].state == Listening
    case Holding(l, c) =>
      c in s.socks && s.socks[c].state == Pending && exists k: nat :: k < Left(s, l) && Entered(s, l, k, c)
  }

  ghost predicate HeldBy(s: State, t: Id, c: Id) {
    PhaseOf(s, t).Holding? && PhaseOf(s, t).connector == c
  }

  ghost predicate Threads(s: State) {
    && (forall t :: ThreadOk(s, t))
    && (forall t, u, c :: HeldBy(s, t, c) && HeldBy(s, u, c) ==> t == u)
  }

  ghost predicate Inv(s: State) {
    && s.joined.Keys <= s.socks.Keys && s.left.Keys <= s.socks.Keys
    && Once(s) && Threads(s)
    && (forall i :: i in s.socks ==> SockOk(s, i))
  }

  lemma SockAt(s: State, i: Id)
    requires Inv(s) && i in s.socks
    ensures SockOk(s, i) && Once(s) && Threads(s) && s.joined.Keys <= s.socks.Keys && s.left.Keys <= s.socks.Keys
  {
  }

  lemma LeftBound(s: State, l: Id)
    requires Inv(s)
    ensures Left(s, l) <= |History(s, l)|
  {
    if l in s.socks { assert SockOk(s, l); }
  }

  lemma InvIs(s: State)
    requires s.joined.Keys <= s.socks.Keys && s.left.Keys <= s.socks.Keys && Once(s) && Threads(s)
    requires forall i :: i in s.socks ==> SockOk(s, i)
    ensures Inv(s)
  {
  }

  // ------------------------------------------------------------------ connecting

  lemma ChainAt(s: State, l: Id, k: nat)
    requires k < |Chain(s, l)|
    ensures Entered(s, l, Left(s, l) + k, Chain(s, l)[k])
  {
  }

  /** A socket that joined is not open any more, and not listening. */
  lemma JoinedState(s: State, l: Id, k: nat, c: Id)
    requires Once(s) && Entered(s, l, k, c)
    ensures c in s.socks && (s.socks[c].state == Pending || s.socks[c].state == Connected)
  {
  }

  /** It is in one place only. */
  lemma JoinedOnce(s: State, c: Id, l: Id, j: nat, m: Id, k: nat)
    requires Once(s) && Entered(s, l, j, c) && Entered(s, m, k, c)
    ensures l == m && j == k
  {
  }

  /** The records that change when c joins l: c's, l's, and that of the end of l's chain. */
  lemma ConnectKeeps(s: State, s': State, c: Id, l: Id, i: Id)
    requires c in s.socks && l in s.socks && CanConnect(s, c, l) && s' == Apply(s, Connect(c, l))
    requires i in s.socks && i != c && i != l && i != Tail(s, l)
    ensures i in s'.socks && s'.socks[i] == s.socks[i]
  {
    hide Tail;
  }

  /** The end of l's chain is in no other chain, nor does it listen. */
  lemma TailElsewhere(s: State, l: Id, i: Id, k: nat)
    requires Once(s) && k < |Chain(s, i)| && i != l && l in s.socks && s.socks[l].state == Listening
    ensures Chain(s, i)[k] != Tail(s, l) && Chain(s, i)[k] != l
  {
    hide Once, Chain;
    ChainAt(s, i, k);
    JoinedState(s, i, Left(s, i) + k, Chain(s, i)[k]);
    if Chain(s, l) != [] && Chain(s, i)[k] == Tail(s, l) {
      ChainAt(s, l, |Chain(s, l)| - 1);
      JoinedOnce(s, Tail(s, l), i, Left(s, i) + k, l, Left(s, l) + |Chain(s, l)| - 1);
    }
  }

  /** Sockets waiting elsewhere are not touched when c joins l. */
  lemma ConnectOther(s: State, s': State, c: Id, l: Id, i: Id)
    requires Inv(s) && c in s.socks && l in s.socks && CanConnect(s, c, l) && i in s.socks && i != l && i != c
    requires s' == Apply(s, Connect(c, l)) && i != Tail(s, l)
    ensures i in s'.socks && SockOk(s', i)
  {
    hide Inv, Once, Threads, Chain, SockOk, Tail, Apply;
    SockAt(s, i);
    ConnectKeeps(s, s', c, l, i);
    ConnectHistory(s, s', c, l, i);
    ChainPending(s, i);
    forall k | 0 <= k < |Chain(s, i)| ensures KeptLinks(s, s', Chain(s, i)[k]) {
      TailElsewhere(s, l, i, k);
      ConnectKeeps(s, s', c, l, Chain(s, i)[k]);
    }
    KeptSock(s, s', i);
  }

  lemma ConnectHistory(s: State, s': State, c: Id, l: Id, i: Id)
    requires c in s.socks && l in s.socks && CanConnect(s, c, l) && s' == Apply(s, Connect(c, l)) && i != l
    ensures History(s', i) == History(s, i) && Left(s', i) == Left(s, i)
  {
  }

  lemma ChainDistinct(s: State, l: Id, j: nat, k: nat)
    requires Once(s) && j < |Chain(s, l)| && k < |Chain(s, l)| && Chain(s, l)[j] == Chain(s, l)[k]
    ensures j == k
  {
    ChainAt(s, l, j);
    ChainAt(s, l, k);
  }

  /** The end of l's chain: l itself, or a pending socket. */
  lemma TailOf(s: State, l: Id)
    requires l in s.socks && SockOk(s, l) && s.socks[l].state == Listening
    ensures Tail(s, l) in s.socks && (Chain(s, l) == [] <==> Tail(s, l) == l)
    ensures Chain(s, l) != [] ==> s.socks[Tail(s, l)].state == Pending
  {
    if Chain(s, l) != [] { assert LinkOk(s, Chain(s, l), |Chain(s, l)| - 1); }
  }

  /** The records after c was put at the end of l's chain. */
  lemma AppendedRecords(s: State, l: Id, c: Id)
    requires l in s.socks && c in s.socks && l != c && Tail(s, l) in s.socks && Tail(s, l) != c
    ensures var a, last := Appended(s, l, c), Tail(s, l);
      && a.Keys == s.socks.Keys && a[c] == s.socks[c].(state := Pending, next := None)
      && a[l] == s.socks[l].(numPending := s.socks[l].numPending + 1,
                             next := if last == l then Some(c) else s.socks[l].next)
      && (last != l ==> a[last] == s.socks[last].(next := Some(c)))
  {
    hide Tail;
  }

  lemma ConnectRecords(s: State, s': State, c: Id, l: Id)
    requires Inv(s) && c in s.socks && l in s.socks && CanConnect(s, c, l) && s' == Apply(s, Connect(c, l))
    ensures s'.socks == Appended(s, l, c) && s'.joined == s.joined[l := History(s, l) + [c]] && s'.left == s.left
    ensures SockOk(s, c) && SockOk(s, l) && c != l && Tail(s, l) in s.socks && Tail(s, l) != c
    ensures Chain(s, l) == [] <==> Tail(s, l) == l
    ensures Chain(s, l) != [] ==> s.socks[Tail(s, l)].state == Pending
  {
    hide Inv, Once, Threads, Appended;
    SockAt(s, c);
    SockAt(s, l);
    hide SockOk, Chain, Tail;
    TailOf(s, l);
  }

  lemma ConnectLink(s: State, s': State, c: Id, l: Id, k: nat)
    requires c in s.socks && l in s.socks && c != l && s'.socks == Appended(s, l, c)
    requires Tail(s, l) in s.socks && Tail(s, l) != c && Tail(s, l) != l
    requires var ch := Chain(s, l); k < |ch| && LinkOk(s, ch, k) && ch[k] != c && ch[k] != l
    requires Chain(s, l)[k] == Tail(s, l) <==> k + 1 == |Chain(s, l)|
    ensures LinkOk(s', Chain(s, l) + [c], k)
  {
    var ch := Chain(s, l);
    assert (ch + [c])[k] == ch[k] && (ch + [c])[k + 1] == if k + 1 == |ch| then c else ch[k + 1];
    AppendedRecords(s, l, c);
    hide Chain, Tail;
    if k + 1 < |ch| { AppendedKeeps(s, l, c, ch[k]); }
    hide Appended;
  }

  lemma AppendedKeeps(s: State, l: Id, c: Id, i: Id)
    requires l in s.socks && c in s.socks && i in s.socks && i != c && i != l && i != Tail(s, l)
    ensures i in Appended(s, l, c) && Appended(s, l, c)[i] == s.socks[i]
  {
    hide Tail;
  }

  lemma ConnectListener(s: State, s': State, c: Id, l: Id)
    requires Inv(s) && c in s.socks && l in s.socks && CanConnect(s, c, l)
    requires s' == Apply(s, Connect(c, l))
    ensures l in s'.socks && SockOk(s', l) && Chain(s', l) == Chain(s, l) + [c]
  {
    hide Inv, Once, Threads, Apply, Appended, Tail;
    ConnectRecords(s, s', c, l);
    AppendedRecords(s, l, c);
    SockAt(s, l);
    var ch := Chain(s, l);
    assert Chain(s', l) == ch + [c];
    ChainPending(s, l);
    forall k | 0 <= k < |ch| ensures LinkOk(s', ch + [c], k) {
      assert LinkOk(s, ch, k);
      TailIsLast(s, l, k);
      ConnectLink(s, s', c, l, k);
    }
    assert LinkOk(s', ch + [c], |ch|) by { assert (ch + [c])[|ch|] == c; }
    assert (ch + [c])[0] == if ch == [] then c else ch[0];
  }

  lemma TailIsLast(s: State, l: Id, k: nat)
    requires Once(s) && k < |Chain(s, l)|
    ensures Chain(s, l)[k] == Tail(s, l) <==> k + 1 == |Chain(s, l)|
  {
    hide Once;
    if Chain(s, l)[k] == Tail(s, l) { ChainDistinct(s, l, k, |Chain(s, l)| - 1); }
  }

  /** The socket that joined is in its new place, and in no other. */
  lemma ConnectOnce(s: State, s': State, c: Id, l: Id)
    requires Inv(s) && c in s.socks && l in s.socks && CanConnect(s, c, l)
    requires s' == Apply(s, Connect(c, l))
    ensures Once(s')
  {
    hide Inv, Threads, SockOk;
    SockAt(s, l);
    forall d, m, k: nat
      ensures Entered(s', m, k, d) <==> Entered(s, m, k, d) || (m == l && k == |History(s, l)| && d == c)
    {
    }
  }

  lemma ConnectThreads(s: State, s': State, c: Id, l: Id)
    requires Inv(s) && c in s.socks && l in s.socks && CanConnect(s, c, l)
    requires s' == Apply(s, Connect(c, l))
    ensures Threads(s')
  {
    hide Inv, Once, SockOk;
    SockAt(s, l);
    forall t ensures ThreadOk(s', t) {
      assert ThreadOk(s, t);
      if PhaseOf(s, t).Holding? {
        var m, d := PhaseOf(s, t).listener, PhaseOf(s, t).connector;
        var k: nat :| k < Left(s, m) && Entered(s, m, k, d);
        assert Entered(s', m, k, d) && d != c && d != l;
      }
    }
    forall t, d ensures HeldBy(s', t, d) <==> HeldBy(s, t, d) {}
  }

  lemma ConnectInv(s: State, c: Id, l: Id)
    requires Inv(s) && c in s.socks && l in s.socks && CanConnect(s, c, l)
    ensures Inv(Apply(s, Connect(c, l)))
  {
    hide Inv, Once, Threads, SockOk, Apply, Tail;
    var s' := Apply(s, Connect(c, l));
    ConnectListener(s, s', c, l);
    ConnectOnce(s, s', c, l);
    ConnectThreads(s, s', c, l);
    ConnectNew(s, s', c, l);
    forall i | i in s'.socks ensures SockOk(s', i) {
      if i != l && i != c && i != Tail(s, l) { ConnectOther(s, s', c, l, i); }
    }
    InvIs(s');
  }

  /** A pending socket has no chain of its own. */
  lemma PendingOk(s: State, i: Id)
    requires i in s.socks && s.socks[i].state == Pending && !s.socks[i].isConnected && History(s, i) == []
    requires Left(s, i) == 0
    ensures SockOk(s, i)
  {
  }

  /** The new socket and the one before it. */
  lemma ConnectNew(s: State, s': State, c: Id, l: Id)
    requires Inv(s) && c in s.socks && l in s.socks && CanConnect(s, c, l)
    requires s' == Apply(s, Connect(c, l))
    ensures s'.socks.Keys == s.socks.Keys && s'.joined.Keys <= s.socks.Keys && s'.left.Keys <= s.socks.Keys
    ensures SockOk(s', c) && Tail(s, l) in s'.socks && (Tail(s, l) != l ==> SockOk(s', Tail(s, l)))
  {
    hide Inv, Once, Threads, Apply, Appended, Tail, Chain, Linked;
    ConnectRecords(s, s', c, l);
    AppendedRecords(s, l, c);
    SockAt(s, c);
    PendingOk(s', c);
    if Tail(s, l) != l {
      SockAt(s, Tail(s, l));
      PendingOk(s', Tail(s, l));
    }
  }

  // -------------------------------------------------------------------- accepting

  /** The sockets a step leaves alone, where one socket's record changed. */
  ghost predicate SameLinks(x: Sock, y: Sock) {
    x.state == y.state && x.next == y.next && x.numPending == y.numPending && x.isConnected == y.isConnected
  }

  ghost predicate KeptLinks(s: State, s': State, c: Id) {
    c in s.socks && c in s'.socks && SameLinks(s.socks[c], s'.socks[c])
  }

  /** A socket whose chain and chain's records did not change is as before. */
  lemma KeptSock(s: State, s': State, i: Id)
    requires i in s.socks && SockOk(s, i) && i in s'.socks && SameLinks(s.socks[i], s'.socks[i])
    requires History(s', i) == History(s, i) && Left(s', i) == Left(s, i)
    requires forall k :: 0 <= k < |Chain(s, i)| ==> KeptLinks(s, s', Chain(s, i)[k])
    ensures SockOk(s', i)
  {
    assert Chain(s', i) == Chain(s, i);
    if s.socks[i].state == Listening {
      forall k | 0 <= k < |Chain(s, i)| ensures LinkOk(s', Chain(s, i), k) { assert LinkOk(s, Chain(s, i), k); }
    }
  }

  /** The links behind the head are as before. */
  lemma TakeLink(s: State, s': State, l: Id, ch: seq<Id>, k: nat)
    requires k + 1 < |ch| && LinkOk(s, ch, k + 1) && ch[k + 1] != l
    requires ch[k + 1] in s'.socks && s'.socks[ch[k + 1]] == s.socks[ch[k + 1]]
    ensures LinkOk(s', ch[1..], k)
  {
    assert ch[1..][k] == ch[k + 1] && (k + 2 < |ch| ==> ch[1..][k + 1] == ch[k + 2]);
  }

  lemma TakeSocks(s: State, s': State, t: Id)
    requires Inv(s) && Enabled(s, Take(t)) && s.socks[PhaseOf(s, t).listener].next.Some? && s' == Apply(s, Take(t))
    ensures s'.socks.Keys == s.socks.Keys && forall i :: i in s'.socks ==> SockOk(s', i)
  {
    hide Inv, Once, Threads;
    var l := PhaseOf(s, t).listener;
    ListenerLinked(s, t);
    var ch := Chain(s, l);
    assert LinkOk(s, ch, 0);
    assert Chain(s', l) == ch[1..];
    forall k | 0 <= k < |ch| - 1 ensures LinkOk(s', ch[1..], k) {
      assert LinkOk(s, ch, k + 1);
      TakeLink(s, s', l, ch, k);
    }
    assert SockOk(s', l);
    forall i | i in s'.socks && i != l ensures SockOk(s', i) {
      SockAt(s, i);
      ChainPending(s, i);
      KeptSock(s, s', i);
    }
  }

  lemma ListenerLinked(s: State, t: Id)
    requires Inv(s) && PhaseOf(s, t).Looking?
    ensures var l := PhaseOf(s, t).listener; l in s.socks && s.socks[l].state == Listening && SockOk(s, l)
  {
    assert ThreadOk(s, t);
  }

  lemma ChainPending(s: State, i: Id)
    requires i in s.socks && SockOk(s, i)
    ensures forall k :: 0 <= k < |Chain(s, i)| ==> Chain(s, i)[k] in s.socks && s.socks[Chain(s, i)[k]].state == Pending
  {
    forall k | 0 <= k < |Chain(s, i)| ensures Chain(s, i)[k] in s.socks && s.socks[Chain(s, i)[k]].state == Pending {
      assert LinkOk(s, Chain(s, i), k);
    }
  }

  /** The socket taken off the chain is held by the thread that took it, and by no other. */
  lemma TakeThreads(s: State, s': State, t: Id)
    requires Inv(s) && Enabled(s, Take(t)) && s.socks[PhaseOf(s, t).listener].next.Some? && s' == Apply(s, Take(t))
    ensures Threads(s') && Once(s')
  {
    hide Inv, SockOk, Linked;
    var l := PhaseOf(s, t).listener;
    var c := s.socks[l].next.value;
    TakenNext(s, t);
    SockAt(s, l);
    forall d, m, k: nat ensures Entered(s', m, k, d) <==> Entered(s, m, k, d) {}
    forall u ensures ThreadOk(s', u) {
      assert ThreadOk(s, u);
      if u == t {
        assert Entered(s', l, Left(s, l), c);
      } else if PhaseOf(s, u).Holding? {
        var m, d := PhaseOf(s, u).listener, PhaseOf(s, u).connector;
        var k: nat :| k < Left(s, m) && Entered(s, m, k, d);
        assert Entered(s', m, k, d);
      }
    }
    forall u ensures HeldBy(s, u, c) ==> u == t {
      assert ThreadOk(s, u);
    }
    forall u, d ensures HeldBy(s', u, d) <==> (if u == t then d == c else HeldBy(s, u, d)) {}
  }

  lemma TakenNext(s: State, t: Id)
    requires Inv(s) && Enabled(s, Take(t)) && s.socks[PhaseOf(s, t).listener].next.Some?
    ensures var l := PhaseOf(s, t).listener;
      var c := s.socks[l].next.value;
      && c in s.socks && s.socks[c].state == Pending && c != l && s.socks[l].numPending > 0
      && Entered(s, l, Left(s, l), c)
  {
    ListenerLinked(s, t);
    var l := PhaseOf(s, t).listener;
    assert LinkOk(s, Chain(s, l), 0);
    ChainAt(s, l, 0);
  }

  lemma TakeInv(s: State, t: Id)
    requires Inv(s) && Enabled(s, Take(t))
    ensures Inv(Apply(s, Take(t)))
  {
    if s.socks[PhaseOf(s, t).listener].next.Some? {
      var s' := Apply(s, Take(t));
      TakeSocks(s, s', t);
      TakeThreads(s, s', t);
      hide Once, Threads, SockOk;
      InvIs(s');
    }
  }

  /** The assertion in accept: the socket taken off the chain is pending until its taker connects it. */
  lemma PendingAssertion(s: State, t: Id)
    requires Inv(s) && PhaseOf(s, t).Holding?
    ensures PhaseOf(s, t).connector in s.socks && s.socks[PhaseOf(s, t).connector].state == Pending
  {
    assert ThreadOk(s, t);
  }

  lemma FinishInv(s: State, t: Id)
    requires Inv(s) && Enabled(s, Finish(t))
    ensures Inv(Apply(s, Finish(t)))
  {
    var s', c := Apply(s, Finish(t)), PhaseOf(s, t).connector;
    FinishThreads(s, s', t);
    PendingAssertion(s, t);
    hide Once, Threads, Inv;
    forall i | i in s'.socks ensures SockOk(s', i) {
      SockAt(s, i);
      if i != c {
        ChainPending(s, i);
        forall k | 0 <= k < |Chain(s, i)| ensures Chain(s, i)[k] != c { HeldNotWaiting(s, t, i, k); }
        KeptSock(s, s', i);
      }
    }
    SockAt(s, c);
    InvIs(s');
  }

  lemma HeldNotWaiting(s: State, t: Id, l: Id, k: nat)
    requires Inv(s) && PhaseOf(s, t).Holding? && k < |Chain(s, l)|
    ensures Chain(s, l)[k] != PhaseOf(s, t).connector
  {
    assert ThreadOk(s, t);
    ChainAt(s, l, k);
  }

  lemma FinishThreads(s: State, s': State, t: Id)
    requires Inv(s) && Enabled(s, Finish(t)) && s' == Apply(s, Finish(t))
    ensures Threads(s') && Once(s')
  {
    hide Inv, SockOk;
    var c := PhaseOf(s, t).connector;
    SockAt(s, c);
    forall d, m, k: nat ensures Entered(s', m, k, d) <==> Entered(s, m, k, d) {}
    assert ThreadOk(s, t) && HeldBy(s, t, c);
    forall u ensures ThreadOk(s', u) {
      assert ThreadOk(s, u);
      if u != t && PhaseOf(s, u).Holding? {
        var m, d := PhaseOf(s, u).listener, PhaseOf(s, u).connector;
        assert HeldBy(s, u, d) && d != c && PhaseOf(s', u) == PhaseOf(s, u);
        var k: nat :| k < Left(s, m) && Entered(s, m, k, d);
        assert Entered(s', m, k, d);
      }
    }
    forall u, d ensures HeldBy(s', u, d) <==> u != t && HeldBy(s, u, d) {}
  }

  // ----------------------------------------------------------------- the other steps

  /** Nobody joins or leaves, and sockets that joined or listen go on being pending, connected or listening. */
  ghost predicate Steady(s: State, s': State) {
    && (forall m :: History(s', m) == History(s, m) && Left(s', m) == Left(s, m))
    && (forall i :: i in s.socks ==>
      i in s'.socks && (s.socks[i].state != Opened ==> s'.socks[i].state == s.socks[i].state))
    && (forall t :: PhaseOf(s', t) == PhaseOf(s, t) || (PhaseOf(s', t).Looking? && ThreadOk(s', t)))
  }

  lemma SteadyOnce(s: State, s': State)
    requires Once(s) && Steady(s, s')
    ensures Once(s')
  {
    forall d, m, k: nat ensures Entered(s', m, k, d) <==> Entered(s, m, k, d) {}
  }

  lemma SteadyThread(s: State, s': State, t: Id)
    requires ThreadOk(s, t) && Steady(s, s')
    ensures ThreadOk(s', t)
  {
    if PhaseOf(s', t) == PhaseOf(s, t) && PhaseOf(s, t).Holding? {
      var m, d := PhaseOf(s, t).listener, PhaseOf(s, t).connector;
      var k: nat :| k < Left(s, m) && Entered(s, m, k, d);
      assert Entered(s', m, k, d);
    }
  }

  lemma SteadyThreads(s: State, s': State)
    requires Threads(s) && Steady(s, s')
    ensures Threads(s')
  {
    forall t ensures ThreadOk(s', t) { SteadyThread(s, s', t); }
    forall t, d ensures HeldBy(s', t, d) ==> HeldBy(s, t, d) {}
  }

  /** A socket whose own record kept its links is as before, if the sockets that wait at it kept theirs. */
  lemma SteadySock(s: State, s': State, i: Id)
    requires Steady(s, s') && i in s.socks && SockOk(s, i) && KeptLinks(s, s', i)
    requires forall j :: j in s.socks && s.socks[j].state == Pending ==> KeptLinks(s, s', j)
    ensures i in s'.socks && SockOk(s', i)
  {
    hide SockOk, Chain;
    ChainPending(s, i);
    KeptSock(s, s', i);
  }

  /** Steps that change only sockets' other fields, or a thread that holds nothing. */
  lemma KeptInv(s: State, s': State)
    requires Inv(s) && Steady(s, s') && s'.joined == s.joined && s'.left == s.left && s'.socks.Keys == s.socks.Keys
    requires forall i :: i in s.socks ==> KeptLinks(s, s', i)
    ensures Inv(s')
  {
    hide Once, Threads, SockOk, Steady;
    SteadyOnce(s, s');
    SteadyThreads(s, s');
    forall i | i in s'.socks ensures SockOk(s', i) { SteadySock(s, s', i); }
  }

  lemma OpenInv(s: State, id: Id)
    requires Inv(s) && id !in s.socks
    ensures Inv(Apply(s, Open(id)))
  {
    hide Once, Threads, SockOk;
    var s' := Apply(s, Open(id));
    assert Steady(s, s') && History(s', id) == [] && Left(s', id) == 0;
    hide Steady;
    SteadyOnce(s, s');
    SteadyThreads(s, s');
    NewOk(s', id);
    forall i | i in s'.socks ensures SockOk(s', i) {
      if i != id { SteadySock(s, s', i); }
    }
  }

  /** A socket nobody joined, with nothing pending. */
  lemma NewOk(s: State, i: Id)
    requires i in s.socks && (s.socks[i].state == Opened || s.socks[i].state == Listening)
    requires s.socks[i].numPending == 0 && s.socks[i].next.None? && !s.socks[i].isConnected
    requires History(s, i) == [] && Left(s, i) == 0
    ensures SockOk(s, i)
  {
    assert Chain(s, i) == [];
  }

  lemma NowListening(s: State, s': State, id: Id, backlog: nat)
    requires Inv(s) && id in s.socks && s.socks[id].state == Opened
    requires s' == s.(socks := s.socks[id := s.socks[id].(backlog := backlog, state := Listening)])
    ensures Inv(s')
  {
    hide Once, Threads, Linked;
    assert SockOk(s, id);
    assert Steady(s, s') && Left(s', id) == 0;
    NewOk(s', id);
    hide Steady, SockOk;
    SteadyOnce(s, s');
    SteadyThreads(s, s');
    forall i | i in s'.socks ensures SockOk(s', i) {
      if i != id { SteadySock(s, s', i); }
    }
  }

  /** A socket that starts to listen has nobody waiting. */
  lemma ListenInv(s: State, id: Id, backlog: int)
    requires Inv(s) && Enabled(s, Listen(id, backlog))
    ensures Inv(Apply(s, Listen(id, backlog)))
  {
    hide Inv;
    var s' := Apply(s, Listen(id, backlog));
    if CanListen(s.socks[id]) {
      if s.socks[id].state == Listening { KeptInv(s, s'); }
      else { NowListening(s, s', id, AsSize(backlog)); }
    }
  }

  lemma StepInv(s: State, e: Step)
    requires Inv(s) && Enabled(s, e)
    ensures Inv(Apply(s, e))
  {
    hide Inv, Appended;
    match e
    case Open(id) => OpenInv(s, id);
    case Bind(id) => KeptInv(s, Apply(s, e));
    case Listen(id, backlog) => ListenInv(s, id, backlog);
    case Connect(c, l) => if CanConnect(s, c, l) { ConnectInv(s, c, l); }
    case Enter(t, l) => if s.socks[l].state == Listening { KeptInv(s, Apply(s, e)); }
    case Take(t) => TakeInv(s, t);
    case Finish(t) => FinishInv(s, t);
  }

  // ------------------------------------------------------------------- whole runs

  ghost predicate IsRun(s: State, es: seq<Step>)
    decreases |es|
  {
    es == [] || (Enabled(s, es[0]) && IsRun(Apply(s, es[0]), es[1..]))
  }

  ghost function After(s: State, es: seq<Step>): State
    requires IsRun(s, es)
    decreases |es|
  {
    if es == [] then s else After(Apply(s, es[0]), es[1..])
  }

  lemma {:induction false} RunInv(s: State, es: seq<Step>)
    requires Inv(s) && IsRun(s, es)
    ensures Inv(After(s, es))
    decreases |es|
  {
    hide Inv, Enabled, Apply;
    if es != [] {
      StepInv(s, es[0]);
      RunInv(Apply(s, es[0]), es[1..]);
    }
  }

  ghost function Start(): State { State(map[], map[], map[], map[]) }

  /** Socket c is in the chain of listener l. */
  ghost predicate WaitsAt(s: State, l: Id, c: Id) {
    l in s.socks && s.socks[l].state == Listening && c in Chain(s, l)
  }

  /**
    In every interleaving of listen, connect and accept: a listener's num_pending
    is the length of its chain; the sockets that left it are the first that
    joined, in the order in which they joined; no socket joined twice.
  */
  lemma ChainCorrect(es: seq<Step>, l: Id)
    requires IsRun(Start(), es)
    ensures var s := After(Start(), es);
      && (l in s.socks && s.socks[l].state == Listening ==> s.socks[l].numPending == |Chain(s, l)| && Linked(s, l))
      && Left(s, l) <= |History(s, l)| && History(s, l) == History(s, l)[..Left(s, l)] + Chain(s, l)
      && (forall j, k :: 0 <= j < k < |History(s, l)| ==> History(s, l)[j] != History(s, l)[k])
  {
    hide Inv, IsRun, After, Chain, Linked;
    StartInv();
    RunInv(Start(), es);
    ChainFacts(After(Start(), es), l);
    NoneTwice(After(Start(), es), l);
  }

  lemma StartInv()
    ensures Inv(Start())
  {
  }

  lemma ChainFacts(s: State, l: Id)
    requires Inv(s)
    ensures l in s.socks && s.socks[l].state == Listening ==> s.socks[l].numPending == |Chain(s, l)| && Linked(s, l)
    ensures Left(s, l) <= |History(s, l)| && History(s, l) == History(s, l)[..Left(s, l)] + Chain(s, l)
  {
    hide Inv, Once, Threads;
    LeftBound(s, l);
    if l in s.socks { SockAt(s, l); }
  }

  lemma NoneTwice(s: State, l: Id)
    requires Inv(s)
    ensures forall j, k :: 0 <= j < k < |History(s, l)| ==> History(s, l)[j] != History(s, l)[k]
  {
    hide SockOk, Threads;
    forall j: nat, k: nat | j < k < |History(s, l)| ensures History(s, l)[j] != History(s, l)[k] {
      assert Entered(s, l, j, History(s, l)[j]) && Entered(s, l, k, History(s, l)[k]);
    }
  }

  /**
    A socket is in at most one chain, and one that accept took off is in none,
    held by one thread, and still pending.
  */
  lemma HeldCorrect(es: seq<Step>, l: Id, m: Id, c: Id, t: Id, u: Id)
    requires IsRun(Start(), es)
    ensures var s := After(Start(), es);
      && (WaitsAt(s, l, c) && WaitsAt(s, m, c) ==> l == m)
      && (HeldBy(s, t, c) ==> c in s.socks && s.socks[c].state == Pending && !WaitsAt(s, l, c))
      && (HeldBy(s, t, c) && HeldBy(s, u, c) ==> t == u)
  {
    hide Linked, SockOk, IsRun, After;
    var s := After(Start(), es);
    StartInv();
    RunInv(Start(), es);
    if WaitsAt(s, l, c) {
      var j: nat :| j < |Chain(s, l)| && Chain(s, l)[j] == c;
      ChainAt(s, l, j);
      if WaitsAt(s, m, c) {
        var k: nat :| k < |Chain(s, m)| && Chain(s, m)[k] == c;
        ChainAt(s, m, k);
      }
    }
    if HeldBy(s, t, c) {
      PendingAssertion(s, t);
      forall k: nat | k < |Chain(s, l)| ensures Chain(s, l)[k] != c { HeldNotWaiting(s, t, l, k); }
    }
  }

  /**
    What a step does to a chain: connect puts a new socket at its end exactly if
    fewer than the backlog are waiting, accept takes off its head exactly if
    there is one, and nothing else changes it.
  */
  lemma ChainSteps(s: State, e: Step, l: Id)
    requires Inv(s) && Enabled(s, e) && l in s.socks && s.socks[l].state == Listening
    ensures var ch, ch' := Chain(s, l), Chain(Apply(s, e), l);
      if e.Connect? && e.listener == l then
        ch' == if s.socks[e.id].state == Opened && |ch| < s.socks[l].backlog then ch + [e.id] else ch
      else if e.Take? && PhaseOf(s, e.thread).listener == l && ch != [] then
        ch' == ch[1..] && PhaseOf(Apply(s, e), e.thread) == Holding(l, ch[0])
      else ch' == ch
  {
    hide Inv, SockOk, Linked, Appended, Chain, Apply, CanConnect;
    ChainFacts(s, l);
    TakeMeets(s, l);
    if e.Connect? && e.listener == l && CanConnect(s, e.id, l) {
      ConnectListener(s, Apply(s, e), e.id, l);
    } else if e.Take? && PhaseOf(s, e.thread).listener == l && s.socks[l].next.Some? {
      TakeChain(s, e.thread);
    } else {
      SameHistory(s, e, l);
      SameChain(s, Apply(s, e), l);
    }
    if e.Connect? && e.listener == l { ConnectRoom(s, e.id, l); }
  }

  lemma ConnectRoom(s: State, c: Id, l: Id)
    requires Inv(s) && c in s.socks && l in s.socks && s.socks[l].state == Listening
    ensures CanConnect(s, c, l) <==> s.socks[c].state == Opened && |Chain(s, l)| < s.socks[l].backlog
  {
    hide Inv, Chain;
    ChainFacts(s, l);
  }

  lemma SameHistory(s: State, e: Step, l: Id)
    requires Inv(s) && Enabled(s, e) && l in s.socks
    requires e.Connect? && e.listener == l ==> !CanConnect(s, e.id, l)
    requires e.Take? && PhaseOf(s, e.thread).listener == l ==> s.socks[l].next.None?
    ensures History(Apply(s, e), l) == History(s, l) && Left(Apply(s, e), l) == Left(s, l)
  {
    hide Inv, Appended;
  }

  /** The listener's own link says whether anybody waits. */
  lemma TakeMeets(s: State, l: Id)
    requires Inv(s) && l in s.socks && s.socks[l].state == Listening
    ensures s.socks[l].next.None? <==> Chain(s, l) == []
  {
    SockAt(s, l);
  }

  lemma {:induction false} HoldsOn(s: State, es: seq<Step>, t: Id)
    requires Inv(s) && IsRun(s, es) && PhaseOf(s, t).Holding? && Finish(t) !in es
    ensures PhaseOf(After(s, es), t) == PhaseOf(s, t)
    decreases |es|
  {
    hide Inv;
    if es != [] {
      assert es[0] != Finish(t);
      StepInv(s, es[0]);
      HoldsOn(Apply(s, es[0]), es[1..], t);
    }
  }

  ghost predicate IsConnected(s: State, c: Id) {
    c in s.socks && s.socks[c].state == Connected && s.socks[c].isConnected
  }

  /** The socket that accept took off a chain is the one it connects, whatever comes between. */
  lemma AcceptConnects(s: State, t: Id, es: seq<Step>)
    requires Inv(s) && PhaseOf(s, t).Holding? && IsRun(s, es) && Finish(t) !in es
    ensures var r := After(s, es);
      Enabled(r, Finish(t)) && IsConnected(Apply(r, Finish(t)), PhaseOf(s, t).connector)
  {
    hide Inv, IsRun, After;
    HoldsOn(s, es, t);
    RunInv(s, es);
    PendingAssertion(After(s, es), t);
  }

  lemma SameChain(s: State, s': State, l: Id)
    requires History(s', l) == History(s, l) && Left(s', l) == Left(s, l)
    ensures Chain(s', l) == Chain(s, l)
  {
  }

  lemma TakeChain(s: State, t: Id)
    requires Inv(s) && Enabled(s, Take(t)) && s.socks[PhaseOf(s, t).listener].next.Some?
    ensures var l, s' := PhaseOf(s, t).listener, Apply(s, Take(t));
      && Chain(s, l) != [] && Chain(s', l) == Chain(s, l)[1..]
      && s.socks[l].next.value == Chain(s, l)[0] && PhaseOf(s', t) == Holding(l, Chain(s, l)[0])
  {
    hide Inv;
    ListenerLinked(s, t);
  }

  // ------------------------------------------------------------------- the code

  datatype Errno = EINVAL | EISCONN | ECONNREFUSED

  class Sockets {
    var socks: map<Id, Sock>
    var threads: map<Id, Phase>
    ghost var joined: map<Id, seq<Id>>
    ghost var left: map<Id, nat>

    ghost function Now(): State reads this { State(socks, threads, joined, left) }

    constructor ()
      ensures Now() == Start() && Inv(Now())
    {
      socks, threads, joined, left := map[], map[], map[], map[];
    }

    /** unix_socket_listen */
    method Listen(id: Id, backlog: int) returns (r: Option<Errno>)
      requires Inv(Now()) && Enabled(Now(), Step.Listen(id, backlog))
      modifies this
      ensures Inv(Now()) && Now() == Apply(old(Now()), Step.Listen(id, backlog))
      ensures r == if CanListen(old(socks[id])) then None else Some(EINVAL)
    {
      hide Inv;
      StepInv(Now(), Step.Listen(id, backlog));
      if socks[id].state != Opened && socks[id].state != Listening { return Some(EINVAL); }
      if !socks[id].bound { return Some(EINVAL); }
      socks := socks[id := socks[id].(backlog := AsSize(backlog))];
      if socks[id].state == Opened { socks := socks[id := socks[id].(state := Listening)]; }
      assert socks == Apply(old(Now()), Step.Listen(id, backlog)).socks;
      r := None;
    }

    /** The walk to the end of a chain that is not empty. */
    method LastWaiting(l: Id) returns (it: Id)
      requires l in socks && socks[l].state == Listening && SockOk(Now(), l) && Chain(Now(), l) != []
      ensures it in socks && it == Tail(Now(), l)
    {
      ghost var ch, k := Chain(Now(), l), 0;
      it := socks[l].next.value;
      assert LinkOk(Now(), ch, 0);
      while socks[it].next.Some?
        invariant 0 <= k < |ch| && it == ch[k] && LinkOk(Now(), ch, k)
        decreases |ch| - k
      {
        it := socks[it].next.value;
        k := k + 1;
        assert LinkOk(Now(), ch, k);
      }
    }

    /** unix_socket_connect, up to where it waits. */
    method Connect(c: Id, l: Id) returns (r: Option<Errno>)
      requires Inv(Now()) && c in socks && l in socks
      modifies this
      ensures Inv(Now()) && Now() == Apply(old(Now()), Step.Connect(c, l))
      ensures r.None? <==> CanConnect(old(Now()), c, l)
      ensures r == Some(EINVAL) <==> old(socks[c]).state == Listening
      ensures r == Some(EISCONN) <==> old(socks[c]).state in {Pending, Connected}
    {
      hide Inv, Once, Threads;
      StepInv(Now(), Step.Connect(c, l));
      SockAt(Now(), l);
      if socks[c].state == Listening { return Some(EINVAL); }
      if socks[c].state == Pending || socks[c].state == Connected { return Some(EISCONN); }
      if socks[l].state != Listening || socks[l].numPending >= socks[l].backlog { return Some(ECONNREFUSED); }
      ghost var s := Now();
      ChainPending(s, l);
      var last := l;
      if socks[l].next.Some? { last := LastWaiting(l); }
      socks := socks[l := socks[l].(numPending := socks[l].numPending + 1)];
      socks := socks[c := socks[c].(state := Pending, next := None)];
      socks := socks[last := socks[last].(next := Some(c))];
      joined := joined[l := History(s, l) + [c]];
      assert socks == Appended(s, l, c);
      r := None;
    }

    /** accept's section under the listener's lock: nothing, if the chain is empty. */
    method Take(t: Id) returns (c: Option<Id>)
      requires Inv(Now()) && t in threads && Enabled(Now(), Step.Take(t))
      modifies this
      ensures Inv(Now()) && Now() == Apply(old(Now()), Step.Take(t))
      ensures c == if Chain(old(Now()), old(threads[t]).listener) == [] then None
        else Some(Chain(old(Now()), old(threads[t]).listener)[0])
    {
      hide Inv, Once, Threads;
      StepInv(Now(), Step.Take(t));
      ListenerLinked(Now(), t);
      var l := threads[t].listener;
      c := socks[l].next;
      if c.None? { return; }
      TakenNext(Now(), t);
      left := left[l := Left(Now(), l) + 1];
      socks := socks[l := socks[l].(next := socks[c.value].next, numPending := socks[l].numPending - 1)];
      threads := threads[t := Holding(l, c.value)];
    }

    /** accept's section under the connector's lock, with its assertion. */
    method Finish(t: Id) returns (c: Id)
      requires Inv(Now()) && t in threads && Enabled(Now(), Step.Finish(t))
      modifies this
      ensures Inv(Now()) && Now() == Apply(old(Now()), Step.Finish(t))
      ensures c in socks && socks[c].isConnected && old(socks[c]).state == Pending
    {
      hide Inv;
      StepInv(Now(), Step.Finish(t));
      PendingAssertion(Now(), t);
      c := threads[t].connector;
      assert socks[c].state == Pending;
      socks := socks[c := socks[c].(state := Connected, isConnected := true)];
      threads := threads[t := Outside];
    }
  }
}
