/**
  Lifetime of tmpfs inodes: directory entries (kernel/fs/dentry.c), reference
  counts (kernel/fs/fs.c) and the operations on directories (kernel/fs/tmpfs.c).
*/
module Inodes {
  import opened Basics

  datatype Errno = ENOENT | EEXIST | ENOTDIR | EXDEV | ENOMEM

  datatype Result<T> = Ok(value: T) | Err(error: Errno)

  type Id = nat

  datatype Dentry = Dentry(name: string, inode: Id)

  datatype Inode = Inode(dir: bool, dev: nat, refs: nat, links: nat, children: seq<Dentry>)

  // -------------------------------------------------------------- entries as a set

  /** The entries of every directory. */
  type Tree = map<Id, seq<Dentry>>

  ghost function TreeOf(nodes: map<Id, Inode>): Tree {
    map i | i in nodes :: nodes[i].children
  }

  /** The entries that name inode i, each as a directory and a name. */
  ghost function Naming(t: Tree, i: Id): set<(Id, string)> {
    set d, k | d in t && 0 <= k < |t[d]| && t[d][k].inode == i :: (d, t[d][k].name)
  }

  ghost function AllEntries(t: Tree): set<(Id, string)> {
    set d, k | d in t && 0 <= k < |t[d]| :: (d, t[d][k].name)
  }

  ghost predicate UniqueNames(c: seq<Dentry>) {
    forall j, k :: 0 <= j < k < |c| ==> c[j].name != c[k].name
  }

  ghost predicate Tidy(t: Tree) {
    && (forall d :: d in t ==> UniqueNames(t[d]))
    && (forall d, k :: d in t && 0 <= k < |t[d]| ==> t[d][k].inode in t)
  }

  /** One list with entry k left out. */
  function Drop(c: seq<Dentry>, k: nat): seq<Dentry>
    requires k < |c|
  {
    c[..k] + c[k + 1..]
  }

  lemma DropNaming(t: Tree, d: Id, k: nat, i: Id)
    requires Tidy(t) && d in t && k < |t[d]|
    ensures var e := t[d][k];
      Naming(t[d := Drop(t[d], k)], i) == Naming(t, i) - if e.inode == i then {(d, e.name)} else {}
    ensures (d, t[d][k].name) in Naming(t, t[d][k].inode)
  {
    var e, u := t[d][k], t[d := Drop(t[d], k)];
    forall x | x in Naming(t, i) && !(e.inode == i && x == (d, e.name)) ensures x in Naming(u, i) {
      var j :| 0 <= j < |t[x.0]| && t[x.0][j].inode == i && x == (x.0, t[x.0][j].name);
      var j' := if x.0 != d || j < k then j else j - 1;
      assert x.0 != d || j != k;
      assert u[x.0][j'] == t[x.0][j];
    }
    forall x | x in Naming(u, i) ensures x in Naming(t, i) && !(e.inode == i && x == (d, e.name)) {
      var j :| 0 <= j < |u[x.0]| && u[x.0][j].inode == i && x == (x.0, u[x.0][j].name);
      if x.0 == d { assert u[d][j] == t[d][if j < k then j else j + 1]; }
    }
  }

  lemma DropAll(t: Tree, d: Id, k: nat)
    requires Tidy(t) && d in t && k < |t[d]|
    ensures |AllEntries(t[d := Drop(t[d], k)])| < |AllEntries(t)|
    ensures Tidy(t[d := Drop(t[d], k)])
  {
    var e, u := t[d][k], t[d := Drop(t[d], k)];
    forall j | 0 <= j < |u[d]| ensures u[d][j] == t[d][if j < k then j else j + 1] {}
    assert (d, e.name) in AllEntries(t);
    forall x | x in AllEntries(u) ensures x in AllEntries(t) - {(d, e.name)} {
      var j :| 0 <= j < |u[x.0]| && x == (x.0, u[x.0][j].name);
    }
    Smaller(AllEntries(u), AllEntries(t), (d, e.name));
  }

  lemma Smaller<T>(a: set<T>, b: set<T>, x: T)
    requires x in b && a <= b - {x}
    ensures |a| < |b|
  {
    SubsetSize(a, b - {x});
  }

  lemma AppendNaming(t: Tree, d: Id, e: Dentry, i: Id)
    requires d in t && forall k :: 0 <= k < |t[d]| ==> t[d][k].name != e.name
    ensures Naming(t[d := t[d] + [e]], i) == Naming(t, i) + if e.inode == i then {(d, e.name)} else {}
    ensures (d, e.name) !in Naming(t, i)
  {
    var u := t[d := t[d] + [e]];
    forall x | x in Naming(t, i) ensures x in Naming(u, i) {
      var j :| 0 <= j < |t[x.0]| && t[x.0][j].inode == i && x == (x.0, t[x.0][j].name);
      assert u[x.0][j] == t[x.0][j];
    }
    if e.inode == i { assert u[d][|t[d]|] == e; }
  }

  lemma AppendTidy(t: Tree, d: Id, e: Dentry)
    requires Tidy(t) && d in t && e.inode in t && forall k :: 0 <= k < |t[d]| ==> t[d][k].name != e.name
    ensures Tidy(t[d := t[d] + [e]])
  {
  }

  lemma NamedBy(t: Tree, d: Id, k: nat)
    requires d in t && k < |t[d]|
    ensures (d, t[d][k].name) in Naming(t, t[d][k].inode)
  {
  }

  lemma UnknownUnnamed(t: Tree, i: Id)
    requires Tidy(t) && i !in t
    ensures Naming(t, i) == {}
  {
  }

  /** Taking out an inode without entries, which no entry names. */
  lemma RemoveNaming(t: Tree, d: Id, i: Id)
    requires d in t && t[d] == []
    ensures Naming(t - {d}, i) == Naming(t, i)
  {
    var u := t - {d};
    forall x | x in Naming(t, i) ensures x in Naming(u, i) {
      var j :| 0 <= j < |t[x.0]| && t[x.0][j].inode == i && x == (x.0, t[x.0][j].name);
      assert x.0 in u && u[x.0][j] == t[x.0][j];
    }
  }

  lemma AddNaming(t: Tree, d: Id, i: Id)
    requires d !in t
    ensures Naming(t[d := []], i) == Naming(t, i)
  {
    var u := t[d := []];
    forall x | x in Naming(t, i) ensures x in Naming(u, i) {
      var j :| 0 <= j < |t[x.0]| && t[x.0][j].inode == i && x == (x.0, t[x.0][j].name);
      assert x.0 in u && u[x.0][j] == t[x.0][j];
    }
  }

  /** Where fewer directories have the same entries, there are no more entries. */
  lemma FewerEntries(t: Tree, u: Tree)
    requires u.Keys <= t.Keys && forall d :: d in u ==> u[d] == t[d]
    ensures |AllEntries(u)| <= |AllEntries(t)|
  {
    SubsetSize(AllEntries(u), AllEntries(t));
  }

  // -------------------------------------------------------------------- counting

  ghost predicate CountedAt(nodes: map<Id, Inode>, held: map<Id, nat>, i: Id)
    requires i in nodes && i in held
  {
    && nodes[i].links == |Naming(TreeOf(nodes), i)|
    && nodes[i].refs == nodes[i].links + held[i]
  }

  /**
    num_links is the number of entries that name an inode; ref_count that number
    and the references held elsewhere, by open files, paths and running calls.
  */
  ghost predicate Counted(nodes: map<Id, Inode>, held: map<Id, nat>) {
    held.Keys == nodes.Keys && forall i :: i in nodes ==> CountedAt(nodes, held, i)
  }

  ghost predicate Inv(nodes: map<Id, Inode>, held: map<Id, nat>)
    ensures Inv(nodes, held) ==> held.Keys == nodes.Keys
  {
    && Tidy(TreeOf(nodes)) && Counted(nodes, held)
    && forall d :: d in nodes && nodes[d].children != [] ==> nodes[d].dir
  }

  /** Only the inodes being destroyed are without references. */
  ghost predicate Referenced(nodes: map<Id, Inode>, dying: set<Id>) {
    dying <= nodes.Keys && forall i :: i in nodes ==> (nodes[i].refs == 0 <==> i in dying)
  }

  lemma CountsOf(nodes: map<Id, Inode>, held: map<Id, nat>, i: Id)
    requires Inv(nodes, held) && i in nodes
    ensures nodes[i].refs == nodes[i].links + held[i]
  {
    assert CountedAt(nodes, held, i);
  }

  lemma Recount(nodes: map<Id, Inode>, held: map<Id, nat>, i: Id, refs: nat, holds: nat)
    requires Inv(nodes, held) && i in nodes && refs == nodes[i].links + holds
    ensures Inv(nodes[i := nodes[i].(refs := refs)], held[i := holds])
  {
    hide Naming, Tidy;
    var after := nodes[i := nodes[i].(refs := refs)];
    assert TreeOf(after) == TreeOf(nodes);
    forall j | j in after ensures CountedAt(after, held[i := holds], j) { assert CountedAt(nodes, held, j); }
  }

  /** Entry k leaves directory d; its reference passes to whoever took it out. */
  ghost function Unnamed(nodes: map<Id, Inode>, d: Id, k: nat): map<Id, Inode>
    requires d in nodes && k < |nodes[d].children| && nodes[d].children[k].inode in nodes
  {
    var c := nodes[d].children[k].inode;
    var less := nodes[d := nodes[d].(children := Drop(nodes[d].children, k))];
    less[c := less[c].(links := if less[c].links > 0 then less[c].links - 1 else 0)]
  }

  lemma EntryIn(nodes: map<Id, Inode>, held: map<Id, nat>, d: Id, k: nat)
    requires Inv(nodes, held) && d in nodes && k < |nodes[d].children|
    ensures nodes[d].children[k].inode in nodes && nodes[nodes[d].children[k].inode].links > 0
  {
    var t := TreeOf(nodes);
    assert t[d] == nodes[d].children && t[d][k].inode in t;
    DropNaming(t, d, k, t[d][k].inode);
    assert CountedAt(nodes, held, t[d][k].inode);
  }

  lemma UnnameInv(nodes: map<Id, Inode>, held: map<Id, nat>, d: Id, k: nat)
    requires Inv(nodes, held) && d in nodes && k < |nodes[d].children| && nodes[d].children[k].inode in nodes
    ensures var c := nodes[d].children[k].inode; Inv(Unnamed(nodes, d, k), held[c := held[c] + 1])
    ensures |AllEntries(TreeOf(Unnamed(nodes, d, k)))| < |AllEntries(TreeOf(nodes))|
  {
    hide Naming, Tidy, AllEntries, Drop;
    EntryIn(nodes, held, d, k);
    var t, c := TreeOf(nodes), nodes[d].children[k].inode;
    var after, u := Unnamed(nodes, d, k), t[d := Drop(t[d], k)];
    assert TreeOf(after) == u;
    DropAll(t, d, k);
    forall j | j in after ensures CountedAt(after, held[c := held[c] + 1], j) {
      assert CountedAt(nodes, held, j);
      DropNaming(t, d, k, j);
    }
  }

  /** dentry_append's new entry, which takes over a reference. */
  ghost function Named(nodes: map<Id, Inode>, d: Id, name: string, c: Id): map<Id, Inode>
    requires d in nodes && c in nodes
  {
    var more := nodes[d := nodes[d].(children := nodes[d].children + [Dentry(name, c)])];
    more[c := more[c].(links := more[c].links + 1)]
  }

  lemma NameInv(nodes: map<Id, Inode>, held: map<Id, nat>, d: Id, name: string, c: Id)
    requires Inv(nodes, held) && d in nodes && c in nodes && held[c] > 0 && nodes[d].dir
    requires forall k :: 0 <= k < |nodes[d].children| ==> nodes[d].children[k].name != name
    ensures Inv(Named(nodes, d, name, c), held[c := held[c] - 1])
  {
    hide Naming, Tidy;
    var t, e := TreeOf(nodes), Dentry(name, c);
    var after, u := Named(nodes, d, name, c), t[d := t[d] + [e]];
    assert TreeOf(after) == u;
    AppendTidy(t, d, e);
    forall j | j in after ensures CountedAt(after, held[c := held[c] - 1], j) {
      assert CountedAt(nodes, held, j);
      AppendNaming(t, d, e, j);
    }
  }

  lemma NoneNames(nodes: map<Id, Inode>, held: map<Id, nat>, i: Id)
    requires Inv(nodes, held) && i in nodes && nodes[i].links == 0
    ensures Naming(TreeOf(nodes), i) == {}
    ensures forall d, k :: d in nodes && 0 <= k < |nodes[d].children| ==> nodes[d].children[k].inode != i
  {
    var t := TreeOf(nodes);
    assert CountedAt(nodes, held, i);
    hide Naming;
    forall d, k | d in nodes && 0 <= k < |nodes[d].children| ensures nodes[d].children[k].inode != i {
      NamedBy(t, d, k);
    }
  }

  lemma RemoveTidy(t: Tree, i: Id)
    requires Tidy(t) && Naming(t, i) == {}
    ensures Tidy(t - {i})
  {
    hide Naming;
    var u: Tree := t - {i};
    forall d, k | d in u && 0 <= k < |u[d]| ensures u[d][k].inode in u {
      NamedBy(t, d, k);
    }
  }

  lemma AddTidy(t: Tree, i: Id)
    requires Tidy(t) && i !in t
    ensures Tidy(t[i := []]) && Naming(t, i) == {}
  {
    UnknownUnnamed(t, i);
  }

  lemma RemoveInv(nodes: map<Id, Inode>, held: map<Id, nat>, i: Id)
    requires Inv(nodes, held) && i in nodes && nodes[i].refs == 0 && nodes[i].children == []
    ensures Inv(nodes - {i}, held - {i})
  {
    hide Naming, Tidy;
    var t, after := TreeOf(nodes), nodes - {i};
    assert CountedAt(nodes, held, i);
    NoneNames(nodes, held, i);
    RemoveTidy(t, i);
    assert TreeOf(after) == t - {i};
    forall j | j in after ensures CountedAt(after, held - {i}, j) {
      assert CountedAt(nodes, held, j);
      RemoveNaming(t, i, j);
    }
  }

  lemma CreateInv(nodes: map<Id, Inode>, held: map<Id, nat>, i: Id, dir: bool, dev: nat)
    requires Inv(nodes, held) && i !in nodes
    ensures Inv(nodes[i := Inode(dir, dev, 1, 0, [])], held[i := 1])
  {
    hide Naming, Tidy;
    var t, after := TreeOf(nodes), nodes[i := Inode(dir, dev, 1, 0, [])];
    assert TreeOf(after) == t[i := []];
    AddTidy(t, i);
    forall j | j in after ensures CountedAt(after, held[i := 1], j) {
      AddNaming(t, i, j);
      if j != i { assert CountedAt(nodes, held, j); }
    }
  }

  // ------------------------------------------------------------------- operations

  datatype State = State(nodes: map<Id, Inode>, held: map<Id, nat>, destroyed: set<Id>)

  /** The inode is the same but for its counts and, if `cleared`, its entries. */
  ghost predicate SameInode(x: Inode, y: Inode, cleared: bool) {
    x.dir == y.dir && x.dev == y.dev && (cleared || x.children == y.children)
  }

  /**
    Between a and b inodes were destroyed that nobody held; those that remain are
    held as before and have the entries they had, but for `clearing`, which is
    losing its own.
  */
  ghost predicate Collapsed(a: State, b: State, clearing: set<Id>) {
    && b.nodes.Keys <= a.nodes.Keys && b.destroyed == a.destroyed + (a.nodes.Keys - b.nodes.Keys)
    && a.held.Keys == a.nodes.Keys && b.held.Keys == b.nodes.Keys
    && (forall i :: i in b.nodes ==> SameInode(a.nodes[i], b.nodes[i], i in clearing) && b.held[i] == a.held[i])
    && (forall i :: i in a.nodes && i !in b.nodes ==> a.held[i] == 0)
  }

  lemma CountOnly(a: State, i: Id, refs: nat)
    requires a.held.Keys == a.nodes.Keys && i in a.nodes
    ensures Collapsed(a, State(a.nodes[i := a.nodes[i].(refs := refs)], a.held, a.destroyed), {})
  {
  }

  ghost function Lower(nodes: map<Id, Inode>, i: Id): map<Id, Inode>
    requires i in nodes && nodes[i].refs > 0
  {
    nodes[i := nodes[i].(refs := nodes[i].refs - 1)]
  }

  lemma LowerIs(nodes: map<Id, Inode>, i: Id, dying: set<Id>)
    requires i in nodes && nodes[i].refs > 0 && Referenced(nodes, dying)
    ensures Lower(nodes, i) == nodes[i := nodes[i].(refs := nodes[i].refs - 1)] && Lower(nodes, i).Keys == nodes.Keys
    ensures TreeOf(Lower(nodes, i)) == TreeOf(nodes) && i !in dying
    ensures Referenced(Lower(nodes, i), if nodes[i].refs == 1 then dying + {i} else dying)
  {
    assert TreeOf(Lower(nodes, i)) == TreeOf(nodes);
  }

  lemma CollapsedThen(a: State, b: State, c: State, clearing: set<Id>)
    requires Collapsed(a, b, clearing) && Collapsed(b, c, clearing)
    ensures Collapsed(a, c, clearing)
  {
  }

  lemma CollapsedEntries(a: State, b: State)
    requires Collapsed(a, b, {})
    ensures |AllEntries(TreeOf(b.nodes))| <= |AllEntries(TreeOf(a.nodes))|
  {
    hide AllEntries;
    FewerEntries(TreeOf(a.nodes), TreeOf(b.nodes));
  }

  /** An inode destroyed is not destroyed again, nor is its identity given to another. */
  ghost predicate NeverAgain(live: set<Id>, destroyed: set<Id>, nextId: Id) {
    live !! destroyed && forall i :: i in live || i in destroyed ==> i < nextId
  }

  class Tmpfs {
    var nodes: map<Id, Inode>       // every inode not yet freed
    var nextId: Id                  // stands for the allocator: never gives the same inode twice
    ghost var held: map<Id, nat>    // references held by files, paths and calls
    ghost var destroyed: set<Id>

    ghost function Now(): State reads this { State(nodes, held, destroyed) }

    ghost predicate Sound()
      reads this
    {
      Inv(nodes, held) && NeverAgain(nodes.Keys, destroyed, nextId)
    }

    /** Between calls every inode has a reference. */
    ghost predicate Valid()
      reads this
    {
      Sound() && Referenced(nodes, {})
    }

    constructor ()
      ensures Valid() && nodes == map[] && destroyed == {}
    {
      nodes, nextId, held, destroyed := map[], 0, map[], {};
    }

    /** inode_ref by someone who can name the inode. */
    method Ref(i: Id)
      requires Sound() && i in nodes && nodes[i].refs > 0
      modifies this`nodes, this`held
      ensures Sound() && nodes == old(nodes)[i := old(nodes[i]).(refs := old(nodes[i]).refs + 1)]
      ensures held == old(held)[i := old(held)[i] + 1] && (old(Valid()) ==> Valid())
    {
      hide Inv;
      CountsOf(nodes, held, i);
      Recount(nodes, held, i, nodes[i].refs + 1, held[i] + 1);
      nodes := nodes[i := nodes[i].(refs := nodes[i].refs + 1)];
      assert nodes.Keys == old(nodes.Keys);
      held := held[i := held[i] + 1];
    }

    /** inode_unref: gives up a held reference; the last one destroys an inode no entry names. */
    method Unref(i: Id, ghost dying: set<Id>)
      requires Sound() && i in nodes && held[i] > 0 && Referenced(nodes, dying)
      modifies this`nodes, this`held, this`destroyed
      ensures Sound() && Referenced(nodes, dying)
      ensures Collapsed(old(State(nodes, Minus(held, i), destroyed)), Now(), {})
      ensures old(nodes[i]).refs == 1 && old(nodes[i]).links == 0 ==> i !in nodes
      ensures old(nodes[i]).refs > 1 || old(nodes[i]).links > 0 ==>
        nodes.Keys == old(nodes.Keys) && destroyed == old(destroyed)
      decreases |AllEntries(TreeOf(nodes))|, 1
    {
      hide Inv, AllEntries, NeverAgain, Collapsed, TreeOf, Referenced, Minus;
      LowerCount(i, dying);
      ghost var less := Now();
      if nodes[i].refs == 0 && nodes[i].links == 0 {
        Destroy(i, dying);
        CollapsedThen(old(State(nodes, Minus(held, i), destroyed)), less, Now(), {});
      }
    }

    /** A held reference is given up; the inode may be left without any. */
    method LowerCount(i: Id, ghost dying: set<Id>)
      requires Sound() && i in nodes && held[i] > 0 && Referenced(nodes, dying)
      modifies this`nodes, this`held
      ensures Sound() && i in nodes && i !in dying && TreeOf(nodes) == TreeOf(old(nodes))
      ensures Referenced(nodes, if nodes[i].refs == 0 then dying + {i} else dying)
      ensures nodes[i] == old(nodes[i]).(refs := old(nodes[i]).refs - 1) && nodes[i].refs >= nodes[i].links
      ensures nodes.Keys == old(nodes.Keys)
      ensures Collapsed(old(State(nodes, Minus(held, i), destroyed)), Now(), {})
    {
      hide Inv, NeverAgain, Collapsed, TreeOf, Referenced, Lower;
      CountsOf(nodes, held, i);
      CountOnly(State(nodes, Minus(held, i), destroyed), i, nodes[i].refs - 1);
      Recount(nodes, held, i, nodes[i].refs - 1, held[i] - 1);
      LowerIs(nodes, i, dying);
      nodes := nodes[i := nodes[i].(refs := nodes[i].refs - 1)];
      held := held[i := held[i] - 1];
    }

    /** inode_destroy and tmpfs_destroy_inode, with the loop of dentry_clear. */
    method Destroy(i: Id, ghost dying: set<Id>)
      requires Sound() && i in nodes && i !in dying && Referenced(nodes, dying + {i})
      requires nodes[i].refs == 0 && nodes[i].links == 0
      modifies this`nodes, this`held, this`destroyed
      ensures Sound() && Referenced(nodes, dying) && i !in nodes && i in destroyed
      ensures Collapsed(old(Now()), Now(), {})
      decreases |AllEntries(TreeOf(nodes))|, 0, 1
    {
      hide Inv, AllEntries, TreeOf, Collapsed, NeverAgain;
      NothingCollapsed(Now(), {i});
      while nodes[i].children != []
        invariant Sound() && i in nodes && Referenced(nodes, dying + {i})
        invariant nodes[i].refs == 0 && nodes[i].links == 0
        invariant Collapsed(old(Now()), Now(), {i})
        invariant |AllEntries(TreeOf(nodes))| <= |AllEntries(TreeOf(old(nodes)))|
        decreases |nodes[i].children|
      {
        ghost var before := Now();
        ClearFirst(i, dying);
        CollapsedThen(old(Now()), before, Now(), {i});
      }
      RemoveInv(nodes, held, i);
      CountsOf(nodes, held, i);
      LastCollapsed(old(Now()), Now(), i);
      NeverAgainRemove(nodes.Keys, destroyed, nextId, i);
      nodes := nodes - {i};
      held := held - {i};
      destroyed := destroyed + {i};
    }

    /** One round of dentry_clear. */
    method ClearFirst(i: Id, ghost dying: set<Id>)
      requires Sound() && i in nodes && Referenced(nodes, dying + {i}) && nodes[i].children != []
      requires nodes[i].refs == 0 && nodes[i].links == 0
      modifies this`nodes, this`held, this`destroyed
      ensures Sound() && i in nodes && Referenced(nodes, dying + {i})
      ensures nodes[i].refs == 0 && nodes[i].links == 0 && nodes[i].children == old(nodes[i].children)[1..]
      ensures Collapsed(old(Now()), Now(), {i})
      ensures |AllEntries(TreeOf(nodes))| < |AllEntries(TreeOf(old(nodes)))|
      decreases |AllEntries(TreeOf(nodes))|, 0, 0
    {
      hide Inv, AllEntries, TreeOf, NeverAgain, Collapsed, Unnamed;
      EntryIn(nodes, held, i, 0);
      PopKeeps(Now(), i, dying + {i});
      var c := TakeOut(i, 0);
      ghost var popped := State(nodes, old(held), destroyed);
      assert held[c := held[c] - 1] == old(held);
      Unref(c, dying + {i});
      CollapsedEntries(popped, Now());
      PoppedThen(old(Now()), popped, Now(), i, dying + {i});
      CountsOf(nodes, held, i);
    }

    /** An entry is unlinked and its inode's num_links lowered, as dentry_remove and dentry_clear do. */
    method TakeOut(d: Id, k: nat) returns (c: Id)
      requires Sound() && d in nodes && k < |nodes[d].children|
      modifies this`nodes, this`held
      ensures c == old(nodes[d].children)[k].inode && c in old(nodes) && old(nodes[c]).links > 0
      ensures Sound() && nodes == Unnamed(old(nodes), d, k) && held == old(held)[c := old(held)[c] + 1]
      ensures |AllEntries(TreeOf(nodes))| < |AllEntries(TreeOf(old(nodes)))|
    {
      hide Inv, AllEntries, TreeOf, NeverAgain;
      EntryIn(nodes, held, d, k);
      UnnameInv(nodes, held, d, k);
      c := nodes[d].children[k].inode;
      nodes := nodes[d := nodes[d].(children := Drop(nodes[d].children, k))];
      nodes := nodes[c := nodes[c].(links := nodes[c].links - 1)];
      held := held[c := held[c] + 1];
      assert nodes.Keys == old(nodes.Keys);
    }

    /** The scan for a name in a directory. */
    method Scan(d: Id, name: string) returns (k: nat)
      requires d in nodes
      ensures k <= |nodes[d].children| && (k < |nodes[d].children| ==> nodes[d].children[k].name == name)
      ensures k == |nodes[d].children| ==> !Lists(nodes[d].children, name)
    {
      k := 0;
      while k < |nodes[d].children| && nodes[d].children[k].name != name
        invariant k <= |nodes[d].children| && forall j :: 0 <= j < k ==> nodes[d].children[j].name != name
      {
        k := k + 1;
      }
    }

    /** inode_lookup_child: the caller's reference to the directory becomes one to the child. */
    method LookupChild(d: Id, name: string) returns (r: Result<Id>)
      requires Valid() && d in nodes && held[d] > 0
      modifies this`nodes, this`held, this`destroyed
      ensures Valid()
      ensures r.Ok? ==> Dentry(name, r.value) in old(nodes[d].children) && r.value in old(nodes) && r.value in nodes
      ensures r.Ok? ==> Collapsed(old(State(nodes, Minus(Plus(held, r.value), d), destroyed)), Now(), {})
      ensures r.Err? ==> Collapsed(old(State(nodes, Minus(held, d), destroyed)), Now(), {})
      ensures r.Err? ==>
        r.error == (if old(nodes[d]).dir then ENOENT else ENOTDIR) && !Lists(old(nodes[d].children), name)
    {
      hide Inv, NeverAgain, Collapsed;
      NonDirEmpty(nodes, held, d);
      if !nodes[d].dir {
        Unref(d, {});
        return Err(ENOTDIR);
      }
      var k := Scan(d, name);
      if k == |nodes[d].children| {
        Unref(d, {});
        return Err(ENOENT);
      }
      EntryIn(nodes, held, d, k);
      var c := nodes[d].children[k].inode;
      Exchange(d, c);
      r := Ok(c);
    }

    /** A reference to inode c is taken, one to inode d given up. */
    method Exchange(d: Id, c: Id)
      requires Valid() && d in nodes && held[d] > 0 && c in nodes && nodes[c].links > 0
      modifies this`nodes, this`held, this`destroyed
      ensures Valid() && c in nodes
      ensures Collapsed(old(State(nodes, Minus(Plus(held, c), d), destroyed)), Now(), {})
    {
      hide Inv, NeverAgain, Collapsed, Minus, Plus, Referenced;
      CountsOf(nodes, held, c);
      PlusHeld(held, c, d);
      ghost var a := State(nodes, Minus(Plus(held, c), d), destroyed);
      Ref(c);
      Unref(d, {});
      RefIgnored(a.nodes, a.held, a.destroyed, c, Now());
      HeldRemains(a, Now(), c);
    }

    /** tmpfs_link_child with dentry_append: consumes the references to both inodes. */
    method Link(d: Id, name: string, c: Id, memory: bool) returns (r: Result<()>)
      requires Valid() && d in nodes && c in nodes && nodes[d].dir && held[c] > 0 && held[d] > if c == d then 1 else 0
      modifies this`nodes, this`held, this`destroyed
      ensures Valid()
      ensures r.Ok? ==> Collapsed(old(State(Named(nodes, d, name, c), Minus(Minus(held, c), d), destroyed)), Now(), {})
      ensures r.Err? ==> Collapsed(old(State(nodes, Minus(Minus(held, c), d), destroyed)), Now(), {})
      ensures r == if Lists(old(nodes[d].children), name) then Err(EEXIST) else if memory then Ok(()) else Err(ENOMEM)
    {
      hide Inv, NeverAgain, Collapsed, Named;
      var k := Scan(d, name);
      var exists_ := k < |nodes[d].children|;
      if exists_ || !memory {
        GiveUpBoth(c, d);
        return Err(if exists_ then EEXIST else ENOMEM);
      }
      NameInv(nodes, held, d, name, c);
      NameReferenced(nodes, d, name, c);
      nodes := nodes[d := nodes[d].(children := nodes[d].children + [Dentry(name, c)])];
      nodes := nodes[c := nodes[c].(links := nodes[c].links + 1)];
      assert nodes == Named(old(nodes), d, name, c) by { NamedIs(old(nodes), d, name, c); }
      assert nodes.Keys == old(nodes.Keys);
      held := Minus(held, c);
      Unref(d, {});
      r := Ok(());
    }

    /** Two references are given up. */
    method GiveUpBoth(c: Id, d: Id)
      requires Valid() && d in nodes && c in nodes && held[c] > 0 && held[d] > if c == d then 1 else 0
      modifies this`nodes, this`held, this`destroyed
      ensures Valid() && Collapsed(old(State(nodes, Minus(Minus(held, c), d), destroyed)), Now(), {})
    {
      hide Inv, NeverAgain, Collapsed;
      ghost var a := State(nodes, Minus(Minus(held, c), d), destroyed);
      ghost var b := State(nodes, Minus(held, c), destroyed);
      Unref(c, {});
      HeldRemains(b, Now(), d);
      ghost var b' := Now();
      Unref(d, {});
      GivenUpTwice(a, b, b', Now(), d);
    }

    /** inode_link_child */
    method LinkChild(d: Id, name: string, c: Id, memory: bool) returns (r: Result<()>)
      requires Valid() && d in nodes && c in nodes && held[c] > 0 && held[d] > if c == d then 1 else 0
      modifies this`nodes, this`held, this`destroyed
      ensures Valid()
      ensures r.Ok? ==> Collapsed(old(State(Named(nodes, d, name, c), Minus(Minus(held, c), d), destroyed)), Now(), {})
      ensures r.Err? ==> Collapsed(old(State(nodes, Minus(Minus(held, c), d), destroyed)), Now(), {})
      ensures r == old(LinkOutcome(nodes[d], nodes[c], name, memory))
    {
      hide Inv, NeverAgain, Collapsed, Named, Lists;
      if !nodes[d].dir {
        GiveUpBoth(d, c);
        MinusCommutes(old(held), c, d);
        return Err(ENOTDIR);
      }
      if nodes[d].dev != nodes[c].dev {
        GiveUpBoth(d, c);
        MinusCommutes(old(held), c, d);
        return Err(EXDEV);
      }
      r := Link(d, name, c, memory);
    }

    /** inode_unlink_child: the entry goes, and with the last reference the inode. */
    method UnlinkChild(d: Id, name: string) returns (r: Result<()>)
      requires Valid() && d in nodes && held[d] > 0
      modifies this`nodes, this`held, this`destroyed
      ensures Valid()
      ensures r.Err? ==> Collapsed(old(State(nodes, Minus(held, d), destroyed)), Now(), {})
      ensures r.Ok? ==> exists k: nat :: Unlinked(old(Now()), Now(), d, name, k)
      ensures r == if !old(nodes[d]).dir then Err(ENOTDIR)
                   else if Lists(old(nodes[d].children), name) then Ok(()) else Err(ENOENT)
    {
      hide Inv, NeverAgain, Collapsed, Unnamed;
      NonDirEmpty(nodes, held, d);
      if !nodes[d].dir {
        Unref(d, {});
        return Err(ENOTDIR);
      }
      var k := Scan(d, name);
      if k == |nodes[d].children| {
        Unref(d, {});
        return Err(ENOENT);
      }
      EntryIn(nodes, held, d, k);
      CountsOf(nodes, held, nodes[d].children[k].inode);
      TakeOutReferenced(nodes, d, k);
      var c := TakeOut(d, k);
      GiveUpBoth(d, c);
      PlusMinus(old(held), d, c);
      assert Unlinked(old(Now()), Now(), d, name, k);
      r := Ok(());
    }

    /**
      tmpfs_create_child, given a directory: a new inode with one entry and the
      caller's reference. Where the entry cannot be made, the inode is destroyed;
      where there is no memory for the inode, the reference to the directory is
      not given up.
    */
    method CreateChild(d: Id, name: string, dir: bool, memory: bool, memory2: bool) returns (r: Result<Id>)
      requires Valid() && d in nodes && held[d] > 0 && nodes[d].dir
      modifies this
      ensures Valid()
      ensures !memory ==> r == Err(ENOMEM) && Now() == old(Now())
      ensures r.Ok? ==> r.value == old(nextId) && r.value in nodes && held[r.value] == 1
      ensures r.Ok? ==> Collapsed(old(WithChild(Now(), nextId, d, name, dir)), Now(), {})
      ensures r.Err? && memory ==> old(nextId) !in nodes
      ensures r.Err? && memory ==> Collapsed(old(WithStray(Now(), nextId, d, dir)), Now(), {})
      ensures memory ==>
        r == if Lists(old(nodes[d].children), name) then Err(EEXIST)
             else if memory2 then Ok(old(nextId)) else Err(ENOMEM)
    {
      hide Inv, NeverAgain, Collapsed, Named, Lists, Referenced;
      if !memory { return Err(ENOMEM); }
      var c := nextId;
      FreshUnnamed(nodes, held, c, dir, nodes[d].dev);
      Allocate(dir, nodes[d].dev);
      ghost var made, h := nodes, held;
      Ref(c);
      assert Minus(held, c) == h;
      ghost var twice := nodes;
      var rc := Link(d, name, c, memory2);
      if rc.Ok? {
        MadeLinked(made, h, old(destroyed), d, name, c, Now());
        return Ok(c);
      }
      ghost var a := State(twice, Minus(h, d), old(destroyed));
      Discard(c, a);
      MadeDiscarded(old(held), c, d);
      RefIgnored(made, Minus(old(held)[c := 0], d), old(destroyed), c, Now());
      r := Err(rc.error);
    }

    /** The inode that could not be linked in is given up by its maker, and destroyed. */
    method Discard(c: Id, ghost a: State)
      requires Valid() && Collapsed(a, Now(), {}) && c in a.nodes && a.held[c] == 1 && NoEntryNames(a.nodes, c)
      modifies this`nodes, this`held, this`destroyed
      ensures Valid() && c !in nodes
      ensures Collapsed(State(a.nodes, Minus(a.held, c), a.destroyed), Now(), {})
    {
      hide Inv, NeverAgain, Collapsed, NoEntryNames;
      ghost var b := Now();
      HeldRemains(a, b, c);
      StillUnnamed(a, b, c);
      CountsOf(nodes, held, c);
      HeldKeys(a, b);
      Unref(c, {});
      GivenUpTwice(State(a.nodes, Minus(a.held, c), a.destroyed), a, b, Now(), c);
    }

    /** A new inode, with the reference of the call that made it, as tmpfs_mount makes a root. */
    method Allocate(dir: bool, dev: nat)
      requires Valid()
      modifies this`nodes, this`held, this`nextId
      ensures Valid() && old(nextId) !in old(nodes) && nextId == old(nextId) + 1
      ensures nodes == Made(old(nodes), old(nextId), dir, dev) && held == old(held)[old(nextId) := 1]
    {
      hide Inv;
      CreateInv(nodes, held, nextId, dir, dev);
      nodes := nodes[nextId := Inode(dir, dev, 1, 0, [])];
      held := held[nextId := 1];
      nextId := nextId + 1;
      assert nodes.Keys == old(nodes.Keys) + {old(nextId)};
    }
  }

  ghost function Made(nodes: map<Id, Inode>, i: Id, dir: bool, dev: nat): map<Id, Inode> {
    nodes[i := Inode(dir, dev, 1, 0, [])]
  }

  /** Inode c was made and entered in directory d, whose reference was given up for one to c. */
  ghost function WithChild(s: State, c: Id, d: Id, name: string, dir: bool): State
    requires d in s.nodes
  {
    State(Named(Made(s.nodes, c, dir, s.nodes[d].dev), d, name, c), Minus(s.held[c := 1], d), s.destroyed)
  }

  /** Inode c was made but not entered, and nobody holds it. */
  ghost function WithStray(s: State, c: Id, d: Id, dir: bool): State
    requires d in s.nodes
  {
    State(Made(s.nodes, c, dir, s.nodes[d].dev), Minus(s.held[c := 0], d), s.destroyed)
  }

  /** One more reference to inode i is held. */
  ghost function Plus(held: map<Id, nat>, i: Id): map<Id, nat> {
    if i in held then held[i := held[i] + 1] else held
  }

  ghost function Minus(held: map<Id, nat>, i: Id): map<Id, nat> {
    if i in held && held[i] > 0 then held[i := held[i] - 1] else held
  }

  ghost predicate Lists(c: seq<Dentry>, name: string) {
    exists k :: 0 <= k < |c| && c[k].name == name
  }

  ghost function LinkOutcome(d: Inode, c: Inode, name: string, memory: bool): Result<()> {
    if !d.dir then Err(ENOTDIR)
    else if d.dev != c.dev then Err(EXDEV)
    else if Lists(d.children, name) then Err(EEXIST)
    else if !memory then Err(ENOMEM) else Ok(())
  }

  /** The entry `name` of d, which stood at place k, is gone, and a reference to d given up. */
  ghost predicate Unlinked(a: State, b: State, d: Id, name: string, k: nat) {
    && d in a.nodes && k < |a.nodes[d].children| && a.nodes[d].children[k].name == name
    && a.nodes[d].children[k].inode in a.nodes
    && Collapsed(State(Unnamed(a.nodes, d, k), Minus(a.held, d), a.destroyed), b, {})
  }

  lemma PlusHeld(held: map<Id, nat>, c: Id, d: Id)
    requires c in held && d in held && held[d] > 0
    ensures Plus(held, c) == held[c := held[c] + 1] && Minus(Plus(held, c), d).Keys == held.Keys
    ensures Plus(held, c)[d] > 0 && Minus(Plus(held, c), d)[c] == held[c] + if c == d then 0 else 1
  {
  }

  lemma MinusCommutes(held: map<Id, nat>, c: Id, d: Id)
    ensures Minus(Minus(held, c), d) == Minus(Minus(held, d), c)
  {
  }

  lemma PlusMinus(held: map<Id, nat>, d: Id, c: Id)
    requires c in held && d in held && held[d] > 0
    ensures Minus(Minus(Plus(held, c), d), c) == Minus(held, d)
  {
  }

  lemma NamedIs(nodes: map<Id, Inode>, d: Id, name: string, c: Id)
    requires d in nodes && c in nodes
    ensures var more := nodes[d := nodes[d].(children := nodes[d].children + [Dentry(name, c)])];
            Named(nodes, d, name, c) == more[c := more[c].(links := more[c].links + 1)]
  {
  }

  lemma NameReferenced(nodes: map<Id, Inode>, d: Id, name: string, c: Id)
    requires d in nodes && c in nodes && Referenced(nodes, {})
    ensures Referenced(Named(nodes, d, name, c), {})
  {
  }

  lemma TakeOutReferenced(nodes: map<Id, Inode>, d: Id, k: nat)
    requires d in nodes && k < |nodes[d].children| && nodes[d].children[k].inode in nodes && Referenced(nodes, {})
    ensures Referenced(Unnamed(nodes, d, k), {})
  {
  }

  lemma NamedCounts(a: map<Id, Inode>, b: map<Id, Inode>, d: Id, name: string, c: Id)
    requires d in a && c in a && a.Keys == b.Keys && forall i :: i in a ==> SameInode(a[i], b[i], false)
    ensures var x, y := Named(a, d, name, c), Named(b, d, name, c);
            x.Keys == y.Keys == a.Keys && forall i :: i in x ==> SameInode(x[i], y[i], false)
  {
  }

  ghost predicate NoEntryNames(nodes: map<Id, Inode>, c: Id) {
    forall d, k :: d in nodes && 0 <= k < |nodes[d].children| ==> nodes[d].children[k].inode != c
  }

  lemma FreshUnnamed(nodes: map<Id, Inode>, held: map<Id, nat>, c: Id, dir: bool, dev: nat)
    requires Inv(nodes, held)
    ensures c !in nodes ==> NoEntryNames(Made(nodes, c, dir, dev), c)
  {
    var t := TreeOf(nodes);
    if c !in nodes {
      forall e: Id, k: nat | e in nodes && k < |nodes[e].children| ensures nodes[e].children[k].inode != c {
        assert t[e] == nodes[e].children && t[e][k].inode in t;
      }
    }
  }

  lemma StillUnnamed(a: State, b: State, c: Id)
    requires Collapsed(a, b, {}) && NoEntryNames(a.nodes, c) && Inv(b.nodes, b.held) && c in b.nodes
    ensures b.nodes[c].links == 0
  {
    var t := TreeOf(b.nodes);
    assert NoEntryNames(b.nodes, c);
    assert Naming(t, c) == {};
    assert CountedAt(b.nodes, b.held, c);
  }

  lemma HeldKeys(a: State, b: State)
    requires Collapsed(a, b, {})
    ensures a.held.Keys == a.nodes.Keys
  {
  }

  lemma MadeDiscarded(held: map<Id, nat>, c: Id, d: Id)
    requires d in held && held[d] > 0 && c !in held
    ensures Minus(Minus(held[c := 1], d), c) == Minus(held[c := 0], d)
  {
  }

  lemma RefIgnored(made: map<Id, Inode>, held: map<Id, nat>, destroyed: set<Id>, c: Id, b: State)
    requires c in made && Collapsed(State(made[c := made[c].(refs := made[c].refs + 1)], held, destroyed), b, {})
    ensures Collapsed(State(made, held, destroyed), b, {})
  {
    var twice := made[c := made[c].(refs := made[c].refs + 1)];
    CountsIgnored(State(made, held, destroyed), State(twice, held, destroyed), b);
  }

  lemma MadeLinked(made: map<Id, Inode>, h: map<Id, nat>, destroyed: set<Id>, d: Id, name: string, c: Id, b: State)
    requires c in made && d in made && c != d && c in h && h[c] == 1
    requires var twice := made[c := made[c].(refs := made[c].refs + 1)];
      Collapsed(State(Named(twice, d, name, c), Minus(h, d), destroyed), b, {})
    ensures Collapsed(State(Named(made, d, name, c), Minus(h, d), destroyed), b, {})
    ensures c in b.nodes && c in b.held && b.held[c] == 1
  {
    hide Collapsed, Named;
    var twice := made[c := made[c].(refs := made[c].refs + 1)];
    NamedCounts(made, twice, d, name, c);
    CountsIgnored(State(Named(made, d, name, c), Minus(h, d), destroyed),
      State(Named(twice, d, name, c), Minus(h, d), destroyed), b);
    HeldRemains(State(Named(made, d, name, c), Minus(h, d), destroyed), b, c);
    HeldKeys(b, b) by { NothingCollapsedAfter(State(Named(made, d, name, c), Minus(h, d), destroyed), b); }
  }

  lemma NothingCollapsedAfter(a: State, b: State)
    requires Collapsed(a, b, {})
    ensures Collapsed(b, b, {})
  {
  }

  lemma NonDirEmpty(nodes: map<Id, Inode>, held: map<Id, nat>, d: Id)
    requires Inv(nodes, held) && d in nodes
    ensures !nodes[d].dir ==> nodes[d].children == []
  {
  }

  /** Where the states differ in counts only, the same inodes collapse. */
  lemma CountsIgnored(a: State, b: State, c: State)
    requires Collapsed(b, c, {}) && a.held == b.held && a.destroyed == b.destroyed && a.nodes.Keys == b.nodes.Keys
    requires forall i :: i in a.nodes ==> SameInode(a.nodes[i], b.nodes[i], false)
    ensures Collapsed(a, c, {})
  {
  }

  /** An inode that is held is not destroyed. */
  lemma HeldRemains(a: State, b: State, i: Id)
    requires Collapsed(a, b, {}) && i in a.nodes && a.held[i] > 0
    ensures i in b.nodes && b.held[i] == a.held[i]
  {
  }

  /** Two references given up one after the other. */
  lemma GivenUpTwice(a: State, b: State, b': State, c: State, d: Id)
    requires Collapsed(b, b', {}) && d in b.held && b.held[d] > 0 && d in b'.held && b'.held[d] == b.held[d]
    requires a == State(b.nodes, Minus(b.held, d), b.destroyed)
    requires Collapsed(State(b'.nodes, Minus(b'.held, d), b'.destroyed), c, {})
    ensures Collapsed(a, c, {})
  {
  }

  /** Taking out an entry leaves every reference where it is, and no inode without one. */
  lemma PopKeeps(a: State, i: Id, dying: set<Id>)
    requires Inv(a.nodes, a.held) && i in a.nodes && a.nodes[i].children != []
    requires a.nodes[i].children[0].inode in a.nodes
    requires Referenced(a.nodes, dying)
    ensures Referenced(Unnamed(a.nodes, i, 0), dying)
    ensures Collapsed(a, State(Unnamed(a.nodes, i, 0), a.held, a.destroyed), {i})
  {
    hide Inv;
  }

  lemma PoppedThen(a: State, popped: State, b: State, i: Id, dying: set<Id>)
    requires Inv(a.nodes, a.held) && i in a.nodes && a.nodes[i].children != []
    requires a.nodes[i].children[0].inode in a.nodes
    requires popped == State(Unnamed(a.nodes, i, 0), a.held, a.destroyed)
    requires Collapsed(a, popped, {i}) && Collapsed(popped, b, {}) && i in dying && Referenced(b.nodes, dying)
    ensures Collapsed(a, b, {i}) && i in b.nodes && b.nodes[i].children == a.nodes[i].children[1..]
  {
    hide Inv;
    assert Drop(a.nodes[i].children, 0) == a.nodes[i].children[1..];
  }

  lemma NothingCollapsed(a: State, clearing: set<Id>)
    requires a.held.Keys == a.nodes.Keys
    ensures Collapsed(a, a, clearing)
  {
  }

  lemma LastCollapsed(a: State, b: State, i: Id)
    requires Collapsed(a, b, {i}) && i in b.nodes && b.held[i] == 0
    ensures Collapsed(a, State(b.nodes - {i}, b.held - {i}, b.destroyed + {i}), {})
  {
  }

  lemma NeverAgainRemove(live: set<Id>, destroyed: set<Id>, nextId: Id, i: Id)
    requires NeverAgain(live, destroyed, nextId) && i in live
    ensures NeverAgain(live - {i}, destroyed + {i}, nextId)
  {
  }

  /**
    What an operation destroyed was held by nobody, and no directory that remains
    names it; whatever remains is held by somebody or has an entry.
  */
  lemma OnlyUnreferencedGo(a: State, b: State, i: Id)
    requires Collapsed(a, b, {}) && Inv(b.nodes, b.held) && Referenced(b.nodes, {}) && i in a.nodes
    ensures i !in b.nodes ==> i in b.destroyed && a.held[i] == 0 && NoEntryNames(b.nodes, i)
    ensures i in b.nodes ==> a.held[i] > 0 || Naming(TreeOf(b.nodes), i) != {}
  {
    var t := TreeOf(b.nodes);
    if i in b.nodes {
      assert CountedAt(b.nodes, b.held, i);
    } else {
      forall d: Id, k: nat | d in b.nodes && k < |b.nodes[d].children| ensures b.nodes[d].children[k].inode != i {
        assert t[d] == b.nodes[d].children && t[d][k].inode in t;
      }
    }
  }
}
