/**
  Pathname resolution (kernel/fs/vfs.c) over the chains of kernel/fs/path.c:
  components, "..", symbolic links, mounts, and the string printed for a path.
*/
module Resolve {
  import opened Basics

  const SYMLOOP_MAX := 8
  const SYMLINK_MAX := 255
  const SEPARATOR := '/'

  type Inode = nat

  datatype Errno = ENOENT | ELOOP | ENOTDIR | OtherError(code: nat)

  datatype Result<T> = Ok(value: T) | Err(error: Errno)

  // --------------------------------------------------------------------- strings

  /** Index of the first separator, or the length. */
  function ComponentEnd(s: string): (n: nat)
    ensures n <= |s| && SEPARATOR !in s[..n] && (n < |s| ==> s[n] == SEPARATOR)
  {
    if s == "" || s[0] == SEPARATOR then 0 else 1 + ComponentEnd(s[1..])
  }

  /** The non-empty components of a pathname. */
  function Components(s: string): seq<string>
    decreases |s|
  {
    if s == "" then []
    else if s[0] == SEPARATOR then Components(s[1..])
    else [s[..ComponentEnd(s)]] + Components(s[ComponentEnd(s)..])
  }

  lemma {:induction false} ComponentEndIs(name: string, rest: string)
    requires SEPARATOR !in name && (rest == "" || rest[0] == SEPARATOR)
    ensures ComponentEnd(name + rest) == |name|
  {
    if name != "" {
      assert (name + rest)[1..] == name[1..] + rest;
      ComponentEndIs(name[1..], rest);
    } else {
      assert name + rest == rest;
    }
  }

  lemma ComponentsOfName(name: string, rest: string)
    requires name != "" && SEPARATOR !in name && (rest == "" || rest[0] == SEPARATOR)
    ensures Components(name + rest) == [name] + Components(rest)
  {
    ComponentEndIs(name, rest);
    assert (name + rest)[..|name|] == name && (name + rest)[|name|..] == rest;
  }

  /** Joining two pathnames with a separator joins their components. */
  lemma {:induction false} ComponentsJoin(a: string, b: string)
    ensures Components(a + [SEPARATOR] + b) == Components(a) + Components(b)
    decreases |a|
  {
    var s := a + [SEPARATOR] + b;
    if a == "" {
      assert s[1..] == b;
    } else if a[0] == SEPARATOR {
      assert s[1..] == a[1..] + [SEPARATOR] + b;
      ComponentsJoin(a[1..], b);
    } else {
      hide Components;
      var n := ComponentEnd(a);
      assert n > 0 && a == a[..n] + a[n..];
      ComponentsOfName(a[..n], a[n..]);
      ComponentsJoin(a[n..], b);
      JoinBehindName(a[..n], a[n..], b);
    }
  }

  lemma JoinBehindName(name: string, a: string, b: string)
    requires name != "" && SEPARATOR !in name && (a == "" || a[0] == SEPARATOR)
    ensures Components((name + a) + [SEPARATOR] + b) == [name] + Components(a + [SEPARATOR] + b)
  {
    hide Components;
    assert (name + a) + [SEPARATOR] + b == name + (a + [SEPARATOR] + b);
    ComponentsOfName(name, a + [SEPARATOR] + b);
  }

  lemma {:induction false} NoComponents(s: string)
    ensures Components(s) == [] <==> forall i :: 0 <= i < |s| ==> s[i] == SEPARATOR
    decreases |s|
  {
    if s != "" && s[0] == SEPARATOR {
      NoComponents(s[1..]);
      assert forall i :: 1 <= i < |s| ==> s[i] == s[1..][i - 1];
    }
  }

  /** The pathname ends in two separators, or more. */
  predicate EndsDouble(s: string) {
    |s| >= 2 && s[|s| - 1] == SEPARATOR && s[|s| - 2] == SEPARATOR
  }

  /** The same, seen from what strtok_r left of the pathname behind a component. */
  ghost predicate DoubleBehind(rest: string) {
    if Components(rest) == [] then rest != "" else EndsDouble(rest)
  }

  lemma DoubleBehindComponent(str: string, rest: string)
    requires |rest| < |str| && str[|str| - |rest|..] == rest && str[|str| - |rest| - 1] == SEPARATOR
    requires |rest| + 1 < |str| && str[|str| - |rest| - 2] != SEPARATOR
    ensures EndsDouble(str) <==> DoubleBehind(rest)
  {
    NoComponents(rest);
    var k := |str| - |rest|;
    assert forall i :: 0 <= i < |rest| ==> rest[i] == str[k + i];
    if |rest| == 1 {
      assert rest[0] == str[k];
      assert rest[0] != SEPARATOR ==> Components(rest) != [];
    }
  }

  /** strtok_r's first loop */
  method SkipSeparators(str: string) returns (i: nat)
    ensures i <= |str| && (i < |str| ==> str[i] != SEPARATOR) && Components(str[i..]) == Components(str)
  {
    i := 0;
    assert str[0..] == str;
    while i < |str| && str[i] == SEPARATOR
      invariant i <= |str| && Components(str[i..]) == Components(str)
    {
      assert str[i..][1..] == str[i + 1..];
      i := i + 1;
    }
  }

  /** strtok_r's second loop */
  method NameEnd(str: string, i: nat) returns (end: nat)
    requires i < |str| && str[i] != SEPARATOR
    ensures i < end <= |str| && SEPARATOR !in str[i..end] && (end < |str| ==> str[end] == SEPARATOR)
  {
    end := i;
    while end < |str| && str[end] != SEPARATOR
      invariant i <= end <= |str| && SEPARATOR !in str[i..end]
    {
      end := end + 1;
    }
  }

  /** The components of a string that starts with a name. */
  lemma FirstName(str: string, i: nat, end: nat)
    requires i < end <= |str| && SEPARATOR !in str[i..end] && (end < |str| ==> str[end] == SEPARATOR)
    ensures Components(str[i..]) == [str[i..end]] + (if end == |str| then [] else Components(str[end + 1..]))
    ensures EndsDouble(str) <==> DoubleBehind(if end == |str| then "" else str[end + 1..])
  {
    var name, tail := str[i..end], str[end..];
    assert str[i..] == name + tail;
    ComponentsOfName(name, tail);
    if end < |str| {
      assert tail[0] == SEPARATOR && tail[1..] == str[end + 1..];
      assert str[end - 1] == name[|name| - 1] && str[end - 1] in name;
      DoubleBehindComponent(str, str[end + 1..]);
    } else {
      assert str[|str| - 1] == name[|name| - 1] && str[|str| - 1] in name;
    }
  }

  /** strtok_r with the separator: the first component, and what follows the separator behind it. */
  method NextComponent(str: string) returns (token: Option<string>, saved: Option<string>)
    ensures token.None? ==> Components(str) == [] && saved.None?
    ensures token.Some? ==> token.value != "" && SEPARATOR !in token.value
    ensures token.Some? ==> Components(str) == [token.value] + (if saved.None? then [] else Components(saved.value))
    ensures token.Some? ==> (EndsDouble(str) <==> DoubleBehind(if saved.None? then "" else saved.value))
    ensures saved.Some? ==> |saved.value| < |str|
  {
    var i := SkipSeparators(str);
    if i == |str| { return None, None; }
    hide Components, EndsDouble, DoubleBehind;
    var end := NameEnd(str, i);
    FirstName(str, i, end);
    token := Some(str[i..end]);
    saved := if end < |str| then Some(str[end + 1..]) else None;
  }

  // ---------------------------------------------------------------------- mounts

  datatype Mount = Mount(host: Inode, guest: Inode)

  /** The guest's root is a new inode: no mount so far mentions it, nor is it the host. */
  ghost predicate Fresh(mounts: seq<Mount>, m: Mount) {
    m.guest != m.host && forall k :: 0 <= k < |mounts| ==> m.guest != mounts[k].host && m.guest != mounts[k].guest
  }

  /** A mount table, newest first, as mount_at builds it up from fresh guests. */
  ghost predicate Reachable(mounts: seq<Mount>) {
    mounts == [] || (Reachable(mounts[1..]) && Fresh(mounts[1..], mounts[0]))
  }

  /** mount_at, given a directory. */
  function MountAt(mounts: seq<Mount>, host: Inode, guest: Inode): seq<Mount> {
    [Mount(host, guest)] + mounts
  }

  /** Place of the newest mount on an inode, or the length. */
  function NewestOn(mounts: seq<Mount>, n: Inode): (k: nat)
    ensures k <= |mounts| && (k < |mounts| ==> mounts[k].host == n) && forall j :: 0 <= j < k ==> mounts[j].host != n
  {
    if mounts == [] || mounts[0].host == n then 0 else 1 + NewestOn(mounts[1..], n)
  }

  /** Whatever is mounted on a guest was mounted after it. */
  lemma {:induction false} GuestsAreNewer(mounts: seq<Mount>, k: nat, j: nat)
    requires Reachable(mounts) && k <= j < |mounts|
    ensures mounts[j].host != mounts[k].guest
  {
    if k == 0 {
      assert j > 0 ==> mounts[j] == mounts[1..][j - 1];
    } else {
      GuestsAreNewer(mounts[1..], k - 1, j - 1);
    }
  }

  lemma NewerOnGuest(mounts: seq<Mount>, k: nat)
    requires Reachable(mounts) && k < |mounts|
    ensures NewestOn(mounts, mounts[k].guest) < k || NewestOn(mounts, mounts[k].guest) == |mounts|
  {
    var k' := NewestOn(mounts, mounts[k].guest);
    if k <= k' < |mounts| { GuestsAreNewer(mounts, k, k'); }
  }

  /** What is on top of an inode when every mount has been followed. */
  ghost function MountedOn(mounts: seq<Mount>, n: Inode): (top: Inode)
    requires Reachable(mounts)
    ensures forall k :: 0 <= k < |mounts| ==> mounts[k].host != top
    decreases if NewestOn(mounts, n) < |mounts| then NewestOn(mounts, n) + 1 else 0
  {
    var k := NewestOn(mounts, n);
    if k == |mounts| then n
    else
      NewerOnGuest(mounts, k);
      MountedOn(mounts, mounts[k].guest)
  }

  /** A mount on what was on top covers it, and changes nothing for an inode that leads elsewhere. */
  lemma {:induction false} MountCovers(mounts: seq<Mount>, m: Mount, n: Inode)
    requires Reachable(mounts) && Fresh(mounts, m) && n != m.guest
    requires forall k :: 0 <= k < |mounts| ==> mounts[k].host != m.host
    ensures Reachable(MountAt(mounts, m.host, m.guest))
    ensures var was := MountedOn(mounts, n);
      MountedOn(MountAt(mounts, m.host, m.guest), n) == if was == m.host then m.guest else was
    decreases if NewestOn(mounts, n) < |mounts| then NewestOn(mounts, n) + 1 else 0
  {
    var after := MountAt(mounts, m.host, m.guest);
    assert after[1..] == mounts && after[0] == m;
    assert Reachable(after) && NewestOn(mounts, m.guest) == |mounts|;
    var k := NewestOn(mounts, n);
    assert NewestOn(after, n) == if n == m.host then 0 else 1 + k;
    assert NewestOn(after, m.guest) == |after|;
    assert k < |mounts| ==> mounts[k].guest != m.guest && after[1 + k] == mounts[k];
    hide Reachable, Fresh, NewestOn;
    if n != m.host && k < |mounts| {
      NewerOnGuest(mounts, k);
      MountCovers(mounts, m, mounts[k].guest);
    }
  }

  /** resolve_mounts, which terminates because every guest is fresh. */
  method ResolveMounts(mounts: seq<Mount>, host: Inode) returns (needle: Inode)
    requires Reachable(mounts)
    ensures needle == MountedOn(mounts, host)
  {
    needle := host;
    while true
      invariant MountedOn(mounts, needle) == MountedOn(mounts, host)
      decreases if NewestOn(mounts, needle) < |mounts| then NewestOn(mounts, needle) + 1 else 0
    {
      var it := 0;
      while it < |mounts| && mounts[it].host != needle
        invariant it <= |mounts| && forall j :: 0 <= j < it ==> mounts[j].host != needle
      {
        it := it + 1;
      }
      assert it == NewestOn(mounts, needle);
      if it == |mounts| { break; }
      NewerOnGuest(mounts, it);
      needle := mounts[it].guest;
    }
  }

  /** The inode resolve_mounts looks at after i rounds. */
  ghost function Needle(mounts: seq<Mount>, host: Inode, i: nat): Inode {
    if i == 0 then host
    else
      var n := Needle(mounts, host, i - 1);
      if NewestOn(mounts, n) == |mounts| then n else mounts[NewestOn(mounts, n)].guest
  }

  /** Were a guest not fresh, the search could go on for ever: for instance, two inodes mounted on each other. */
  lemma {:induction false} StaleGuestsLoop(i: nat)
    ensures var mounts := [Mount(2, 1), Mount(1, 2)];
      !Reachable(mounts) && NewestOn(mounts, Needle(mounts, 1, i)) < |mounts|
  {
    var mounts := [Mount(2, 1), Mount(1, 2)];
    assert mounts[1..] == [Mount(1, 2)] && mounts[1..][0].host == mounts[0].guest;
    assert NewestOn(mounts, 2) == 0 && NewestOn(mounts, 1) == 1;
    NeedleAlternates(i);
  }

  lemma {:induction false} NeedleAlternates(i: nat)
    ensures Needle([Mount(2, 1), Mount(1, 2)], 1, i) == if i % 2 == 0 then 1 else 2
  {
    var mounts := [Mount(2, 1), Mount(1, 2)];
    if i > 0 {
      NeedleAlternates(i - 1);
      assert mounts[1..] == [Mount(1, 2)];
      assert NewestOn(mounts, 2) == 0 && NewestOn(mounts, 1) == 1;
    }
  }

  // ------------------------------------------------------------------ resolution

  datatype Kind = Directory | Symlink | Other

  /** The file systems as resolution sees them, unchanged while it runs. */
  datatype Tree = Tree(
    root: Inode,
    kind: Inode -> Kind,
    child: (Inode, string) -> Result<Inode>,   // fops->lookup_child
    content: Inode -> Result<string>,          // of a symbolic link
    mounts: seq<Mount>)

  /** Link of a chain; the inode is missing in a last component that does not exist. */
  datatype Step = Step(basename: string, inode: Option<Inode>)

  /** A chain of components under the root directory. */
  type Path = seq<Step>

  datatype Flags = Flags(allowNoent: bool, nofollow: bool, nofollowNoerror: bool)

  function Last(t: Tree, path: Path): Option<Inode> {
    if path == [] then Some(t.root) else path[|path| - 1].inode
  }

  /** inode_lookup_child */
  function LookupChild(t: Tree, n: Inode, name: string): Result<Inode> {
    if t.kind(n) != Directory then Err(ENOTDIR) else t.child(n, name)
  }

  /** What follow_symlink reads of a link. */
  function LinkTarget(t: Tree, n: Inode): Result<string> {
    match t.content(n)
    case Ok(s) => Ok(if |s| <= SYMLINK_MAX then s else s[..SYMLINK_MAX])
    case Err(e) => Err(e)
  }

  predicate IsAbsolute(pathname: string) {
    pathname != "" && pathname[0] == SEPARATOR
  }

  /** A chain whose inodes all exist, but perhaps for the last. */
  ghost predicate Solid(path: Path) {
    forall i :: 0 <= i < |path| ==> path[i].inode.Some?
  }

  /**
    Where the components lead from a path. Links followed so far are counted by
    `depth`; `slashes` says that the pathname ends in two separators or more,
    for then nothing is appended to the target of a link in the last place.
  */
  ghost function Walk(t: Tree, path: Path, names: seq<string>, slashes: bool, flags: Flags, depth: nat): Result<Path>
    requires Reachable(t.mounts) && Solid(path) && depth <= SYMLOOP_MAX + 1
    decreases SYMLOOP_MAX + 1 - depth, |names|
  {
    if names == [] then Ok(path)
    else
      var name, rest := names[0], names[1..];
      if name == "." then Walk(t, path, rest, slashes, flags, depth)
      else if name == ".." then Walk(t, if path == [] then [] else path[..|path| - 1], rest, slashes, flags, depth)
      else
        match LookupChild(t, Last(t, path).value, name)
        case Err(e) =>
          if e == ENOENT && flags.allowNoent && rest == [] then Ok(path + [Step(name, None)]) else Err(e)
        case Ok(child) =>
          var n := MountedOn(t.mounts, child);
          if t.kind(n) != Symlink then Walk(t, path + [Step(name, Some(n))], rest, slashes, flags, depth)
          else if depth > SYMLOOP_MAX then Err(ELOOP)
          else if rest != [] || !flags.nofollow then
            match LinkTarget(t, n)
            case Err(e) => Err(e)
            case Ok(target) =>
              Walk(t, if target == "" || IsAbsolute(target) then [] else path,
                   Components(target) + (if rest == [] && !slashes then ["."] else rest), slashes, flags, depth + 1)
          else if !flags.nofollowNoerror then Err(ELOOP)
          else Walk(t, path + [Step(name, Some(n))], rest, slashes, flags, depth)
  }

  /** vfs_resolve_path_at */
  ghost function Resolved(t: Tree, base: Path, pathname: string, flags: Flags, depth: nat): Result<Path>
    requires Reachable(t.mounts) && Solid(base) && depth <= SYMLOOP_MAX + 1
  {
    Walk(t, if IsAbsolute(pathname) then [] else base, Components(pathname), EndsDouble(pathname), flags, depth)
  }

  // ------------------------------------------------------------- number of links

  /** How many links resolution follows. */
  ghost function LinksFollowed(t: Tree, path: Path, names: seq<string>, slashes: bool, flags: Flags, depth: nat): nat
    requires Reachable(t.mounts) && Solid(path) && depth <= SYMLOOP_MAX + 1
    decreases SYMLOOP_MAX + 1 - depth, |names|
  {
    if names == [] then 0
    else
      var name, rest := names[0], names[1..];
      if name == "." then LinksFollowed(t, path, rest, slashes, flags, depth)
      else if name == ".." then
        LinksFollowed(t, if path == [] then [] else path[..|path| - 1], rest, slashes, flags, depth)
      else
        match LookupChild(t, Last(t, path).value, name)
        case Err(_) => 0
        case Ok(child) =>
          var n := MountedOn(t.mounts, child);
          if t.kind(n) != Symlink then LinksFollowed(t, path + [Step(name, Some(n))], rest, slashes, flags, depth)
          else if depth > SYMLOOP_MAX then 0
          else if rest != [] || !flags.nofollow then
            match LinkTarget(t, n)
            case Err(_) => 1
            case Ok(target) =>
              1 + LinksFollowed(t, if target == "" || IsAbsolute(target) then [] else path,
                                Components(target) + (if rest == [] && !slashes then ["."] else rest),
                                slashes, flags, depth + 1)
          else 0
  }

  /** At most SYMLOOP_MAX + 1 links are followed, in any tree. */
  lemma {:induction false} FewLinks(t: Tree, path: Path, names: seq<string>, slashes: bool, flags: Flags, depth: nat)
    requires Reachable(t.mounts) && Solid(path) && depth <= SYMLOOP_MAX + 1
    ensures LinksFollowed(t, path, names, slashes, flags, depth) <= SYMLOOP_MAX + 1 - depth
    decreases SYMLOOP_MAX + 1 - depth, |names|
  {
    if names != [] {
      var name, rest := names[0], names[1..];
      if name == "." { FewLinks(t, path, rest, slashes, flags, depth); }
      else if name == ".." { FewLinks(t, if path == [] then [] else path[..|path| - 1], rest, slashes, flags, depth); }
      else {
        match LookupChild(t, Last(t, path).value, name)
        case Err(_) =>
        case Ok(child) =>
          var n := MountedOn(t.mounts, child);
          if t.kind(n) != Symlink { FewLinks(t, path + [Step(name, Some(n))], rest, slashes, flags, depth); }
          else if depth <= SYMLOOP_MAX && (rest != [] || !flags.nofollow) && LinkTarget(t, n).Ok? {
            var target := LinkTarget(t, n).value;
            FewLinks(t, if target == "" || IsAbsolute(target) then [] else path,
                     Components(target) + (if rest == [] && !slashes then ["."] else rest), slashes, flags, depth + 1);
          }
      }
    }
  }

  // --------------------------------------------------------------------- the code

  /** follow_symlink, given a link that exists. */
  method FollowSymlink(t: Tree, parent: Path, n: Inode, rest: string, flags: Flags, depth: nat)
    returns (r: Result<Path>, ghost links: nat)
    requires Reachable(t.mounts) && Solid(parent) && depth <= SYMLOOP_MAX && rest != ""
    ensures match t.content(n)
            case Err(e) => r == Err(e) && links == 1
            case Ok(all) =>
              var target := if |all| <= SYMLINK_MAX then all else all[..SYMLINK_MAX];
              var from := if target == "" || IsAbsolute(target) then [] else parent;
              var names := Components(target) + Components(rest);
              && r == Walk(t, from, names, DoubleBehind(rest), flags, depth + 1)
              && links == 1 + LinksFollowed(t, from, names, DoubleBehind(rest), flags, depth + 1)
    decreases SYMLOOP_MAX + 1 - depth, 0
  {
    hide Walk, LinksFollowed, Components, EndsDouble, DoubleBehind, Reachable;
    links := 1;
    match LinkTarget(t, n)
    case Err(e) => r := Err(e);
    case Ok(target) =>
      var pathname := target + [SEPARATOR] + rest;
      ComponentsJoin(target, rest);
      DoubleBehindJoin(target, rest);
      r, links := ResolvePathAt(t, parent, pathname, flags, depth + 1);
      links := links + 1;
  }

  lemma DoubleBehindJoin(target: string, rest: string)
    requires rest != ""
    ensures EndsDouble(target + [SEPARATOR] + rest) <==> DoubleBehind(rest)
  {
    NoComponents(rest);
    if |rest| == 1 { assert rest == [rest[0]]; }
  }

  /**
    resolve_path_at: component by component, the chain replaced as it goes. It
    terminates in every tree, and calls follow_symlink only with a depth that
    its assertion admits. `links` counts these calls, its own and those within.
  */
  method ResolvePathAt(t: Tree, base: Path, pathname: string, flags: Flags, depth: nat)
    returns (r: Result<Path>, ghost links: nat)
    requires Reachable(t.mounts) && Solid(base) && depth <= SYMLOOP_MAX + 1
    ensures r == Resolved(t, base, pathname, flags, depth)
    ensures links == LinksFollowed(t, if IsAbsolute(pathname) then [] else base,
                                   Components(pathname), EndsDouble(pathname), flags, depth)
    ensures links <= SYMLOOP_MAX + 1 - depth
    decreases SYMLOOP_MAX + 1 - depth, 2
  {
    var path := if IsAbsolute(pathname) then [] else base;
    ghost var all := LinksFollowed(t, path, Components(pathname), EndsDouble(pathname), flags, depth);
    FewLinks(t, path, Components(pathname), EndsDouble(pathname), flags, depth);
    links := 0;
    var component, saved := NextComponent(pathname);
    ghost var names, slashes := Components(pathname), EndsDouble(pathname);
    while component.Some?
      invariant Solid(path)
      invariant component.None? ==> names == []
      invariant component.Some? ==> names == [component.value] + Components(if saved.None? then "" else saved.value)
      invariant component.Some? ==> (slashes <==> DoubleBehind(if saved.None? then "" else saved.value))
      invariant Walk(t, path, names, slashes, flags, depth) == Resolved(t, base, pathname, flags, depth)
      invariant LinksFollowed(t, path, names, slashes, flags, depth) == all && links == 0
      decreases |names|
    {
      var rest := if saved.None? then "" else saved.value;
      var done;
      done, path, r, links := OneComponent(t, path, component.value, rest, flags, depth, names);
      if done { return; }
      names := names[1..];
      if saved.None? {
        component := None;
      } else {
        component, saved := NextComponent(saved.value);
      }
    }
    r := Ok(path);
  }

  /** A "." stands for a rest that is empty. */
  lemma RestOrDot(rest: string)
    ensures var rest' := if rest == "" then "." else rest;
      && Components(rest') == (if Components(rest) == [] && !DoubleBehind(rest) then ["."] else Components(rest))
      && DoubleBehind(rest') == DoubleBehind(rest)
  {
    ComponentsOfName(".", "");
    assert "." + "" == ".";
  }

  /** Two walks lead to the same result, over as many links. */
  ghost predicate SameWalk(t: Tree, p: Path, ps: seq<string>, q: Path, qs: seq<string>,
                           slashes: bool, flags: Flags, depth: nat)
    requires Reachable(t.mounts) && Solid(p) && Solid(q) && depth <= SYMLOOP_MAX + 1
  {
    && Walk(t, p, ps, slashes, flags, depth) == Walk(t, q, qs, slashes, flags, depth)
    && LinksFollowed(t, p, ps, slashes, flags, depth) == LinksFollowed(t, q, qs, slashes, flags, depth)
  }

  /** The body of the loop over the components: resolution is done, or goes on with another chain. */
  method OneComponent(t: Tree, path: Path, name: string, rest: string, flags: Flags, depth: nat,
                      ghost names: seq<string>)
    returns (done: bool, next: Path, r: Result<Path>, ghost links: nat)
    requires Reachable(t.mounts) && Solid(path) && depth <= SYMLOOP_MAX + 1 && names == [name] + Components(rest)
    ensures Solid(next)
    ensures done ==> r == Walk(t, path, names, DoubleBehind(rest), flags, depth)
    ensures done ==> links == LinksFollowed(t, path, names, DoubleBehind(rest), flags, depth)
    ensures !done ==> links == 0 && SameWalk(t, path, names, next, names[1..], DoubleBehind(rest), flags, depth)
    decreases SYMLOOP_MAX + 1 - depth, 1
  {
    hide Components, DoubleBehind, Reachable;
    done, next, r, links := false, path, Ok(path), 0;
    assert names[1..] == Components(rest);
    if name == "." { return; }
    if name == ".." {
      if path != [] { next := path[..|path| - 1]; }
      return;
    }
    var inode := LookupChild(t, Last(t, path).value, name);
    var hasMore := HasMore(rest);
    if flags.allowNoent && inode == Err(ENOENT) {
      return true, path, if hasMore then Err(ENOENT) else Ok(path + [Step(name, None)]), 0;
    }
    if inode.Err? { return true, path, Err(inode.error), 0; }
    var n := ResolveMounts(t.mounts, inode.value);
    if t.kind(n) == Symlink {
      if depth > SYMLOOP_MAX { return true, path, Err(ELOOP), 0; }
      if hasMore || !flags.nofollow {
        RestOrDot(rest);
        var rest' := if rest == "" then "." else rest;
        r, links := FollowSymlink(t, path, n, rest', flags, depth);
        return true, path, r, links;
      }
      if !flags.nofollowNoerror { return true, path, Err(ELOOP), 0; }
    }
    next := path + [Step(name, Some(n))];
  }

  /** The scan for anything but separators in what is left of the pathname. */
  method HasMore(rest: string) returns (more: bool)
    ensures more <==> Components(rest) != []
  {
    NoComponents(rest);
    for i := 0 to |rest|
      invariant forall k :: 0 <= k < i ==> rest[k] == SEPARATOR
    {
      if rest[i] != SEPARATOR { return true; }
    }
    more := false;
  }

  // ------------------------------------------------------ one pathname behind another

  /** What a component does when others follow it: an end, or another chain with names to walk over first. */
  datatype Turn = Stop(error: Errno) | Turn(path: Path, names: seq<string>, links: nat)

  ghost function Turned(t: Tree, path: Path, name: string, depth: nat): (r: Turn)
    requires Reachable(t.mounts) && Solid(path) && depth <= SYMLOOP_MAX + 1
    ensures r.Turn? ==> Solid(r.path) && r.links <= 1 && depth + r.links <= SYMLOOP_MAX + 1
    ensures r.Turn? && r.links == 0 ==> r.names == []
  {
    if name == "." then Turn(path, [], 0)
    else if name == ".." then Turn(if path == [] then [] else path[..|path| - 1], [], 0)
    else
      match LookupChild(t, Last(t, path).value, name)
      case Err(e) => Stop(e)
      case Ok(child) =>
        var n := MountedOn(t.mounts, child);
        if t.kind(n) != Symlink then Turn(path + [Step(name, Some(n))], [], 0)
        else if depth > SYMLOOP_MAX then Stop(ELOOP)
        else match LinkTarget(t, n)
          case Err(e) => Stop(e)
          case Ok(target) =>
            Turn(if target == "" || IsAbsolute(target) then [] else path, Components(target), 1)
  }

  lemma WalkTurns(t: Tree, path: Path, names: seq<string>, slashes: bool, flags: Flags, depth: nat)
    requires Reachable(t.mounts) && Solid(path) && depth <= SYMLOOP_MAX + 1 && |names| > 1
    ensures match Turned(t, path, names[0], depth)
      case Stop(e) => Walk(t, path, names, slashes, flags, depth) == Err(e)
      case Turn(p, ns, l) =>
        && Walk(t, path, names, slashes, flags, depth) == Walk(t, p, ns + names[1..], slashes, flags, depth + l)
        && LinksFollowed(t, path, names, slashes, flags, depth)
           == l + LinksFollowed(t, p, ns + names[1..], slashes, flags, depth + l)
  {
    hide Components, Reachable, LinkTarget, LookupChild;
    assert [] + names[1..] == names[1..];
  }

  lemma DotWalk(t: Tree, path: Path, slashes: bool, flags: Flags, depth: nat)
    requires Reachable(t.mounts) && Solid(path) && depth <= SYMLOOP_MAX + 1
    ensures Walk(t, path, ["."], slashes, flags, depth) == Ok(path)
    ensures LinksFollowed(t, path, ["."], slashes, flags, depth) == 0
    ensures Walk(t, path, [".."], slashes, flags, depth) == Ok(if path == [] then [] else path[..|path| - 1])
  {
    assert ["."][1..] == [] && [".."][1..] == [];
  }

  /** Walking over a and then b: over b from where a leads, the links of a being counted. */
  ghost predicate Continues(t: Tree, path: Path, a: seq<string>, b: seq<string>,
                            slashes: bool, flags: Flags, depth: nat)
    requires Reachable(t.mounts) && Solid(path) && depth <= SYMLOOP_MAX + 1
  {
    var links := LinksFollowed(t, path, a + ["."], slashes, flags, depth);
    match Walk(t, path, a + ["."], slashes, flags, depth)
    case Err(e) => Walk(t, path, a + b, slashes, flags, depth) == Err(e)
    case Ok(q) =>
      && Solid(q) && depth + links <= SYMLOOP_MAX + 1
      && Walk(t, path, a + b, slashes, flags, depth) == Walk(t, q, b, slashes, flags, depth + links)
  }

  lemma {:induction false} WalkThen(t: Tree, path: Path, a: seq<string>, b: seq<string>,
                                    slashes: bool, flags: Flags, depth: nat)
    requires Reachable(t.mounts) && Solid(path) && depth <= SYMLOOP_MAX + 1 && b != []
    ensures Continues(t, path, a, b, slashes, flags, depth)
    decreases SYMLOOP_MAX + 1 - depth, |a|
  {
    hide Walk, LinksFollowed, Turned, Reachable;
    if a == [] {
      DotWalk(t, path, slashes, flags, depth);
      assert a + ["."] == ["."] && a + b == b;
    } else {
      var rest := a[1..];
      assert (a + ["."])[1..] == rest + ["."] && (a + b)[1..] == rest + b;
      WalkTurns(t, path, a + ["."], slashes, flags, depth);
      WalkTurns(t, path, a + b, slashes, flags, depth);
      match Turned(t, path, a[0], depth)
      case Stop(_) =>
      case Turn(p, ns, l) =>
        assert ns + (rest + ["."]) == ns + rest + ["."] && ns + (rest + b) == ns + rest + b;
        WalkThen(t, p, ns + rest, b, slashes, flags, depth + l);
    }
  }

  lemma Behind(a: string, b: string)
    requires b != "" && b[0] != SEPARATOR
    ensures EndsDouble(a + "/" + b) <==> EndsDouble(b)
    ensures IsAbsolute(a + "/" + b) <==> a == "" || IsAbsolute(a)
    ensures Components(a + "/" + b) == Components(a) + Components(b) && Components(b) != [] && !IsAbsolute(b)
    ensures a + "/" + b == a + ("/" + b)
  {
    hide Components;
    var s := a + [SEPARATOR] + b;
    assert a + "/" + b == s && a + ("/" + b) == s;
    ComponentsJoin(a, b);
    NoComponents(b);
    assert b[0] in b;
    assert s[|s| - 1] == b[|b| - 1] && s[|s| - 2] == if |b| == 1 then SEPARATOR else b[|b| - 2];
    assert s[0] == if a == "" then SEPARATOR else a[0];
  }

  lemma SingleDot()
    ensures Components(".") == ["."] && !EndsDouble(".") && "/" + "." == "/."
    ensures Components("..") == [".."] && "/" + ".." == "/.."
  {
    ComponentsOfName(".", "");
    ComponentsOfName("..", "");
    assert "." + "" == "." && ".." + "" == "..";
  }

  /** How many links resolution of the pathname follows. */
  ghost function LinksOf(t: Tree, base: Path, pathname: string, flags: Flags, depth: nat): nat
    requires Reachable(t.mounts) && Solid(base) && depth <= SYMLOOP_MAX + 1
  {
    LinksFollowed(t, if IsAbsolute(pathname) then [] else base,
                  Components(pathname), EndsDouble(pathname), flags, depth)
  }

  /**
    Resolving a/b is resolving b from where a/. leads, the links followed on the
    way being counted; where a/. leads nowhere, so does a/b.
  */
  lemma ResolveThen(t: Tree, base: Path, a: string, b: string, flags: Flags, depth: nat)
    requires Reachable(t.mounts) && Solid(base) && depth <= SYMLOOP_MAX + 1 && b != "" && b[0] != SEPARATOR
    ensures match Resolved(t, base, a + "/.", flags, depth)
      case Err(e) => Resolved(t, base, a + "/" + b, flags, depth) == Err(e)
      case Ok(q) =>
        var links := LinksOf(t, base, a + "/.", flags, depth);
        && Solid(q) && depth + links <= SYMLOOP_MAX + 1
        && Resolved(t, base, a + "/" + b, flags, depth) == Resolved(t, q, b, flags, depth + links)
  {
    hide Walk, LinksFollowed, Components, Reachable, EndsDouble, IsAbsolute;
    var path := if a == "" || IsAbsolute(a) then [] else base;
    Behind(a, ".");
    Behind(a, b);
    SingleDot();
    WalkThen(t, path, Components(a), Components(b), EndsDouble(b), flags, depth);
    SlashesUnused(t, path, Components(a), EndsDouble(b), flags, depth);
  }

  /** The separators at the end do not matter to a walk that ends in ".". */
  lemma {:induction false} SlashesUnused(t: Tree, path: Path, a: seq<string>, slashes: bool, flags: Flags, depth: nat)
    requires Reachable(t.mounts) && Solid(path) && depth <= SYMLOOP_MAX + 1
    ensures Walk(t, path, a + ["."], slashes, flags, depth) == Walk(t, path, a + ["."], false, flags, depth)
    ensures Walk(t, path, a + ["."], slashes, flags, depth).Ok? ==>
      LinksFollowed(t, path, a + ["."], slashes, flags, depth)
      == LinksFollowed(t, path, a + ["."], false, flags, depth)
    decreases SYMLOOP_MAX + 1 - depth, |a|
  {
    hide Walk, LinksFollowed, Turned, Reachable;
    if a == [] {
      DotWalk(t, path, slashes, flags, depth);
      DotWalk(t, path, false, flags, depth);
      assert a + ["."] == ["."];
    } else {
      var rest := a[1..];
      assert (a + ["."])[1..] == rest + ["."];
      WalkTurns(t, path, a + ["."], slashes, flags, depth);
      WalkTurns(t, path, a + ["."], false, flags, depth);
      match Turned(t, path, a[0], depth)
      case Stop(_) =>
      case Turn(p, ns, l) =>
        assert ns + (rest + ["."]) == ns + rest + ["."];
        SlashesUnused(t, p, ns + rest, slashes, flags, depth + l);
    }
  }

  /** ".." leads to the parent of where "." leads, and from the root to the root. */
  lemma ParentDirectory(t: Tree, base: Path, s: string, flags: Flags)
    requires Reachable(t.mounts) && Solid(base)
    ensures Resolved(t, base, s + "/..", flags, 0) ==
      match Resolved(t, base, s + "/.", flags, 0)
      case Err(e) => Err(e)
      case Ok(q) => Ok(if q == [] then [] else q[..|q| - 1])
  {
    hide Components, Reachable, LinksFollowed, Walk;
    SingleDot();
    Behind(s, "..");
    ResolveThen(t, base, s, "..", flags, 0);
    if Resolved(t, base, s + "/.", flags, 0).Ok? {
      var q, links := Resolved(t, base, s + "/.", flags, 0).value, LinksOf(t, base, s + "/.", flags, 0);
      DotWalk(t, q, EndsDouble(".."), flags, links);
    }
  }

  /** A name behind something that is no directory gives ENOTDIR, whatever the flags. */
  lemma NotADirectory(t: Tree, base: Path, s: string, name: string, flags: Flags)
    requires Reachable(t.mounts) && Solid(base) && Proper(name)
    requires match Resolved(t, base, s + "/.", flags, 0)
      case Err(_) => false
      case Ok(q) => Last(t, q).Some? && t.kind(Last(t, q).value) != Directory
    ensures Resolved(t, base, s + "/" + name, flags, 0) == Err(ENOTDIR)
  {
    hide Reachable, LinksFollowed;
    ResolveThen(t, base, s, name, flags, 0);
    ComponentsOfName(name, "");
    assert name + "" == name;
    hide Components;
  }

  // ------------------------------------------------------ links that lead nowhere

  /** A directory in which every name is a link to itself. */
  ghost predicate SelfLinks(t: Tree, dir: Inode, link: Inode, name: string) {
    && t.kind(dir) == Directory && t.kind(link) == Symlink
    && t.child(dir, name) == Ok(link) && t.content(link) == Ok(name)
    && Proper(name) && |name| <= SYMLINK_MAX && t.mounts == []
  }

  /** A name that a component can have in a chain. */
  ghost predicate Proper(name: string) {
    name != "" && SEPARATOR !in name && name != "." && name != ".."
  }

  /** The bound is reached: a link to itself is followed SYMLOOP_MAX + 1 times, and then gives ELOOP. */
  lemma {:induction false} LinkToItself(t: Tree, path: Path, link: Inode, name: string, more: bool,
                                        flags: Flags, depth: nat)
    requires Solid(path) && depth <= SYMLOOP_MAX + 1
    requires SelfLinks(t, Last(t, path).value, link, name) && (more || !flags.nofollow)
    ensures Reachable(t.mounts)
    ensures var names := if more then [name, "."] else [name];
      && Walk(t, path, names, false, flags, depth) == Err(ELOOP)
      && LinksFollowed(t, path, names, false, flags, depth) == SYMLOOP_MAX + 1 - depth
    decreases SYMLOOP_MAX + 1 - depth
  {
    var names := if more then [name, "."] else [name];
    assert name + "" == name;
    ComponentsOfName(name, "");
    assert !IsAbsolute(name);
    if depth <= SYMLOOP_MAX {
      assert [name] + ["."] == [name, "."];
      LinkToItself(t, path, link, name, true, flags, depth + 1);
    }
  }

  /** In `dir`, the name leads to a link, and the link to a name that is not there. */
  ghost predicate Dangles(t: Tree, dir: Inode, name: string, link: Inode, target: string)
    requires Reachable(t.mounts)
  {
    && t.kind(dir) == Directory && t.child(dir, name).Ok? && MountedOn(t.mounts, t.child(dir, name).value) == link
    && t.kind(link) == Symlink && t.content(link) == Ok(target) && t.child(dir, target) == Err(ENOENT)
    && Proper(name) && Proper(target) && |target| <= SYMLINK_MAX
  }

  /** A component, with any number of separators behind it. */
  lemma NameAndSeparators(name: string, tail: string)
    requires Proper(name) && forall i :: 0 <= i < |tail| ==> tail[i] == SEPARATOR
    ensures Components(name + tail) == [name] && !IsAbsolute(name + tail)
    ensures EndsDouble(name + tail) <==> |tail| >= 2
  {
    NoComponents(tail);
    ComponentsOfName(name, tail);
    var s := name + tail;
    assert |tail| < 2 ==> s[|s| - 1 - |tail|] == name[|name| - 1];
  }

  /**
    A link to a missing name, with any flags and any separators behind it. Where
    it is followed it gives ENOENT, because "." is appended to its target; the
    missing name is allowed exactly if O_ALLOW_NOENT is given and at least two
    separators follow the link.
  */
  lemma DanglingLink(t: Tree, path: Path, name: string, tail: string, link: Inode, target: string, flags: Flags)
    requires Reachable(t.mounts) && Solid(path) && Dangles(t, Last(t, path).value, name, link, target)
    requires forall i :: 0 <= i < |tail| ==> tail[i] == SEPARATOR
    ensures Resolved(t, path, name + tail, flags, 0) ==
      if flags.nofollow then (if flags.nofollowNoerror then Ok(path + [Step(name, Some(link))]) else Err(ELOOP))
      else if flags.allowNoent && |tail| >= 2 then Ok(path + [Step(target, None)])
      else Err(ENOENT)
  {
    NameAndSeparators(name, tail);
    NameAndSeparators(target, "");
    assert target + "" == target;
    assert [target] + ["."] == [target, "."] && [target] + [] == [target];
    assert Walk(t, path, [target, "."], false, flags, 1) == Err(ENOENT);
    assert Walk(t, path, [target], true, flags, 1) ==
      if flags.allowNoent then Ok(path + [Step(target, None)]) else Err(ENOENT);
    assert [name][1..] == [] && LinkTarget(t, link) == Ok(target);
    var found := path + [Step(name, Some(link))];
    assert Walk(t, found, [], |tail| >= 2, flags, 0) == Ok(found);
    assert Walk(t, path, [name], |tail| >= 2, flags, 0) == Resolved(t, path, name + tail, flags, 0);
  }

  // ------------------------------------------------------------------- round trip

  /** The directory that component i is looked up in. */
  ghost function ParentOf(t: Tree, path: Path, i: nat): Option<Inode>
    requires i <= |path|
  {
    if i == 0 then Some(t.root) else path[i - 1].inode
  }

  /**
    Component i is what lookup and mount following give in its parent; only the
    last can be a link, if links are not followed, or be missing.
  */
  ghost predicate GoodStep(t: Tree, path: Path, i: nat, flags: Flags)
    requires Reachable(t.mounts) && i < |path|
  {
    && Proper(path[i].basename) && ParentOf(t, path, i).Some?
    && t.kind(ParentOf(t, path, i).value) == Directory
    && match t.child(ParentOf(t, path, i).value, path[i].basename)
       case Ok(child) =>
         && path[i].inode == Some(MountedOn(t.mounts, child))
         && (t.kind(path[i].inode.value) == Symlink ==> i + 1 == |path| && flags.nofollow && flags.nofollowNoerror)
       case Err(e) => path[i].inode == None && i + 1 == |path| && e == ENOENT && flags.allowNoent
  }

  ghost predicate WellFormed(t: Tree, path: Path, flags: Flags)
    requires Reachable(t.mounts)
  {
    forall i :: 0 <= i < |path| ==> GoodStep(t, path, i, flags)
  }

  /** A chain to start from: it exists, and no component is a link. */
  ghost predicate GoodBase(t: Tree, path: Path)
    requires Reachable(t.mounts)
    ensures GoodBase(t, path) ==> Solid(path)
  {
    StrictIsSolid(t, path);
    WellFormed(t, path, Flags(false, false, false))
  }

  lemma StrictIsSolid(t: Tree, path: Path)
    requires Reachable(t.mounts)
    ensures WellFormed(t, path, Flags(false, false, false)) ==> Solid(path)
  {
    if WellFormed(t, path, Flags(false, false, false)) {
      forall i | 0 <= i < |path| ensures path[i].inode.Some? {
        assert GoodStep(t, path, i, Flags(false, false, false));
      }
    }
  }

  lemma GoodPrefix(t: Tree, path: Path, n: nat)
    requires Reachable(t.mounts) && GoodBase(t, path) && n <= |path|
    ensures GoodBase(t, path[..n])
  {
    var f := Flags(false, false, false);
    forall i | 0 <= i < n ensures GoodStep(t, path[..n], i, f) { assert GoodStep(t, path, i, f); }
  }

  lemma GoodExtend(t: Tree, path: Path, step: Step, flags: Flags)
    requires Reachable(t.mounts) && GoodBase(t, path) && GoodStep(t, path + [step], |path|, flags)
    ensures WellFormed(t, path + [step], flags)
  {
    var q, f := path + [step], Flags(false, false, false);
    forall i | 0 <= i < |q| ensures GoodStep(t, q, i, flags) {
      if i < |path| {
        assert GoodStep(t, path, i, f);
        assert ParentOf(t, q, i) == ParentOf(t, path, i);
      }
    }
  }

  ghost predicate AllProper(names: seq<string>) {
    forall i :: 0 <= i < |names| ==> names[i] != "" && SEPARATOR !in names[i]
  }

  lemma {:induction false} ComponentsProper(s: string)
    ensures AllProper(Components(s))
    decreases |s|
  {
    if s != "" {
      if s[0] == SEPARATOR { ComponentsProper(s[1..]); }
      else {
        ComponentsProper(s[ComponentEnd(s)..]);
      }
    }
  }

  /** Resolution yields chains of looked-up components only. */
  lemma {:induction false} WalkWellFormed(t: Tree, path: Path, names: seq<string>, slashes: bool,
                                          flags: Flags, depth: nat)
    requires Reachable(t.mounts) && GoodBase(t, path) && depth <= SYMLOOP_MAX + 1 && AllProper(names)
    ensures Walk(t, path, names, slashes, flags, depth).Ok? ==>
      WellFormed(t, Walk(t, path, names, slashes, flags, depth).value, flags)
    decreases SYMLOOP_MAX + 1 - depth, |names|, 1
  {
    if names == [] {
      forall i | 0 <= i < |path| ensures GoodStep(t, path, i, flags) {
        assert GoodStep(t, path, i, Flags(false, false, false));
      }
      return;
    }
    var name, rest := names[0], names[1..];
    if name == "." {
      WalkWellFormed(t, path, rest, slashes, flags, depth);
    } else if name == ".." {
      if path != [] { GoodPrefix(t, path, |path| - 1); }
      WalkWellFormed(t, if path == [] then [] else path[..|path| - 1], rest, slashes, flags, depth);
    } else {
      WalkWellFormedStep(t, path, names, slashes, flags, depth);
    }
  }

  lemma ChildStep(t: Tree, path: Path, name: string, child: Inode, flags: Flags)
    requires Reachable(t.mounts) && Last(t, path).Some? && Proper(name)
    requires LookupChild(t, Last(t, path).value, name) == Ok(child)
    requires t.kind(MountedOn(t.mounts, child)) == Symlink ==> flags.nofollow && flags.nofollowNoerror
    ensures GoodStep(t, path + [Step(name, Some(MountedOn(t.mounts, child)))], |path|, flags)
  {
  }

  lemma MissingStep(t: Tree, path: Path, name: string, flags: Flags)
    requires Reachable(t.mounts) && Last(t, path).Some? && Proper(name) && flags.allowNoent
    requires LookupChild(t, Last(t, path).value, name) == Err(ENOENT)
    ensures GoodStep(t, path + [Step(name, None)], |path|, flags)
  {
    assert (path + [Step(name, None)])[|path|] == Step(name, None);
  }

  lemma {:induction false} WalkWellFormedStep(t: Tree, path: Path, names: seq<string>, slashes: bool,
                                              flags: Flags, depth: nat)
    requires Reachable(t.mounts) && GoodBase(t, path) && depth <= SYMLOOP_MAX + 1 && AllProper(names)
    requires names != [] && names[0] != "." && names[0] != ".."
    ensures Walk(t, path, names, slashes, flags, depth).Ok? ==>
      WellFormed(t, Walk(t, path, names, slashes, flags, depth).value, flags)
    decreases SYMLOOP_MAX + 1 - depth, |names|, 0
  {
    hide GoodStep, WellFormed, LinkTarget, Components;
    var name, rest := names[0], names[1..];
    match LookupChild(t, Last(t, path).value, name)
    case Err(e) =>
      if e == ENOENT && flags.allowNoent && rest == [] {
        MissingStep(t, path, name, flags);
        GoodExtend(t, path, Step(name, None), flags);
      }
    case Ok(child) =>
      var n := MountedOn(t.mounts, child);
      var step := Step(name, Some(n));
      if t.kind(n) != Symlink {
        ChildStep(t, path, name, child, Flags(false, false, false));
        GoodExtend(t, path, step, Flags(false, false, false));
        WalkWellFormed(t, path + [step], rest, slashes, flags, depth);
      } else if depth <= SYMLOOP_MAX {
        if rest != [] || !flags.nofollow {
          if LinkTarget(t, n).Ok? {
            var target := LinkTarget(t, n).value;
            ComponentsProper(target);
            WalkWellFormed(t, if target == "" || IsAbsolute(target) then [] else path,
                           Components(target) + (if rest == [] && !slashes then ["."] else rest),
                           slashes, flags, depth + 1);
          }
        } else if flags.nofollowNoerror {
          ChildStep(t, path, name, child, flags);
          GoodExtend(t, path, step, flags);
        }
      }
  }

  ghost function Names(path: Path): seq<string> {
    seq(|path|, i requires 0 <= i < |path| => path[i].basename)
  }

  /** The components, each behind a separator. */
  ghost function Joined(path: Path): string {
    if path == [] then "" else Joined(path[..|path| - 1]) + [SEPARATOR] + path[|path| - 1].basename
  }

  /** What path_to_string prints. */
  ghost function Printed(path: Path): string {
    if path == [] then [SEPARATOR] else Joined(path)
  }

  lemma {:induction false} PrintedComponents(path: Path)
    requires forall i :: 0 <= i < |path| ==> Proper(path[i].basename)
    ensures Components(Printed(path)) == Components(Joined(path)) == Names(path)
    ensures IsAbsolute(Printed(path)) && !EndsDouble(Printed(path))
  {
    if path != [] {
      var init, name := path[..|path| - 1], path[|path| - 1].basename;
      PrintedComponents(init);
      ComponentsJoin(Joined(init), name);
      assert name + "" == name;
      ComponentsOfName(name, "");
      assert Names(path) == Names(init) + [name];
      assert Joined(path)[|Joined(path)| - 1] == name[|name| - 1];
      if init != [] { assert Joined(path)[0] == Joined(init)[0]; }
    }
  }

  /** Walking the names of a chain from one of its ancestors leads back to it. */
  lemma {:induction false} WalkNames(t: Tree, path: Path, flags: Flags, k: nat)
    requires Reachable(t.mounts) && WellFormed(t, path, flags) && k <= |path|
    ensures Solid(path[..k]) ==> Walk(t, path[..k], Names(path)[k..], false, flags, 0) == Ok(path)
    decreases |path| - k
  {
    if k == |path| {
      assert path[..k] == path && Names(path)[k..] == [];
    } else if Solid(path[..k]) {
      var names := Names(path)[k..];
      assert names[0] == path[k].basename && names[1..] == Names(path)[k + 1..];
      assert GoodStep(t, path, k, flags);
      assert Last(t, path[..k]) == ParentOf(t, path, k);
      assert path[..k] + [path[k]] == path[..k + 1];
      if k + 1 == |path| {
        assert names[1..] == [] && path[..k + 1] == path;
      } else {
        WalkNames(t, path, flags, k + 1);
      }
    }
  }

  /**
    The string printed for a path that resolution gave, resolved again from any
    base with the same flags, gives the same names and inodes.
  */
  lemma RoundTrip(t: Tree, base: Path, pathname: string, flags: Flags, path: Path, base2: Path)
    requires Reachable(t.mounts) && GoodBase(t, base) && Solid(base2)
    requires Resolved(t, base, pathname, flags, 0) == Ok(path)
    ensures Resolved(t, base2, Printed(path), flags, 0) == Ok(path)
  {
    assert GoodBase(t, []);
    ComponentsProper(pathname);
    WalkWellFormed(t, if IsAbsolute(pathname) then [] else base, Components(pathname), EndsDouble(pathname), flags, 0);
    PrintsBack(t, path, flags, base2);
  }

  lemma PrintsBack(t: Tree, path: Path, flags: Flags, base: Path)
    requires Reachable(t.mounts) && WellFormed(t, path, flags) && Solid(base)
    ensures Resolved(t, base, Printed(path), flags, 0) == Ok(path)
  {
    forall i | 0 <= i < |path| ensures Proper(path[i].basename) { assert GoodStep(t, path, i, flags); }
    PrintedComponents(path);
    WalkNames(t, path, flags, 0);
    assert path[..0] == [] && Names(path)[0..] == Names(path);
  }

  /** With any other flags too, if the last component exists and is not a link. */
  lemma RoundTripAnyFlags(t: Tree, base: Path, pathname: string, flags: Flags, path: Path, base2: Path, flags2: Flags)
    requires Reachable(t.mounts) && GoodBase(t, base) && Solid(base2)
    requires Resolved(t, base, pathname, flags, 0) == Ok(path)
    requires Last(t, path).Some? && (path == [] || t.kind(Last(t, path).value) != Symlink)
    ensures Resolved(t, base2, Printed(path), flags2, 0) == Ok(path)
  {
    assert GoodBase(t, []);
    ComponentsProper(pathname);
    WalkWellFormed(t, if IsAbsolute(pathname) then [] else base, Components(pathname), EndsDouble(pathname), flags, 0);
    forall i | 0 <= i < |path| ensures GoodStep(t, path, i, flags2) { assert GoodStep(t, path, i, flags); }
    PrintsBack(t, path, flags2, base2);
  }

  lemma JoinedPrefix(path: Path, i: nat)
    requires 0 < i <= |path|
    ensures Joined(path[..i]) == Joined(path[..i - 1]) + [SEPARATOR] + path[i - 1].basename
  {
    assert path[..i][..i - 1] == path[..i - 1];
  }

  /** One round of path_to_string's second loop: a component is put in front of position p. */
  method PutBefore(buf: array<char>, p: nat, name: string) returns (q: nat)
    requires |name| + 1 <= p <= buf.Length
    modifies buf
    ensures q == p - |name| - 1 && buf[q..] == [SEPARATOR] + name + old(buf[p..])
  {
    q := p - |name|;
    for k := 0 to |name|
      invariant buf[p..] == old(buf[p..]) && buf[q..q + k] == name[..k]
    {
      buf[q + k] := name[k];
    }
    q := q - 1;
    buf[q] := SEPARATOR;
  }

  /** path_to_string's first loop, but for the place of the terminator. */
  method Measure(path: Path) returns (len: nat)
    ensures len == |Joined(path)|
  {
    assert path[..|path|] == path && Joined(path[..0]) == "";
    hide Joined;
    len := 0;
    var i := |path|;
    while i > 0
      invariant 0 <= i <= |path| && len + |Joined(path[..i])| == |Joined(path)|
    {
      JoinedPrefix(path, i);
      i := i - 1;
      len := len + |path[i].basename| + 1;
    }
  }

  /** A prefix of the path is printed as a prefix of the string. */
  lemma {:induction false} JoinedStarts(path: Path, i: nat)
    requires i <= |path|
    ensures Joined(path[..i]) <= Joined(path)
    decreases |path| - i
  {
    if i == |path| {
      assert path[..i] == path;
    } else {
      JoinedPrefix(path, i + 1);
      JoinedStarts(path, i + 1);
      hide Joined;
    }
  }

  /** What is behind component i - 1, with that component in front of it. */
  lemma JoinedBehind(path: Path, i: nat)
    requires 0 < i <= |path|
    ensures var q, p := |Joined(path[..i - 1])|, |Joined(path[..i])|;
      && p == q + 1 + |path[i - 1].basename| <= |Joined(path)|
      && Joined(path)[q..] == [SEPARATOR] + path[i - 1].basename + Joined(path)[p..]
  {
    JoinedPrefix(path, i);
    JoinedStarts(path, i);
    hide Joined;
    var whole, a := Joined(path), Joined(path[..i - 1]);
    var p := |Joined(path[..i])|;
    assert whole == Joined(path[..i]) + whole[p..];
    assert whole == a + ([SEPARATOR] + path[i - 1].basename + whole[p..]);
  }

  /** path_to_string: the string is measured, then filled from its end. */
  method PathToString(path: Path) returns (s: string)
    ensures s == Printed(path)
  {
    if path == [] { return [SEPARATOR]; }
    assert path[..|path|] == path && Joined(path[..0]) == "";
    hide Joined;
    var len := Measure(path);
    var buf := new char[len];
    var p, i := len, |path|;
    while i > 0
      invariant 0 <= i <= |path| && p == |Joined(path[..i])| <= buf.Length == |Joined(path)|
      invariant buf[p..] == Joined(path)[p..]
    {
      JoinedBehind(path, i);
      i := i - 1;
      p := PutBefore(buf, p, path[i].basename);
    }
    s := buf[..];
  }
}
