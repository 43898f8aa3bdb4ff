/** Path names: skipelem and namex. */
module Namex {
  import opened Links
  import opened LinkCalls

  // ----- What a path says -----

  // The first position from i on that is no slash, and the first that is one.
  function SkipSlashes(s: string, i: nat): (r: nat)
    requires i <= |s|
    ensures i <= r <= |s|
    decreases |s| - i
  {
    if i < |s| && s[i] == '/' then SkipSlashes(s, i + 1) else i
  }

  function SkipName(s: string, i: nat): (r: nat)
    requires i <= |s|
    ensures i <= r <= |s| && (i < |s| && s[i] != '/' ==> i < r)
    decreases |s| - i
  {
    if i < |s| && s[i] != '/' then SkipName(s, i + 1) else i
  }

  lemma SkipStops(s: string, i: nat)
    requires i <= |s|
    ensures var r := SkipSlashes(s, i); (r < |s| ==> s[r] != '/') && SkipSlashes(s, r) == r
    ensures var r := SkipName(s, i); r < |s| ==> s[r] == '/'
    decreases |s| - i
  {
    if i < |s| {
      SkipStops(s, i + 1);
    }
  }

  // The names between the slashes from i on, each cut to DIRSIZ.
  function Elems(s: string, i: nat): seq<string>
    requires i <= |s|
    decreases |s| - i
  {
    var p := SkipSlashes(s, i);
    var q := SkipName(s, p);
    if p == q then [] else [Short(s[p..q])] + Elems(s, q)
  }

  function Names(path: string): seq<string> {
    Elems(path, 0)
  }

  // From i on the first name is s[p..q], if p < q.
  predicate Piece(s: string, i: nat, p: nat, q: nat, name: string) {
    i <= |s| && p == SkipSlashes(s, i) && q == SkipName(s, p) && name == s[p..q]
  }

  lemma ElemsIs(s: string, i: nat, p: nat, q: nat, name: string)
    requires Piece(s, i, p, q, name)
    ensures Elems(s, i) == if p == q then [] else [Short(name)] + Elems(s, q)
  {
  }

  // Only what follows the slashes counts.
  lemma SameElems(s: string, i: nat, j: nat)
    requires i <= |s| && j <= |s| && SkipSlashes(s, i) == SkipSlashes(s, j)
    ensures Elems(s, i) == Elems(s, j)
  {
  }

  // s from off on reads as b.
  predicate Tail(s: string, off: nat, b: string) {
    |s| == off + |b| && s[off..] == b
  }

  lemma {:induction false} SkipsInTail(s: string, off: nat, b: string, i: nat)
    requires Tail(s, off, b) && i <= |b|
    ensures SkipSlashes(s, off + i) == off + SkipSlashes(b, i) && SkipName(s, off + i) == off + SkipName(b, i)
    decreases |b| - i
  {
    if i < |b| {
      assert s[off + i] == b[i];
      SkipsInTail(s, off, b, i + 1);
    }
  }

  lemma TailSlice(s: string, off: nat, b: string, p: nat, q: nat)
    requires Tail(s, off, b) && p <= q <= |b|
    ensures s[off + p..off + q] == b[p..q]
  {
    forall k | p <= k < q ensures s[off + k] == b[k] {
      assert s[off..][k] == b[k];
    }
  }

  lemma PieceInTail(s: string, off: nat, b: string, i: nat, p: nat, q: nat, name: string, i': nat, p': nat, q': nat)
    requires Tail(s, off, b) && Piece(b, i, p, q, name) && i' == off + i && p' == off + p && q' == off + q
    ensures Piece(s, i', p', q', name)
  {
    SkipsInTail(s, off, b, i);
    SkipsInTail(s, off, b, p);
    TailSlice(s, off, b, p, q);
  }

  lemma {:induction false} ElemsInTail(s: string, off: nat, b: string, i: nat, i': nat)
    requires Tail(s, off, b) && i <= |b| && i' == off + i
    ensures Elems(s, i') == Elems(b, i)
    decreases |b| - i
  {
    var p := SkipSlashes(b, i);
    var q := SkipName(b, p);
    var name, p', q' := b[p..q], off + p, off + q;
    ElemsIs(b, i, p, q, name);
    PieceInTail(s, off, b, i, p, q, name, i', p', q');
    ElemsIs(s, i', p', q', name);
    if p < q {
      ElemsInTail(s, off, b, q, q');
    }
  }

  // s is a, then a slash, then more.
  predicate Head(s: string, a: string) {
    |a| < |s| && s[..|a|] == a && s[|a|] == '/'
  }

  lemma {:induction false} SkipsInHead(s: string, a: string, i: nat)
    requires Head(s, a) && i <= |a|
    ensures SkipName(s, i) == SkipName(a, i)
    ensures SkipSlashes(a, i) < |a| ==> SkipSlashes(s, i) == SkipSlashes(a, i)
    ensures SkipSlashes(a, i) == |a| ==> SkipSlashes(s, i) == SkipSlashes(s, |a| + 1)
    decreases |a| - i
  {
    if i < |a| {
      assert s[i] == a[i];
      SkipsInHead(s, a, i + 1);
    }
  }

  lemma HeadSlice(s: string, a: string, p: nat, q: nat)
    requires Head(s, a) && p <= q <= |a|
    ensures s[p..q] == a[p..q]
  {
    forall k | p <= k < q ensures s[k] == a[k] {
      assert s[..|a|][k] == a[k];
    }
  }

  lemma PieceInHead(s: string, a: string, i: nat, p: nat, q: nat, name: string)
    requires Head(s, a) && Piece(a, i, p, q, name)
    ensures if p < |a| then Piece(s, i, p, q, name) && p < q else p == q && SkipSlashes(s, i) == SkipSlashes(s, |a| + 1)
  {
    SkipsInHead(s, a, i);
    SkipsInHead(s, a, p);
    SkipStops(a, i);
    HeadSlice(s, a, p, q);
  }

  lemma Grouped(x: string, u: seq<string>, v: seq<string>)
    ensures [x] + (u + v) == [x] + u + v
  {
  }

  lemma {:induction false} ElemsInHead(s: string, a: string, i: nat, n: nat)
    requires Head(s, a) && i <= |a| && n == |a| + 1
    ensures Elems(s, i) == Elems(a, i) + Elems(s, n)
    decreases |a| - i
  {
    var p := SkipSlashes(a, i);
    var q := SkipName(a, p);
    var name := a[p..q];
    ElemsIs(a, i, p, q, name);
    PieceInHead(s, a, i, p, q, name);
    if p < |a| {
      ElemsIs(s, i, p, q, name);
      ElemsInHead(s, a, q, n);
      Grouped(Short(name), Elems(a, q), Elems(s, n));
    } else {
      SameElems(s, i, n);
    }
  }

  /** A slash separates: the names of a/b are those of a followed by those of b. */
  lemma NamesSplit(a: string, b: string)
    ensures Names(a + "/" + b) == Names(a) + Names(b)
  {
    var s := a + "/" + b;
    assert s[|a| + 1..] == b && s[..|a|] == a;
    ElemsInHead(s, a, 0, |a| + 1);
    ElemsInTail(s, |a| + 1, b, 0, |a| + 1);
  }

  lemma {:induction false} NameToEnd(s: string, i: nat)
    requires i <= |s| && '/' !in s
    ensures SkipName(s, i) == |s| && SkipSlashes(s, i) == i
    decreases |s| - i
  {
    if i < |s| {
      assert s[i] in s;
      NameToEnd(s, i + 1);
    }
  }

  lemma OneName(s: string)
    requires s != "" && '/' !in s
    ensures Names(s) == [Short(s)]
  {
    NameToEnd(s, 0);
    NameToEnd(s, |s|);
    assert s[0..|s|] == s && Elems(s, |s|) == [];
  }

  function Join(names: seq<string>): string {
    if names == [] then "" else names[0] + "/" + Join(names[1..])
  }

  /** Writing names with slashes and reading them back gives the names, cut to DIRSIZ. */
  lemma {:induction false} JoinNames(names: seq<string>)
    requires forall k :: 0 <= k < |names| ==> names[k] != "" && '/' !in names[k]
    ensures Names(Join(names)) == seq(|names|, k requires 0 <= k < |names| => Short(names[k]))
  {
    if names != [] {
      JoinNames(names[1..]);
      NamesSplit(names[0], Join(names[1..]));
      OneName(names[0]);
    }
  }

  // The name at `at` and the start of the next one, which is the end of the path only after the last name.
  ghost predicate NextIs(path: string, at: int, next: int, name: string)
    requires 0 <= at <= |path|
  {
    if next == -1 then Elems(path, at) == []
    else at < next <= |path| && [name] + Elems(path, next) == Elems(path, at)
         && (next == |path| <==> Elems(path, next) == [])
  }

  // skipelem from position `at`: the name there and the start of the next one, or -1 if there is no name.
  method Skipelem(path: string, at: int) returns (next: int, name: string)
    requires 0 <= at <= |path|
    ensures NextIs(path, at, next, name)
  {
    var p := at;
    while p < |path| && path[p] == '/'
      invariant at <= p <= |path| && SkipSlashes(path, p) == SkipSlashes(path, at)
    {
      p := p + 1;
    }
    if p == |path| {
      return -1, "";
    }
    var s := p;
    while p < |path| && path[p] != '/'
      invariant s <= p <= |path| && SkipName(path, p) == SkipName(path, s)
    {
      p := p + 1;
    }
    var e, len := p, p - s;
    name := if len >= DIRSIZ then path[s..s + DIRSIZ] else path[s..s + len];
    while p < |path| && path[p] == '/'
      invariant e <= p <= |path| && SkipSlashes(path, p) == SkipSlashes(path, e)
    {
      p := p + 1;
    }
    next := p;
    Cut(path, at, s, e, next, name);
  }

  lemma Cut(path: string, at: nat, s: nat, e: nat, next: nat, name: string)
    requires at <= |path| && s == SkipSlashes(path, at) && e == SkipName(path, s) && s < e
             && next == SkipSlashes(path, e)
    requires name == if e - s >= DIRSIZ then path[s..s + DIRSIZ] else path[s..e]
    ensures NextIs(path, at, next, name)
  {
    var whole := path[s..e];
    assert name == Short(whole);
    ElemsIs(path, at, s, e, whole);
    SkipStops(path, e);
    SameElems(path, e, next);
    ElemsIs(path, next, next, SkipName(path, next), path[next..SkipName(path, next)]);
  }

  // ----- Where it leads -----

  // The inode that name has in directory d, or 0.
  ghost function Child(t: Table, d: int, name: string): int {
    if Absent(t, d, name) then 0 else var k :| FoundAt(t, d, name, k); EntAt(t, d, k).inum
  }

  lemma ChildIs(t: Table, d: int, name: string, k: int)
    requires DirOk(t, d) && FoundAt(t, d, name, k)
    ensures Child(t, d, name) == EntAt(t, d, k).inum && Child(t, d, name) != 0
  {
    assert !Absent(t, d, name);
    forall j | FoundAt(t, d, name, j) ensures j == k {
      assert Live(t, d, j) && Live(t, d, k);
    }
  }

  // From d along the names, through linked directories only; 0 if there is no way.
  ghost function Resolve(t: Table, d: int, names: seq<string>): int
    decreases |names|
  {
    if names == [] then d
    else if !Linked(t, d) || Child(t, d, names[0]) == 0 then 0
    else Resolve(t, Child(t, d, names[0]), names[1..])
  }

  // The linked directory in which the last name is to be found, or 0.
  ghost function ResolveParent(t: Table, d: int, names: seq<string>): int
    decreases |names|
  {
    if names == [] || !Linked(t, d) then 0
    else if |names| == 1 then d
    else if Child(t, d, names[0]) == 0 then 0
    else ResolveParent(t, Child(t, d, names[0]), names[1..])
  }

  /** The parent is what all names but the last lead to, if that is a linked directory. */
  lemma {:induction false} ParentIs(t: Table, d: int, names: seq<string>)
    requires names != [] && !Linked(t, 0)
    ensures var p := Resolve(t, d, names[..|names| - 1]); ResolveParent(t, d, names) == if Linked(t, p) then p else 0
    decreases |names|
  {
    if |names| > 1 {
      var init := names[..|names| - 1];
      assert init[0] == names[0] && init[1..] == names[1..][..|names| - 2];
      if Linked(t, d) && Child(t, d, names[0]) != 0 {
        ParentIs(t, Child(t, d, names[0]), names[1..]);
      }
    }
  }

  /** A path may be followed in two stretches. */
  lemma {:induction false} ResolveSplit(t: Table, d: int, a: seq<string>, b: seq<string>)
    requires !Linked(t, 0) && b != []
    ensures Resolve(t, d, a + b) == Resolve(t, Resolve(t, d, a), b)
    decreases |a|
  {
    if a == [] {
      assert a + b == b;
    } else {
      assert (a + b)[0] == a[0] && (a + b)[1..] == a[1..] + b;
      if Linked(t, d) && Child(t, d, a[0]) != 0 {
        ResolveSplit(t, Child(t, d, a[0]), a[1..], b);
      }
    }
  }

  lemma PathSplit(t: Table, d: int, a: string, b: string)
    requires !Linked(t, 0) && Names(b) != []
    ensures Resolve(t, d, Names(a + "/" + b)) == Resolve(t, Resolve(t, d, Names(a)), Names(b))
  {
    NamesSplit(a, b);
    ResolveSplit(t, d, Names(a), Names(b));
  }

  /** "." is the directory itself, and above the root there is the root. */
  lemma Dot(t: Table, pending: multiset<int>, held: multiset<int>, d: int)
    requires Inv(t, pending, held) && Linked(t, d)
    ensures Child(t, d, ".") == d && Child(t, ROOTINO, "..") == ROOTINO
  {
    assert DirOk(t, d) && DirOk(t, ROOTINO);
    assert FoundAt(t, d, ".", 0) && FoundAt(t, ROOTINO, "..", 1);
    ChildIs(t, d, ".", 0);
    ChildIs(t, ROOTINO, "..", 1);
  }

  /** Into a directory by its name and back by "..". */
  lemma DotDot(t: Table, pending: multiset<int>, held: multiset<int>, d: int, name: string)
    requires Inv(t, pending, held) && Linked(t, d) && Short(name) != "." && Short(name) != ".."
    requires IsDir(t, Child(t, d, name)) && Child(t, d, name) != 0
    ensures Resolve(t, d, [name, ".."]) == d
  {
    assert DirOk(t, d);
    var c := Child(t, d, name);
    var k :| FoundAt(t, d, name, k) && EntAt(t, d, k).inum == c;
    LookupFindsLinked(t, pending, held, d, k);
    assert EntAt(t, d, 0).name == "." && EntAt(t, d, 1).name == "..";
    assert ChildAt(t, d, k);
    assert DirOk(t, c) && FoundAt(t, c, "..", 1);
    ChildIs(t, c, "..", 1);
    assert [name, ".."][1..] == [".."] && [".."][1..] == [];
  }

  function Ups(n: nat): seq<string> {
    seq(n, _ => "..")
  }

  lemma {:induction false} UpFollows(t: Table, pending: multiset<int>, held: multiset<int>, d: int, n: nat)
    requires Inv(t, pending, held) && Reaches(t, d, n) && (n > 0 ==> Linked(t, d))
    ensures Resolve(t, d, Ups(n)) == ROOTINO
    decreases n
  {
    if n > 0 {
      assert DirOk(t, d) && FoundAt(t, d, "..", 1);
      ChildIs(t, d, "..", 1);
      assert Ups(n)[0] == ".." && Ups(n)[1..] == Ups(n - 1);
      if d != ROOTINO {
        assert HangsAt(t, d);
      }
      UpFollows(t, pending, held, Parent(t, d), n - 1);
    }
  }

  /** From every linked directory enough ".." lead to the root. */
  lemma UpToRoot(t: Table, pending: multiset<int>, held: multiset<int>, d: int)
    requires Inv(t, pending, held) && Linked(t, d)
    ensures exists n: nat :: Resolve(t, d, Ups(n)) == ROOTINO
  {
    var n: nat :| Reaches(t, d, n);
    UpFollows(t, pending, held, d, n);
  }

  // ----- namex -----

  // Following `rest` from ip is what is left of following `all` from start.
  ghost predicate OnWay(t: Table, start: int, all: seq<string>, ip: int, rest: seq<string>) {
    && Resolve(t, start, all) == Resolve(t, ip, rest)
    && (rest != [] ==> all != [] && all[|all| - 1] == rest[|rest| - 1]
                       && ResolveParent(t, start, all) == ResolveParent(t, ip, rest))
  }

  lemma OneStep(t: Table, start: int, all: seq<string>, ip: int, name: string, rest: seq<string>, i: int)
    requires OnWay(t, start, all, ip, [name] + rest) && Linked(t, ip) && i == Child(t, ip, name) && i != 0
    ensures OnWay(t, start, all, i, rest)
  {
    var names := [name] + rest;
    assert names[0] == name && names[1..] == rest;
  }

  // A reference on ip is held beyond `held`, and dropping it would free nothing.
  ghost predicate Ready(ns: NameSpace, t: Table, held: multiset<int>, ip: int)
    reads ns
  {
    && ns.Valid() && ns.t == t && ns.held == held + multiset{ip} && PendingOk(t, ns.pending, held)
    && 0 < ip < |t| && t[ip].kind != Free && (t[ip].nlink > 0 || held[ip] > 0)
  }

  ghost predicate Same(ns: NameSpace, t: Table, held: multiset<int>)
    reads ns
  {
    ns.Valid() && ns.t == t && ns.held == held
  }

  // iput of a reference that cannot be the last one of an unlinked inode.
  method PutBack(ns: NameSpace, ip: int, ghost t: Table, ghost held: multiset<int>)
    requires Ready(ns, t, held, ip)
    modifies ns`t, ns`held
    ensures Same(ns, t, held)
  {
    ns.Put(ip);
  }

  // From the linked directory ip to what name is there, or 0; the reference moves along.
  method Descend(ns: NameSpace, ip: int, name: string, ghost t: Table, ghost held: multiset<int>) returns (i: int)
    requires Ready(ns, t, held, ip) && Linked(t, ip)
    modifies ns`t, ns`held
    ensures i == Child(t, ip, name) && if i == 0 then Same(ns, t, held) else Ready(ns, t, held, i)
  {
    assert DirOk(t, ip);
    var k := ns.DirLookup(ip, name);
    if k == -1 {
      PutBack(ns, ip, t, held);
      return 0;
    }
    LookupFindsLinked(t, ns.pending, ns.held, ip, k);
    ChildIs(t, ip, name, k);
    i := ns.t[ip].ents[k].inum;
    ns.Get(i);
    PutBack(ns, ip, t, held + multiset{i});
  }

  lemma NextName(t: Table, ip: int, name: string, rest: seq<string>)
    ensures var names := [name] + rest;
            && (!Linked(t, ip) || Child(t, ip, name) == 0 ==> Resolve(t, ip, names) == 0)
            && (!Linked(t, ip) || (Child(t, ip, name) == 0 && rest != []) ==> ResolveParent(t, ip, names) == 0)
            && (Linked(t, ip) && rest == [] ==> ResolveParent(t, ip, names) == ip && names[|names| - 1] == name)
  {
    var names := [name] + rest;
    assert names[0] == name && names[1..] == rest;
  }

  // What namex promises for the names `all` from start.
  ghost predicate Answer(t: Table, start: int, all: seq<string>, parent: bool, ip: int, name: string) {
    if parent then ip == ResolveParent(t, start, all) && (ip != 0 ==> all != [] && name == all[|all| - 1])
      else ip == Resolve(t, start, all)
  }

  lemma Stuck(t: Table, start: int, all: seq<string>, parent: bool, ip: int, name: string, rest: seq<string>)
    requires OnWay(t, start, all, ip, [name] + rest)
             && (!Linked(t, ip) || (Child(t, ip, name) == 0 && (parent ==> rest != [])))
    ensures Answer(t, start, all, parent, 0, name)
  {
    NextName(t, ip, name, rest);
  }

  lemma AtParent(t: Table, start: int, all: seq<string>, ip: int, name: string, rest: seq<string>)
    requires OnWay(t, start, all, ip, [name] + rest) && Linked(t, ip) && rest == []
    ensures Answer(t, start, all, true, ip, name)
  {
    NextName(t, ip, name, rest);
  }

  // namex's loop, from the inode start on which a reference was taken.
  method Follow(ns: NameSpace, start: int, path: string, parent: bool, ghost t: Table, ghost held: multiset<int>)
    returns (ip: int, name: string)
    requires Ready(ns, t, held, start)
    modifies ns`t, ns`held
    ensures Answer(t, start, Names(path), parent, ip, name)
    ensures if ip == 0 then Same(ns, t, held) else Ready(ns, t, held, ip)
  {
    ghost var all := Names(path);
    ip := start;
    var at := 0;
    var next;
    next, name := Skipelem(path, at);
    while next != -1
      invariant Ready(ns, t, held, ip) && 0 <= at <= |path| && NextIs(path, at, next, name)
      invariant OnWay(t, start, all, ip, Elems(path, at)) && (parent && all != [] ==> next != -1)
      decreases |path| - at
    {
      ghost var rest := Elems(path, next);
      if ns.t[ip].kind != Dir || ns.t[ip].nlink == 0 {
        Stuck(t, start, all, parent, ip, name, rest);
        PutBack(ns, ip, t, held);
        return 0, name;
      }
      if parent && next == |path| {
        AtParent(t, start, all, ip, name, rest);
        return;
      }
      var i := Descend(ns, ip, name, t, held);
      if i == 0 {
        Stuck(t, start, all, parent, ip, name, rest);
        return 0, name;
      }
      OneStep(t, start, all, ip, name, rest, i);
      ip, at := i, next;
      next, name := Skipelem(path, at);
    }
    if parent {
      PutBack(ns, ip, t, held);
      return 0, name;
    }
  }

  // namex: the inode at the path, or its parent and the last name; 0 if there is none.  One reference is
  // taken on the result and no other is kept.
  method Namex(ns: NameSpace, cwd: int, path: string, parent: bool) returns (ip: int, name: string)
    requires ns.Valid() && 0 < cwd < |ns.t| && ns.t[cwd].kind != Free && ns.held[cwd] > 0
    modifies ns`t, ns`held
    ensures ns.Valid() && ns.t == old(ns.t)
    ensures ns.held == if ip == 0 then old(ns.held) else old(ns.held) + multiset{ip}
    ensures Answer(ns.t, if path != "" && path[0] == '/' then ROOTINO else cwd, Names(path), parent, ip, name)
  {
    ghost var t, held := ns.t, ns.held;
    assert DirOk(t, ROOTINO);
    var start := if path != "" && path[0] == '/' then ROOTINO else cwd;
    ns.Get(start);
    ip, name := Follow(ns, start, path, parent, t, held);
  }
}
