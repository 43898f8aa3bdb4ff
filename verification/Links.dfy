/** Link counts and the directory tree: dirlookup, dirlink, link, unlink, create, iput and ireclaim. */
module Links {
  const ROOTINO := 1
  const NLINK_MAX := 32767
  const DIRSIZ := 14

  datatype Kind = Free | File | Dir | Device
  datatype Dirent = Dirent(inum: int, name: string)
  datatype Ino = Ino(kind: Kind, nlink: int, ents: seq<Dirent>)
  type Table = seq<Ino>

  const NO_ENTRY := Dirent(0, "")
  const NO_INODE := Ino(Free, 0, [])

  // Names compare by their first DIRSIZ characters.
  function Short(name: string): (r: string)
    ensures r <= name && |r| == if |name| < DIRSIZ then |name| else DIRSIZ
  {
    if |name| <= DIRSIZ then name else name[..DIRSIZ]
  }

  function EntAt(t: Table, d: int, k: int): Dirent {
    if 0 <= d < |t| && 0 <= k < |t[d].ents| then t[d].ents[k] else NO_ENTRY
  }

  predicate IsDir(t: Table, d: int) {
    0 <= d < |t| && t[d].kind == Dir
  }

  // A directory that is itself linked into the tree.
  predicate Linked(t: Table, d: int) {
    IsDir(t, d) && t[d].nlink > 0
  }

  predicate Live(t: Table, d: int, k: int) {
    EntAt(t, d, k).inum != 0
  }

  // Entry k of the linked directory d names inode i, and is not d's ".".
  predicate Names(t: Table, d: int, k: int, i: int) {
    Linked(t, d) && i != 0 && EntAt(t, d, k).inum == i && EntAt(t, d, k).name != "."
  }

  ghost function Places(t: Table, i: int): (s: set<(int, int)>)
    ensures forall d, k :: (d, k) in s <==> Names(t, d, k, i)
  {
    set d, k | 0 <= d < |t| && 0 <= k < |t[d].ents| && Names(t, d, k, i) :: (d, k)
  }

  function Parent(t: Table, d: int): int {
    EntAt(t, d, 1).inum
  }

  ghost predicate HasChild(t: Table, d: int, s: int) {
    exists k :: k >= 2 && EntAt(t, d, k).inum == s
  }

  // nlink counts the entries other than "." in linked directories, and the link calls under way.
  ghost predicate CountOk(t: Table, pending: multiset<int>) {
    forall i :: 0 < i < |t| ==> CountsAt(t, pending, i)
  }

  ghost predicate CountsAt(t: Table, pending: multiset<int>, i: int)
    requires 0 <= i < |t|
  {
    if t[i].kind == Free then Places(t, i) == {} && pending[i] == 0 else t[i].nlink == |Places(t, i)| + pending[i]
  }

  ghost predicate DirOk(t: Table, d: int) {
    && 0 < d < |t| && |t[d].ents| >= 2 && t[d].ents[0] == Dirent(d, ".") && t[d].ents[1].name == ".."
      && 0 < Parent(t, d) < |t|
    && (forall k :: Live(t, d, k) ==> 0 < EntAt(t, d, k).inum < |t| && |EntAt(t, d, k).name| <= DIRSIZ)
    && (forall j, k :: Live(t, d, j) && Live(t, d, k) && EntAt(t, d, j).name == EntAt(t, d, k).name ==> j == k)
    && (t[d].nlink == 0 ==> forall k :: k >= 2 ==> !Live(t, d, k)) && forall k :: k >= 2 ==> EntAt(t, d, k).name != "."
  }

  ghost predicate DirsOk(t: Table) {
    forall d {:trigger DirOk(t, d)} :: IsDir(t, d) ==> DirOk(t, d)
  }

  // A linked directory other than the root is an entry of its parent, and of no other directory.
  ghost predicate TreeOk(t: Table) {
    && Linked(t, ROOTINO) && Parent(t, ROOTINO) == ROOTINO
    && (forall s {:trigger HangsAt(t, s)} :: Linked(t, s) && s != ROOTINO ==> HangsAt(t, s))
    && (forall d, k {:trigger ChildAt(t, d, k)} :: Linked(t, d) && k >= 2 && IsDir(t, EntAt(t, d, k).inum) ==>
                                                   ChildAt(t, d, k))
  }

  ghost predicate HangsAt(t: Table, s: int) {
    Linked(t, Parent(t, s)) && HasChild(t, Parent(t, s), s)
  }

  ghost predicate ChildAt(t: Table, d: int, k: int) {
    var s := EntAt(t, d, k).inum;
    s != ROOTINO && Parent(t, s) == d && forall j :: j >= 2 && EntAt(t, d, j).inum == s ==> j == k
  }

  // n steps of ".." lead from s to the root, through linked directories.
  ghost predicate Reaches(t: Table, s: int, n: nat)
    decreases n
  {
    if n == 0 then s == ROOTINO else Linked(t, s) && Reaches(t, Parent(t, s), n - 1)
  }

  // Every linked directory is below the root: none is on a cycle cut off from it.
  ghost predicate Rooted(t: Table) {
    forall s :: Linked(t, s) ==> exists n: nat :: Reaches(t, s, n)
  }

  ghost predicate SameParents(t: Table, t': Table) {
    forall s :: Linked(t, s) && Linked(t', s) ==> Parent(t', s) == Parent(t, s)
  }

  // A directory that is newly linked has its parent among those that were.
  ghost predicate NewBelow(t: Table, t': Table) {
    forall s :: Linked(t', s) && !Linked(t, s) ==> Linked(t, Parent(t', s)) && Linked(t', Parent(t', s))
  }

  lemma {:induction false} ReachesKept(t: Table, t': Table, s: int, n: nat)
    requires TreeOk(t) && TreeOk(t') && SameParents(t, t') && Linked(t, s) && Linked(t', s) && Reaches(t, s, n)
    ensures Reaches(t', s, n)
    decreases n
  {
    if n > 0 {
      if s != ROOTINO {
        assert HangsAt(t, s) && HangsAt(t', s);
      }
      ReachesKept(t, t', Parent(t, s), n - 1);
    }
  }

  lemma RootedStep(t: Table, t': Table)
    requires TreeOk(t) && TreeOk(t') && Rooted(t) && SameParents(t, t') && NewBelow(t, t')
    ensures Rooted(t')
  {
    forall s | Linked(t', s) ensures exists n: nat :: Reaches(t', s, n) {
      var d := if Linked(t, s) then s else Parent(t', s);
      var n: nat :| Reaches(t, d, n);
      ReachesKept(t, t', d, n);
      if d != s {
        assert Reaches(t', s, n + 1);
      }
    }
  }

  ghost predicate PendingOk(t: Table, pending: multiset<int>, held: multiset<int>) {
    forall i :: i in pending ==> pending[i] <= held[i] && 0 < i < |t| && !IsDir(t, i)
  }

  // Only directories have entries, and free inodes have nothing.
  ghost predicate PlainOk(t: Table) {
    forall x :: 0 <= x < |t| && t[x].kind != Dir ==> t[x].ents == [] && (t[x].kind == Free ==> t[x].nlink == 0)
  }

  ghost predicate Inv(t: Table, pending: multiset<int>, held: multiset<int>) {
    CountOk(t, pending) && DirsOk(t) && TreeOk(t) && Rooted(t) && PendingOk(t, pending, held) && PlainOk(t)
  }

  // What a lookup in a linked directory finds is allocated and linked.
  lemma LookupFindsLinked(t: Table, pending: multiset<int>, held: multiset<int>, d: int, k: int)
    requires Inv(t, pending, held) && Linked(t, d) && Live(t, d, k)
    ensures 0 < EntAt(t, d, k).inum < |t| && t[EntAt(t, d, k).inum].kind != Free && t[EntAt(t, d, k).inum].nlink > 0
  {
    var i := EntAt(t, d, k).inum;
    assert DirOk(t, d) && CountsAt(t, pending, i);
    if EntAt(t, d, k).name == "." {
      assert Live(t, d, 0) && EntAt(t, d, 0).name == ".";
    } else {
      assert (d, k) in Places(t, i);
    }
  }

  // ----- Counting -----

  lemma PlacesSame(t: Table, t': Table, j: int)
    requires forall d, k :: Names(t', d, k, j) <==> Names(t, d, k, j)
    ensures Places(t', j) == Places(t, j)
  {
  }

  lemma PlacesAdd(t: Table, t': Table, j: int, d: int, k: int)
    requires !Names(t, d, k, j) && forall x, y :: Names(t', x, y, j) <==> Names(t, x, y, j) || (x == d && y == k)
    ensures |Places(t', j)| == |Places(t, j)| + 1
  {
    assert Places(t', j) == Places(t, j) + {(d, k)};
  }

  lemma PlacesDrop(t: Table, t': Table, j: int, d: int, k: int)
    requires Names(t, d, k, j) && forall x, y :: Names(t', x, y, j) <==> Names(t, x, y, j) && !(x == d && y == k)
    ensures |Places(t', j)| == |Places(t, j)| - 1
  {
    assert Places(t', j) == Places(t, j) - {(d, k)};
  }

  // ----- Changing one entry, one inode -----

  function PutEntry(t: Table, d: int, k: int, e: Dirent): Table {
    if 0 <= d < |t| && 0 <= k < |t[d].ents| then t[d := t[d].(ents := t[d].ents[k := e])]
    else if 0 <= d < |t| && k == |t[d].ents| then t[d := t[d].(ents := t[d].ents + [e])]
    else t
  }

  function AddLinks(t: Table, i: int, n: int): Table {
    if 0 <= i < |t| then t[i := t[i].(nlink := t[i].nlink + n)] else t
  }

  // Only entry k of d changed, to e.
  ghost predicate OneEntry(t: Table, t': Table, d: int, k: int, e: Dirent) {
    |t'| == |t| && forall x, y :: EntAt(t', x, y) == if x == d && y == k then e else EntAt(t, x, y)
  }

  ghost predicate SameEntries(t: Table, t': Table) {
    |t'| == |t| && forall x, y :: EntAt(t', x, y) == EntAt(t, x, y)
  }

  ghost predicate SameDirs(t: Table, t': Table) {
    forall x :: (IsDir(t', x) <==> IsDir(t, x)) && (Linked(t', x) <==> Linked(t, x))
  }

  // Directories still have room for their first two entries, and the orphans are the same.
  ghost predicate SameShape(t: Table, t': Table) {
    |t'| == |t| && forall x :: IsDir(t, x) ==> 0 <= x < |t'| && |t'[x].ents| >= |t[x].ents|
                                               && (t'[x].nlink == 0 ==> t[x].nlink == 0)
  }

  lemma PutEffect(t: Table, d: int, k: int, e: Dirent, t': Table)
    requires 0 <= d < |t| && 0 <= k <= |t[d].ents| && t' == PutEntry(t, d, k, e)
    ensures OneEntry(t, t', d, k, e) && SameDirs(t, t') && SameShape(t, t')
    ensures forall x :: 0 <= x < |t| ==> t'[x].kind == t[x].kind && t'[x].nlink == t[x].nlink
  {
  }

  // Names once entry k of a linked directory is e, which is no ".", and was none.
  lemma NamesAfter(t: Table, t': Table, d: int, k: int, e: Dirent)
    requires OneEntry(t, t', d, k, e) && SameDirs(t, t') && Linked(t, d) && e.name != "." && EntAt(t, d, k).name != "."
    ensures forall x, y, j :: Names(t', x, y, j) <==>
                              if x == d && y == k then j != 0 && e.inum == j else Names(t, x, y, j)
  {
  }

  // Directory d after one of its later entries became e: dead, or a name it did not have.
  ghost predicate Fits(t: Table, d: int, k: int, e: Dirent) {
    && Linked(t, d) && k >= 2 && e.name != "." && e.name != ".." && |e.name| <= DIRSIZ
    && (e.inum == 0 || (0 < e.inum < |t| && forall j :: Live(t, d, j) && j != k ==> EntAt(t, d, j).name != e.name))
  }

  lemma DirsAfter(t: Table, t': Table, d: int, k: int, e: Dirent)
    requires DirsOk(t) && OneEntry(t, t', d, k, e) && SameDirs(t, t') && SameShape(t, t') && Fits(t, d, k, e)
    ensures DirsOk(t')
  {
    forall x | IsDir(t', x) ensures DirOk(t', x) {
      assert DirOk(t, x);
      DirAfter(t, t', d, k, e, x);
    }
  }

  lemma DirAfter(t: Table, t': Table, d: int, k: int, e: Dirent, x: int)
    requires DirOk(t, x) && IsDir(t, x) && OneEntry(t, t', d, k, e) && SameShape(t, t') && Fits(t, d, k, e)
    ensures DirOk(t', x)
  {
    assert EntAt(t', x, 0) == EntAt(t, x, 0) && EntAt(t', x, 1) == EntAt(t, x, 1);
    forall y | y >= 2 ensures EntAt(t', x, y).name != "." {
      assert EntAt(t', x, y) == if x == d && y == k then e else EntAt(t, x, y);
    }
    if t'[x].nlink == 0 {
      assert x != d;
      forall y | y >= 2 ensures !Live(t', x, y) {
        assert !Live(t, x, y) && EntAt(t', x, y) == EntAt(t, x, y);
      }
    }
  }

  // The tree does not change while no directory's entry does.
  lemma TreeAfter(t: Table, t': Table, d: int, k: int, e: Dirent)
    requires TreeOk(t) && OneEntry(t, t', d, k, e) && SameDirs(t, t') && k >= 2
    requires !IsDir(t, e.inum) && !IsDir(t, EntAt(t, d, k).inum)
    ensures TreeOk(t')
  {
    forall s | Linked(t', s) && s != ROOTINO ensures HangsAt(t', s) {
      var p := Parent(t, s);
      assert Parent(t', s) == p && HangsAt(t, s);
      var j :| j >= 2 && EntAt(t, p, j).inum == s;
      assert EntAt(t', p, j).inum == s;
    }
    forall x, y | Linked(t', x) && y >= 2 && IsDir(t', EntAt(t', x, y).inum) ensures ChildAt(t', x, y) {
      assert ChildAt(t, x, y);
    }
  }

  lemma TreeSame(t: Table, t': Table)
    requires TreeOk(t) && SameEntries(t, t') && SameDirs(t, t')
    ensures TreeOk(t')
  {
    forall s | Linked(t', s) && s != ROOTINO ensures HangsAt(t', s) {
      assert HangsAt(t, s);
      var j :| j >= 2 && EntAt(t, Parent(t, s), j).inum == s;
      assert EntAt(t', Parent(t, s), j).inum == s;
    }
    forall x, y | Linked(t', x) && y >= 2 && IsDir(t', EntAt(t', x, y).inum) ensures ChildAt(t', x, y) {
      assert ChildAt(t, x, y);
    }
  }

  lemma DirsSame(t: Table, t': Table)
    requires DirsOk(t) && SameEntries(t, t') && SameDirs(t, t') && SameShape(t, t')
    ensures DirsOk(t')
  {
    forall x | IsDir(t', x) ensures DirOk(t', x) {
      assert DirOk(t, x);
      assert EntAt(t', x, 0) == EntAt(t, x, 0) && EntAt(t', x, 1) == EntAt(t, x, 1);
    }
  }

  // Inodes other than i and l keep kind, count and calls under way.
  ghost predicate OthersSame(t: Table, p: multiset<int>, t': Table, p': multiset<int>, i: int, l: int) {
    |t'| == |t| && forall j :: 0 <= j < |t| && j != i && j != l ==> t'[j].kind == t[j].kind
                                                                    && t'[j].nlink == t[j].nlink && p'[j] == p[j]
  }

  // The part of a count that entries must account for.
  function Credit(t: Table, p: multiset<int>, i: int): int {
    if 0 <= i < |t| && t[i].kind != Free then t[i].nlink - p[i] else 0
  }

  ghost predicate NamesSame(t: Table, t': Table) {
    forall x, y, j :: Names(t', x, y, j) <==> Names(t, x, y, j)
  }

  ghost predicate NamesGain(t: Table, t': Table, d: int, k: int, i: int) {
    !Names(t, d, k, i) && forall x, y, j :: Names(t', x, y, j) <==> Names(t, x, y, j) || (x == d && y == k && j == i)
  }

  ghost predicate NamesLoss(t: Table, t': Table, d: int, k: int, i: int) {
    Names(t, d, k, i) && forall x, y, j :: Names(t', x, y, j) <==> Names(t, x, y, j) && !(x == d && y == k && j == i)
  }

  lemma CountSame(t: Table, p: multiset<int>, t': Table, p': multiset<int>, i: int)
    requires CountOk(t, p) && OthersSame(t, p, t', p', i, i) && NamesSame(t, t') && 0 <= i < |t|
    requires t'[i].kind != Free && t[i].kind != Free && Credit(t', p', i) == Credit(t, p, i)
    ensures CountOk(t', p')
  {
    forall j | 0 < j < |t'| ensures CountsAt(t', p', j) {
      assert CountsAt(t, p, j);
      PlacesSame(t, t', j);
    }
  }

  lemma CountGain(t: Table, p: multiset<int>, t': Table, p': multiset<int>, d: int, k: int, i: int)
    requires CountOk(t, p) && OthersSame(t, p, t', p', i, i) && NamesGain(t, t', d, k, i) && 0 < i < |t|
    requires t'[i].kind != Free && Credit(t', p', i) == Credit(t, p, i) + 1
    ensures CountOk(t', p')
  {
    forall j | 0 < j < |t'| ensures CountsAt(t', p', j) {
      assert CountsAt(t, p, j);
      if j == i {
        PlacesAdd(t, t', j, d, k);
      } else {
        PlacesSame(t, t', j);
      }
    }
  }

  lemma CountLoss(t: Table, p: multiset<int>, t': Table, p': multiset<int>, d: int, k: int, i: int)
    requires CountOk(t, p) && OthersSame(t, p, t', p', i, i) && NamesLoss(t, t', d, k, i) && 0 < i < |t|
    requires t[i].kind != Free && t'[i].kind != Free && Credit(t', p', i) == Credit(t, p, i) - 1
    ensures CountOk(t', p')
  {
    forall j | 0 < j < |t'| ensures CountsAt(t', p', j) {
      assert CountsAt(t, p, j);
      if j == i {
        PlacesDrop(t, t', j, d, k);
      } else {
        PlacesSame(t, t', j);
      }
    }
  }

  // ----- Steps on files -----

  lemma FileNames(t: Table, t': Table, d: int, k: int, e: Dirent)
    requires OneEntry(t, t', d, k, e) && SameDirs(t, t') && Linked(t, d) && e.name != "." && EntAt(t, d, k).name != "."
    ensures e.inum != 0 && !Live(t, d, k) ==> NamesGain(t, t', d, k, e.inum)
    ensures e.inum == 0 && Live(t, d, k) ==> NamesLoss(t, t', d, k, EntAt(t, d, k).inum)
  {
    NamesAfter(t, t', d, k, e);
  }

  // A change of one entry, of and to files, keeps directories and tree.
  lemma FileEntry(t: Table, t': Table, d: int, k: int, e: Dirent)
    requires DirsOk(t) && TreeOk(t) && OneEntry(t, t', d, k, e) && SameDirs(t, t') && SameShape(t, t')
             && Fits(t, d, k, e)
    requires !IsDir(t, e.inum) && !IsDir(t, EntAt(t, d, k).inum)
    requires Rooted(t)
    ensures DirsOk(t') && TreeOk(t') && Rooted(t')
  {
    DirsAfter(t, t', d, k, e);
    TreeAfter(t, t', d, k, e);
    RootedStep(t, t');
  }

  lemma ZeroIsNoDir(t: Table)
    requires DirsOk(t)
    ensures !IsDir(t, 0)
  {
    assert IsDir(t, 0) ==> DirOk(t, 0);
  }

  // A count of a file changes together with the calls that account for it.
  lemma CountStep(t: Table, pending: multiset<int>, held: multiset<int>, i: int, n: int, t': Table,
                  pending': multiset<int>)
    requires Inv(t, pending, held) && 0 < i < |t| && t[i].kind != Free && !IsDir(t, i)
    requires t' == AddLinks(t, i, n) && ((n == 1 && pending[i] < held[i]) || (n == -1 && i in pending))
    requires pending' == if n == 1 then pending + multiset{i} else pending - multiset{i}
    ensures Inv(t', pending', held)
  {
    assert SameEntries(t, t') && SameDirs(t, t') && SameShape(t, t');
    TreeSame(t, t');
    RootedStep(t, t');
    DirsSame(t, t');
    assert NamesSame(t, t');
    CountSame(t, pending, t', pending', i);
  }

  // The entry a link call adds takes over from the call itself.
  lemma LinkStep(t: Table, pending: multiset<int>, held: multiset<int>, d: int, k: int, e: Dirent, t': Table,
                 pending': multiset<int>)
    requires Inv(t, pending, held) && e.inum in pending && Fits(t, d, k, e) && !Live(t, d, k) && k <= |t[d].ents|
    requires EntAt(t, d, k).name != "." && t' == PutEntry(t, d, k, e) && pending' == pending - multiset{e.inum}
    ensures Inv(t', pending', held)
  {
    PutEffect(t, d, k, e, t');
    ZeroIsNoDir(t);
    FileEntry(t, t', d, k, e);
    FileNames(t, t', d, k, e);
    assert CountsAt(t, pending, e.inum);
    CountGain(t, pending, t', pending', d, k, e.inum);
  }

  // An entry of a file removed, and its count with it.
  lemma UnlinkStep(t: Table, pending: multiset<int>, held: multiset<int>, d: int, k: int, i: int, t1: Table, t': Table)
    requires Inv(t, pending, held) && Fits(t, d, k, NO_ENTRY) && Names(t, d, k, i) && !IsDir(t, i)
    requires t1 == PutEntry(t, d, k, NO_ENTRY) && t' == AddLinks(t1, i, -1)
    ensures Inv(t', pending, held)
  {
    assert DirOk(t, d) && CountsAt(t, pending, i);
    PutEffect(t, d, k, NO_ENTRY, t1);
    assert OneEntry(t, t', d, k, NO_ENTRY) && SameDirs(t, t') && SameShape(t, t');
    ZeroIsNoDir(t);
    FileEntry(t, t', d, k, NO_ENTRY);
    FileNames(t, t', d, k, NO_ENTRY);
    assert (d, k) in Places(t, i);
    CountLoss(t, pending, t', pending, d, k, i);
  }

  // A new file with its first entry.
  lemma CreateStep(t: Table, pending: multiset<int>, held: multiset<int>, d: int, k: int, e: Dirent, x: Ino, t1: Table,
                   t': Table)
    requires Inv(t, pending, held) && 0 < e.inum < |t| && t[e.inum].kind == Free && Fits(t, d, k, e) && !Live(t, d, k)
    requires k <= |t[d].ents| && EntAt(t, d, k).name != "." && x.nlink == 1 && x.ents == [] && x.kind != Dir
             && x.kind != Free
    requires t1 == t[e.inum := x] && t' == PutEntry(t1, d, k, e)
    ensures Inv(t', pending, held)
  {
    assert CountsAt(t, pending, e.inum);
    PutEffect(t1, d, k, e, t');
    assert SameEntries(t, t1) && SameDirs(t, t1) && SameShape(t, t1);
    assert OneEntry(t, t', d, k, e) && SameDirs(t, t') && SameShape(t, t');
    ZeroIsNoDir(t);
    FileEntry(t, t', d, k, e);
    FileNames(t, t', d, k, e);
    CountGain(t, pending, t', pending, d, k, e.inum);
  }

  // ----- Steps on directories -----

  ghost predicate TwoGain(t: Table, t': Table, d: int, k: int, s: int) {
    && !Names(t, d, k, s) && !Names(t, s, 1, d)
    && forall x, y, j :: Names(t', x, y, j) <==> Names(t, x, y, j) || (x == d && y == k && j == s)
                                                 || (x == s && y == 1 && j == d)
  }

  ghost predicate TwoLoss(t: Table, t': Table, d: int, k: int, s: int) {
    && Names(t, d, k, s) && Names(t, s, 1, d)
    && forall x, y, j :: Names(t', x, y, j) <==> Names(t, x, y, j) && !(x == d && y == k && j == s)
                                                 && !(x == s && y == 1 && j == d)
  }

  lemma CountTwoGain(t: Table, p: multiset<int>, t': Table, d: int, k: int, s: int)
    requires CountOk(t, p) && OthersSame(t, p, t', p, d, s) && TwoGain(t, t', d, k, s) && 0 < d < |t| && 0 < s < |t|
             && s != d
    requires t'[d].kind == t[d].kind != Free && t'[d].nlink == t[d].nlink + 1 && t[s].kind == Free
             && t'[s].kind != Free && t'[s].nlink == 1
    ensures CountOk(t', p)
  {
    forall j | 0 < j < |t'| ensures CountsAt(t', p, j) {
      assert CountsAt(t, p, j);
      if j == s {
        PlacesAdd(t, t', j, d, k);
      } else if j == d {
        PlacesAdd(t, t', j, s, 1);
      } else {
        PlacesSame(t, t', j);
      }
    }
  }

  lemma CountTwoLoss(t: Table, p: multiset<int>, t': Table, d: int, k: int, s: int)
    requires CountOk(t, p) && OthersSame(t, p, t', p, d, s) && TwoLoss(t, t', d, k, s) && 0 < d < |t| && 0 < s < |t|
             && s != d
    requires t'[d].kind == t[d].kind != Free && t'[d].nlink == t[d].nlink - 1
    requires t'[s].kind == t[s].kind != Free && t'[s].nlink == t[s].nlink - 1
    ensures CountOk(t', p)
  {
    forall j | 0 < j < |t'| ensures CountsAt(t', p, j) {
      assert CountsAt(t, p, j);
      if j == s {
        PlacesDrop(t, t', j, d, k);
      } else if j == d {
        PlacesDrop(t, t', j, s, 1);
      } else {
        PlacesSame(t, t', j);
      }
    }
  }

  function NewDir(s: int, d: int): Ino {
    Ino(Dir, 1, [Dirent(s, "."), Dirent(d, "..")])
  }

  // What mkdir changes: the new directory s, its entry in d, and d's count.
  ghost predicate Mkdir(t: Table, t': Table, d: int, k: int, e: Dirent) {
    && |t'| == |t| && 0 < e.inum < |t| && e.inum != d && 0 <= d < |t| && t'[e.inum] == NewDir(e.inum, d)
    && (forall x :: 0 <= x < |t| && x != e.inum && x != d ==> t'[x] == t[x])
    && t'[d].kind == t[d].kind && t'[d].nlink == t[d].nlink + 1 && |t'[d].ents| >= |t[d].ents|
    && (forall y :: EntAt(t', d, y) == if y == k then e else EntAt(t, d, y))
  }

  lemma MkdirIs(t: Table, d: int, k: int, e: Dirent, t1: Table, t2: Table, t': Table)
    requires 0 <= d < |t| && 0 < e.inum < |t| && e.inum != d && 0 <= k <= |t[d].ents|
    requires t1 == t[e.inum := NewDir(e.inum, d)] && t2 == PutEntry(t1, d, k, e) && t' == AddLinks(t2, d, 1)
    ensures Mkdir(t, t', d, k, e)
  {
  }

  // Nothing in a linked directory names a free inode.
  lemma FreeUnnamed(t: Table, p: multiset<int>, s: int, d: int, k: int)
    requires CountOk(t, p) && DirsOk(t) && 0 < s < |t| && t[s].kind == Free && Linked(t, d)
    ensures EntAt(t, d, k).inum != s
  {
    assert CountsAt(t, p, s) && DirOk(t, d);
    assert (d, k) !in Places(t, s);
    assert Live(t, d, 0) && EntAt(t, d, 0).name == ".";
    assert Live(t, d, k) && EntAt(t, d, k).name == "." ==> k == 0;
  }

  ghost predicate MkdirEnts(t: Table, t': Table, d: int, k: int, e: Dirent) {
    forall x, y :: EntAt(t', x, y) ==
      if x == e.inum then (if y == 0 then Dirent(x, ".") else if y == 1 then Dirent(d, "..") else NO_ENTRY)
      else if x == d && y == k then e else EntAt(t, x, y)
  }

  lemma MkdirEffect(t: Table, t': Table, d: int, k: int, e: Dirent)
    requires Mkdir(t, t', d, k, e) && Linked(t, d) && t[e.inum].kind == Free
    ensures MkdirEnts(t, t', d, k, e)
    ensures forall x :: (IsDir(t', x) <==> IsDir(t, x) || x == e.inum)
                        && (Linked(t', x) <==> Linked(t, x) || x == e.inum)
  {
  }

  lemma MkdirNames(t: Table, p: multiset<int>, t': Table, d: int, k: int, e: Dirent)
    requires Mkdir(t, t', d, k, e) && t[e.inum].kind == Free && Fits(t, d, k, e) && !Live(t, d, k) && 0 < d
    ensures TwoGain(t, t', d, k, e.inum)
  {
    MkdirEffect(t, t', d, k, e);
  }

  lemma MkdirDirs(t: Table, t': Table, d: int, k: int, e: Dirent)
    requires DirsOk(t) && Mkdir(t, t', d, k, e) && t[e.inum].kind == Free && Fits(t, d, k, e) && !Live(t, d, k)
    ensures DirsOk(t')
  {
    assert DirOk(t, d);
    MkdirEffect(t, t', d, k, e);
    forall x | IsDir(t', x) ensures DirOk(t', x) {
      assert x != e.inum ==> DirOk(t, x);
      assert EntAt(t', x, 0).name == "." && EntAt(t', x, 1).name == "..";
    }
  }

  lemma MkdirHangs(t: Table, t': Table, d: int, k: int, e: Dirent, c: int)
    requires DirsOk(t) && TreeOk(t) && MkdirEnts(t, t', d, k, e) && Fits(t, d, k, e) && !Live(t, d, k)
             && !IsDir(t, e.inum) && e.inum != d
    requires forall x :: Linked(t', x) <==> Linked(t, x) || x == e.inum
    requires Linked(t', c) && c != ROOTINO
    ensures HangsAt(t', c)
  {
    if c == e.inum {
      assert EntAt(t', d, k).inum == c;
    } else {
      assert HangsAt(t, c) && DirOk(t, c);
      var q := Parent(t, c);
      var j :| j >= 2 && EntAt(t, q, j).inum == c;
      assert EntAt(t', q, j).inum == c && Parent(t', c) == q;
    }
  }

  lemma MkdirChild(t: Table, p: multiset<int>, t': Table, d: int, k: int, e: Dirent, x: int, y: int)
    requires CountOk(t, p) && DirsOk(t) && TreeOk(t) && MkdirEnts(t, t', d, k, e) && Fits(t, d, k, e) && !Live(t, d, k)
    requires 0 < e.inum < |t| && t[e.inum].kind == Free && (forall z :: IsDir(t', z) <==> IsDir(t, z) || z == e.inum)
    requires forall z :: Linked(t', z) <==> Linked(t, z) || z == e.inum
    requires Linked(t', x) && y >= 2 && IsDir(t', EntAt(t', x, y).inum) && e.inum != d
    ensures ChildAt(t', x, y)
  {
    ZeroIsNoDir(t);
    var s := e.inum;
    if x == d && y == k {
      forall j | j >= 2 && EntAt(t', d, j).inum == s ensures j == k {
        FreeUnnamed(t, p, s, d, j);
      }
    } else {
      FreeUnnamed(t, p, s, x, y);
      assert ChildAt(t, x, y);
    }
  }

  lemma MkdirTree(t: Table, p: multiset<int>, t': Table, d: int, k: int, e: Dirent)
    requires CountOk(t, p) && DirsOk(t) && TreeOk(t) && Mkdir(t, t', d, k, e) && t[e.inum].kind == Free
             && Fits(t, d, k, e) && !Live(t, d, k)
    ensures TreeOk(t')
  {
    MkdirEffect(t, t', d, k, e);
    forall c | Linked(t', c) && c != ROOTINO ensures HangsAt(t', c) {
      MkdirHangs(t, t', d, k, e, c);
    }
    forall x, y | Linked(t', x) && y >= 2 && IsDir(t', EntAt(t', x, y).inum) ensures ChildAt(t', x, y) {
      MkdirChild(t, p, t', d, k, e, x, y);
    }
  }

  lemma MkdirRooted(t: Table, t': Table, d: int, k: int, e: Dirent)
    requires TreeOk(t) && TreeOk(t') && Rooted(t) && Mkdir(t, t', d, k, e) && t[e.inum].kind == Free && Fits(t, d, k, e)
    ensures Rooted(t')
  {
    MkdirEffect(t, t', d, k, e);
    RootedStep(t, t');
  }

  // A new directory with its first entry.
  lemma MkdirStep(t: Table, pending: multiset<int>, held: multiset<int>, t': Table, d: int, k: int, e: Dirent)
    requires Inv(t, pending, held) && Mkdir(t, t', d, k, e) && t[e.inum].kind == Free && Fits(t, d, k, e)
             && !Live(t, d, k)
    requires EntAt(t, d, k).name != "."
    ensures Inv(t', pending, held)
  {
    assert CountsAt(t, pending, e.inum) && DirOk(t, d);
    MkdirNames(t, pending, t', d, k, e);
    MkdirDirs(t, t', d, k, e);
    MkdirTree(t, pending, t', d, k, e);
    MkdirRooted(t, t', d, k, e);
    CountTwoGain(t, pending, t', d, k, e.inum);
  }

  // What removing the empty directory s, entry k of d, changes.
  ghost predicate Rmdir(t: Table, t': Table, d: int, k: int, s: int) {
    && |t'| == |t| && 0 <= d < |t| && 0 <= s < |t| && s != d && OneEntry(t, t', d, k, NO_ENTRY) && SameShapes(t, t')
    && (forall x :: 0 <= x < |t| && x != d && x != s ==> t'[x] == t[x])
    && t'[d].kind == t[d].kind && t'[d].nlink == t[d].nlink - 1 && t'[s].kind == t[s].kind
      && t'[s].nlink == t[s].nlink - 1
  }

  ghost predicate SameShapes(t: Table, t': Table) {
    |t'| == |t| && forall x :: 0 <= x < |t| ==> |t'[x].ents| == |t[x].ents|
  }

  lemma RmdirIs(t: Table, d: int, k: int, s: int, t1: Table, t2: Table, t': Table)
    requires 0 <= d < |t| && 0 <= s < |t| && s != d && 0 <= k < |t[d].ents|
    requires t1 == PutEntry(t, d, k, NO_ENTRY) && t2 == AddLinks(t1, d, -1) && t' == AddLinks(t2, s, -1)
    ensures Rmdir(t, t', d, k, s)
  {
    PutEffect(t, d, k, NO_ENTRY, t1);
  }

  ghost predicate IsEmptyDir(t: Table, s: int) {
    forall j :: j >= 2 ==> !Live(t, s, j)
  }

  // An empty directory other than the root is named by one entry only, the one its parent has.
  lemma OnlyPlace(t: Table, p: multiset<int>, held: multiset<int>, d: int, k: int, s: int)
    requires Inv(t, p, held) && Linked(t, d) && k >= 2 && EntAt(t, d, k).inum == s && IsDir(t, s) && IsEmptyDir(t, s)
    ensures Names(t, d, k, s) && Places(t, s) == {(d, k)} && t[s].nlink == 1 && s != d && Parent(t, s) == d
            && s != ROOTINO
  {
    assert ChildAt(t, d, k) && DirOk(t, d) && DirOk(t, s) && CountsAt(t, p, s);
    assert Live(t, d, 0) && Live(t, d, k) && EntAt(t, d, 0).name == ".";
    assert EntAt(t, d, k).name == "." ==> k == 0;
    forall x, y | Names(t, x, y, s) ensures x == d && y == k {
      PlaceIsEntry(t, x, y, s);
      assert ChildAt(t, x, y);
    }
    assert Places(t, s) == {(d, k)};
    assert s == d ==> Live(t, s, k);
  }

  // A place that names an empty directory is not a ".." and not a ".".
  lemma PlaceIsEntry(t: Table, x: int, y: int, s: int)
    requires DirsOk(t) && TreeOk(t) && Names(t, x, y, s) && IsDir(t, s) && s != ROOTINO && IsEmptyDir(t, s)
    ensures y >= 2
  {
    assert DirOk(t, x);
    assert y != 0 && y >= 0;
    assert x != ROOTINO || y != 1;
    if y == 1 {
      assert HangsAt(t, x);
      var j :| j >= 2 && EntAt(t, s, j).inum == x;
      assert Live(t, s, j);
    }
  }

  // The parent of s stays linked without s's "..".
  lemma ParentHasMore(t: Table, p: multiset<int>, held: multiset<int>, d: int, s: int)
    requires Inv(t, p, held) && Linked(t, d) && Linked(t, s) && Parent(t, s) == d && s != d
    ensures t[d].nlink >= 2 && Names(t, s, 1, d)
  {
    assert DirOk(t, d) && DirOk(t, s) && CountsAt(t, p, d);
    assert (s, 1) in Places(t, d);
    var x, y := AnotherPlace(t, d);
    assert (x, y) in Places(t, d) && (x, y) != (s, 1);
    assert {(s, 1), (x, y)} <= Places(t, d);
    TwoMembers(Places(t, d), (s, 1), (x, y));
  }

  // A linked directory is named by its parent's entry; the root by its own "..".
  lemma AnotherPlace(t: Table, d: int) returns (x: int, y: int)
    requires DirsOk(t) && TreeOk(t) && Linked(t, d)
    ensures Names(t, x, y, d) && (y >= 2 || x == d)
  {
    assert DirOk(t, d);
    if d == ROOTINO {
      x, y := d, 1;
    } else {
      assert HangsAt(t, d);
      x := Parent(t, d);
      y :| y >= 2 && EntAt(t, x, y).inum == d;
      assert DirOk(t, x) && Live(t, x, y) && Live(t, x, 0) && EntAt(t, x, 0).name == ".";
    }
  }

  lemma TwoMembers(s: set<(int, int)>, a: (int, int), b: (int, int))
    requires a in s && b in s && a != b
    ensures |s| >= 2
  {
    assert s == {a, b} + (s - {a, b});
  }

  lemma RmdirDirs(t: Table, t': Table, d: int, k: int, s: int)
    requires DirsOk(t) && Rmdir(t, t', d, k, s) && k >= 2 && Linked(t, d) && t[d].nlink >= 2 && IsDir(t, s)
             && IsEmptyDir(t, s)
    ensures DirsOk(t')
  {
    forall x | IsDir(t', x) ensures DirOk(t', x) {
      assert DirOk(t, x);
      assert EntAt(t', x, 0) == EntAt(t, x, 0) && EntAt(t', x, 1) == EntAt(t, x, 1);
      assert forall y :: Live(t', x, y) ==> Live(t, x, y) && EntAt(t', x, y) == EntAt(t, x, y);
      assert x != s ==> (t'[x].nlink == 0 ==> t[x].nlink == 0);
    }
  }

  lemma RmdirTree(t: Table, t': Table, d: int, k: int, s: int)
    requires DirsOk(t) && TreeOk(t) && Rmdir(t, t', d, k, s) && k >= 2 && Linked(t, d) && t[d].nlink >= 2
    requires IsDir(t, s) && IsEmptyDir(t, s) && t[s].nlink == 1 && s != ROOTINO && EntAt(t, d, k).inum == s
    ensures TreeOk(t')
  {
    ZeroIsNoDir(t);
    assert forall x :: IsDir(t', x) <==> IsDir(t, x);
    assert forall x :: Linked(t', x) <==> Linked(t, x) && x != s;
    forall c | Linked(t', c) && c != ROOTINO ensures HangsAt(t', c) {
      RmdirHangs(t, t', d, k, s, c);
    }
    forall x, y | Linked(t', x) && y >= 2 && IsDir(t', EntAt(t', x, y).inum) ensures ChildAt(t', x, y) {
      assert ChildAt(t, x, y);
    }
  }

  lemma RmdirRooted(t: Table, t': Table, d: int, k: int, s: int)
    requires TreeOk(t) && TreeOk(t') && Rooted(t) && Rmdir(t, t', d, k, s) && k >= 2 && Linked(t, d) && t[d].nlink >= 2
    requires IsDir(t, s) && t[s].nlink == 1
    ensures Rooted(t')
  {
    assert forall x :: Linked(t', x) <==> Linked(t, x) && x != s;
    RootedStep(t, t');
  }

  lemma RmdirHangs(t: Table, t': Table, d: int, k: int, s: int, c: int)
    requires DirsOk(t) && TreeOk(t) && OneEntry(t, t', d, k, NO_ENTRY) && k >= 2 && EntAt(t, d, k).inum == s
             && IsEmptyDir(t, s)
    requires (forall x :: Linked(t', x) <==> Linked(t, x) && x != s) && Linked(t', c) && c != ROOTINO
    ensures HangsAt(t', c)
  {
    assert HangsAt(t, c) && DirOk(t, c);
    var q := Parent(t, c);
    var j :| j >= 2 && EntAt(t, q, j).inum == c;
    assert Live(t, q, j);
    assert EntAt(t', q, j).inum == c && Parent(t', c) == q;
  }

  // The entry of an empty directory removed: it is unlinked, and its ".." counts no more.
  lemma RmdirStep(t: Table, pending: multiset<int>, held: multiset<int>, t': Table, d: int, k: int, s: int)
    requires Inv(t, pending, held) && Rmdir(t, t', d, k, s) && Linked(t, d) && k >= 2 && EntAt(t, d, k).inum == s
    requires IsDir(t, s) && IsEmptyDir(t, s)
    ensures Inv(t', pending, held) && t'[s].nlink == 0
  {
    OnlyPlace(t, pending, held, d, k, s);
    ParentHasMore(t, pending, held, d, s);
    assert DirOk(t, s) && DirOk(t, d);
    RmdirDirs(t, t', d, k, s);
    RmdirTree(t, t', d, k, s);
    RmdirRooted(t, t', d, k, s);
    RmdirNames(t, t', d, k, s);
    CountTwoLoss(t, pending, t', d, k, s);
  }

  lemma RmdirNames(t: Table, t': Table, d: int, k: int, s: int)
    requires Rmdir(t, t', d, k, s) && Linked(t, d) && t[d].nlink >= 2 && Names(t, d, k, s) && Names(t, s, 1, d)
    requires t[s].nlink == 1 && DirOk(t, s) && IsEmptyDir(t, s)
    ensures TwoLoss(t, t', d, k, s)
  {
    assert forall x :: Linked(t', x) <==> Linked(t, x) && x != s;
    forall x, y, j ensures Names(t', x, y, j) <==>
      Names(t, x, y, j) && !(x == d && y == k && j == s) && !(x == s && y == 1 && j == d) {
      if x == s && Names(t, s, y, j) {
        assert Live(t, s, y) && y != 0;
      }
    }
  }

  // An unlinked inode without references given back.
  lemma FreeStep(t: Table, pending: multiset<int>, held: multiset<int>, i: int, t': Table)
    requires Inv(t, pending, held) && 0 < i < |t| && t[i].kind != Free && t[i].nlink == 0 && i !in held
             && t' == t[i := NO_INODE]
    ensures Inv(t', pending, held)
  {
    assert CountsAt(t, pending, i);
    assert forall x :: Linked(t', x) <==> Linked(t, x);
    assert forall x :: IsDir(t', x) <==> IsDir(t, x) && x != i;
    assert forall x, y :: x != i ==> EntAt(t', x, y) == EntAt(t, x, y);
    assert NamesSame(t, t');
    forall x | IsDir(t', x) ensures DirOk(t', x) {
      assert DirOk(t, x);
      assert EntAt(t', x, 0) == EntAt(t, x, 0);
    }
    FreeTree(t, t', i);
    RootedStep(t, t');
    FreeCount(t, pending, t', i);
  }

  lemma FreeCount(t: Table, p: multiset<int>, t': Table, i: int)
    requires CountOk(t, p) && NamesSame(t, t') && 0 < i < |t| && t[i].kind != Free && t[i].nlink == 0
             && t' == t[i := NO_INODE]
    ensures CountOk(t', p)
  {
    forall j | 0 < j < |t'| ensures CountsAt(t', p, j) {
      assert CountsAt(t, p, j);
      PlacesSame(t, t', j);
    }
  }

  lemma FreeTree(t: Table, t': Table, i: int)
    requires TreeOk(t) && !Linked(t, i) && (forall x :: Linked(t', x) <==> Linked(t, x))
    requires (forall x :: IsDir(t', x) ==> IsDir(t, x) && x != i)
             && forall x, y :: x != i ==> EntAt(t', x, y) == EntAt(t, x, y)
    ensures TreeOk(t')
  {
    forall c | Linked(t', c) && c != ROOTINO ensures HangsAt(t', c) {
      assert HangsAt(t, c);
      var q := Parent(t, c);
      var j :| j >= 2 && EntAt(t, q, j).inum == c;
      assert EntAt(t', q, j).inum == c && Parent(t', c) == q;
    }
    forall x, y | Linked(t', x) && y >= 2 && IsDir(t', EntAt(t', x, y).inum) ensures ChildAt(t', x, y) {
      assert ChildAt(t, x, y);
    }
  }
}
