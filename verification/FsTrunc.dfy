/** itrunc: giving back every block of a file, once each. */
module FsTrunc {
  import opened FsLayout
  import opened FsMap
  import opened Fs
  import opened FsFile

  // Nothing but bitmap blocks differ.
  ghost predicate MapOnly(g: Super, d: Disk, d': Disk) {
    forall x :: DataStart(g) <= x || x < g.bmapstart ==> BlockAt(d', x) == BlockAt(d, x)
  }

  // Freeing b changes its bit and nothing outside the bitmap.
  lemma FreedEffect(g: Super, d: Disk, o: Owner, b: int, d': Disk)
    requires SuperOk(g) && DiskOk(g, d) && Marked(g, d, o) && DataStart(g) <= b < g.size && d' == ClearBit(g, d, b)
    ensures DiskOk(g, d') && Marked(g, d', o - {b}) && MapOnly(g, d, d')
  {
    DataPositive(g);
    BBlockRange(g, b);
    ClearBitEffect(g, d, d', b);
  }

  // Files other than i keep their inodes, blocks and data; i keeps all but its block numbers.
  ghost predicate Dropping(g: Super, t: Table, d: Disk, t': Table, d': Disk, i: int) {
    TableGrown(t, t', i) && MapOnly(g, d, d') && OtherAddrs(t, d, t', d', i)
  }

  ghost predicate OtherAddrs(t: Table, d: Disk, t': Table, d': Disk, i: int) {
    forall s: Ref :: s.i != i ==> Addr(t', d', s) == Addr(t, d, s)
  }

  lemma DroppingTwice(g: Super, t: Table, d: Disk, t1: Table, d1: Disk, t2: Table, d2: Disk, i: int)
    requires Dropping(g, t, d, t1, d1, i) && Dropping(g, t1, d1, t2, d2, i)
    ensures Dropping(g, t, d, t2, d2, i)
  {
  }

  // A direct block given back.
  lemma DropDirectEffect(g: Super, t: Table, d: Disk, o: Owner, i: int, k: int, b: int, t': Table, d': Disk, o': Owner)
    requires SuperOk(g) && DiskOk(g, d) && TableOk(g, t) && Own(g, t, d, o) && 0 <= i < |t| && 0 <= k < NDIRECT
    requires b == AddrAt(t, i, k) != 0 && d' == ClearBit(g, d, b) && t' == SetAddr(t, i, k, 0) && o' == o - {b}
    ensures DiskOk(g, d') && TableOk(g, t') && Own(g, t', d', o') && Dropping(g, t, d, t', d', i)
    ensures forall s :: Addr(t', d', s) == if s == Data(i, k) then 0 else Addr(t, d, s)
  {
    assert Addr(t, d, Data(i, k)) == b;
    DataPositive(g);
    FreedEffect(g, d, o, b, d');
    AddrsKept(g, t, d, o, d');
    StoreDirect(t, d', i, k, 0, t');
    RemoveStep(g, t, d, o, t', d', o', Data(i, k), b);
  }

  method DropDirect(fs: FileSystem, i: int, k: int)
    requires fs.Valid() && 0 <= i < |fs.inodes| && 0 <= k < NDIRECT && AddrAt(fs.inodes, i, k) != 0
    modifies fs`disk, fs`inodes, fs`owner, fs`maps, fs`blocks, fs`metas, fs`marks
    ensures fs.Valid() && Dropping(fs.g, old(fs.inodes), old(fs.disk), fs.inodes, fs.disk, i)
    ensures fs.blocks == old(fs.blocks) && fs.metas == old(fs.metas)
    ensures fs.inodes == SetAddr(old(fs.inodes), i, k, 0)
  {
    ghost var t, d, o := fs.inodes, fs.disk, fs.owner;
    var b := fs.inodes[i].addrs[k];
    assert Addr(t, d, Data(i, k)) == b;
    DataPositive(fs.g);
    fs.Bfree(b);
    fs.inodes := fs.inodes[i := fs.inodes[i].(addrs := fs.inodes[i].addrs[k := 0])];
    fs.owner := fs.owner - {b};
    DropDirectEffect(fs.g, t, d, o, i, k, b, fs.inodes, fs.disk, fs.owner);
  }

  ghost predicate DirectGone(t: Table, i: int, k: int) {
    forall j :: 0 <= j < k ==> AddrAt(t, i, j) == 0
  }

  lemma GoneOn(t: Table, i: int, k: int, t': Table)
    requires DirectGone(t, i, k) && 0 <= i < |t| && 0 <= k < |t[i].addrs|
    requires t' == SetAddr(t, i, k, 0) || (t' == t && AddrAt(t, i, k) == 0)
    ensures DirectGone(t', i, k + 1)
  {
    forall j | 0 <= j < k + 1 ensures AddrAt(t', i, j) == 0 {
      assert j < k ==> AddrAt(t, i, j) == 0;
    }
  }

  method DropDirects(fs: FileSystem, i: int)
    requires fs.Valid() && 0 <= i < |fs.inodes|
    modifies fs`disk, fs`inodes, fs`owner, fs`maps, fs`blocks, fs`metas, fs`marks
    ensures fs.Valid() && Dropping(fs.g, old(fs.inodes), old(fs.disk), fs.inodes, fs.disk, i)
    ensures fs.blocks == old(fs.blocks) && fs.metas == old(fs.metas)
    ensures DirectGone(fs.inodes, i, NDIRECT) && |fs.inodes| == |old(fs.inodes)|
  {
    ghost var t, d := fs.inodes, fs.disk;
    var k := 0;
    while k < NDIRECT
      invariant fs.Valid() && 0 <= k <= NDIRECT && |fs.inodes| == |t| && Dropping(fs.g, t, d, fs.inodes, fs.disk, i)
      invariant fs.blocks == old(fs.blocks) && fs.metas == old(fs.metas) && DirectGone(fs.inodes, i, k)
    {
      ghost var t1, d1 := fs.inodes, fs.disk;
      if fs.inodes[i].addrs[k] != 0 {
        DropDirect(fs, i, k);
        DroppingTwice(fs.g, t, d, t1, d1, fs.inodes, fs.disk, i);
      }
      GoneOn(t1, i, k, fs.inodes);
      k := k + 1;
    }
  }

  // The indirect block's first j entries are given back but still written in it: x is the block
  // as it would read with them zeroed, and stands in for it in the ownership of the others.
  ghost predicate Shadowed(g: Super, t: Table, d: Disk, o: Owner, i: int, ind: int, bp: seq<int>, j: int, x: seq<int>) {
    && ind == AddrAt(t, i, NDIRECT) && 0 < DataStart(g) <= ind < |d| && BlockAt(d, ind) == bp && ByteRange(x)
    && Own(g, t, d[ind := x], o)
    && forall k :: 0 <= k < NINDIRECT ==> Word(x, k) == if k < j then 0 else Word(bp, k)
  }

  lemma ShadowMarks(g: Super, d: Disk, o: Owner, ind: int, x: seq<int>, b: int, d': Disk, o': Owner, x': seq<int>,
                    e: Disk, e': Disk)
    requires SuperOk(g) && DiskOk(g, d) && DataStart(g) <= ind < |d| && 0 <= ind && DataStart(g) <= b < g.size
    requires e == d[ind := x] && Marked(g, e, o) && d' == ClearBit(g, d, b) && o' == o - {b} && |d'| == |d|
             && e' == d'[ind := x']
    ensures DiskOk(g, d') && MapOnly(g, d, d') && Marked(g, e', o') && BlockAt(d', ind) == BlockAt(d, ind)
    ensures BlockAt(e, ind) == x && BlockAt(e', ind) == x'
    ensures forall y :: DataStart(g) <= y && y != ind ==> BlockAt(e', y) == BlockAt(e, y)
  {
    DataPositive(g);
    MarkedKept(g, e, o, d);
    FreedEffect(g, d, o, b, d');
    MarkedKept(g, d', o', e');
  }

  lemma ShadowLinks(g: Super, t: Table, e: Disk, o: Owner, i: int, bn: int, b: int, e': Disk, o': Owner, ind: int)
    requires 0 < DataStart(g) && Linked(g, t, e, o) && NDIRECT <= bn < MAXFILE && ind == AddrAt(t, i, NDIRECT) != 0
    requires b == Addr(t, e, Data(i, bn)) != 0 && o' == o - {b}
    requires WordSet(BlockAt(e, ind), BlockAt(e', ind), bn - NDIRECT, 0)
    requires forall y :: DataStart(g) <= y && y != ind ==> BlockAt(e', y) == BlockAt(e, y)
    ensures Linked(g, t, e', o') && OtherAddrs(t, e, t, e', i)
  {
    IndirectOwned(g, t, e, o, i);
    StoreEntry(g, t, e, o, i, bn, 0, e');
    RemoveStep(g, t, e, o, t, e', o', Data(i, bn), b);
  }

  // One more entry given back.
  lemma ShadowStep(g: Super, t: Table, d: Disk, o: Owner, i: int, ind: int, bp: seq<int>, j: int, x: seq<int>,
                   b: int, d': Disk, o': Owner, x': seq<int>, e: Disk, e': Disk)
    requires SuperOk(g) && DiskOk(g, d) && Shadowed(g, t, d, o, i, ind, bp, j, x) && 0 <= j < NINDIRECT
    requires b == Word(bp, j) != 0 && d' == ClearBit(g, d, b) && o' == o - {b}
    requires ByteRange(x') && WordSet(x, x', j, 0) && |d'| == |d|
    requires e == d[ind := x] && e' == d'[ind := x']
    ensures Shadowed(g, t, d', o', i, ind, bp, j + 1, x') && OtherAddrs(t, e, t, e', i)
    ensures DiskOk(g, d') && MapOnly(g, d, d')
  {
    var bn := NDIRECT + j;
    assert Addr(t, e, Data(i, bn)) == b;
    ShadowMarks(g, d, o, ind, x, b, d', o', x', e, e');
    ShadowLinks(g, t, e, o, i, bn, b, e', o', ind);
  }

  // The indirect block itself given back: its stale entries no longer count.
  lemma ShadowEnd(g: Super, t: Table, d: Disk, o: Owner, i: int, ind: int, bp: seq<int>, x: seq<int>,
                  t': Table, d': Disk, o': Owner, e: Disk)
    requires SuperOk(g) && DiskOk(g, d) && TableOk(g, t) && 0 <= i < |t|
             && Shadowed(g, t, d, o, i, ind, bp, NINDIRECT, x)
    requires d' == ClearBit(g, d, ind) && o' == o - {ind} && t' == SetAddr(t, i, NDIRECT, 0) && e == d[ind := x]
    ensures DiskOk(g, d') && TableOk(g, t') && Own(g, t', d', o') && MapOnly(g, d, d') && OtherAddrs(t, e, t', d', i)
  {
    IndirectOwned(g, t, e, o, i);
    DataPositive(g);
    MarkedKept(g, e, o, d);
    FreedEffect(g, d, o, ind, d');
    EndAddrs(g, t, e, o, i, ind, t', d');
    RemoveStep(g, t, e, o, t', d', o', Indirect(i), ind);
  }

  lemma EndAddrs(g: Super, t: Table, e: Disk, o: Owner, i: int, ind: int, t': Table, d': Disk)
    requires Linked(g, t, e, o) && 0 <= i < |t| && |t[i].addrs| == NDIRECT + 1 && ind == AddrAt(t, i, NDIRECT) != 0
    requires t' == SetAddr(t, i, NDIRECT, 0)
    requires forall k :: 0 <= k < NINDIRECT ==> Word(BlockAt(e, ind), k) == 0
    requires forall y :: DataStart(g) <= y && y != ind ==> BlockAt(d', y) == BlockAt(e, y)
    ensures forall s :: Addr(t', d', s) == if s == Indirect(i) then 0 else Addr(t, e, s)
  {
    IndirectOwned(g, t, e, o, i);
    forall s: Ref ensures Addr(t', d', s) == if s == Indirect(i) then 0 else Addr(t, e, s) {
      if s.Data? && NDIRECT <= s.bn < MAXFILE && AddrAt(t, s.i, NDIRECT) != 0 {
        IndirectOwned(g, t, e, o, s.i);
      }
    }
  }

  lemma OtherAddrsTwice(t: Table, d: Disk, t1: Table, d1: Disk, t2: Table, d2: Disk, i: int)
    requires OtherAddrs(t, d, t1, d1, i) && OtherAddrs(t1, d1, t2, d2, i)
    ensures OtherAddrs(t, d, t2, d2, i)
  {
  }

  // The loop over the entries of the indirect block; x is its shadow.
  method DropEntries(fs: FileSystem, i: int, ind: int) returns (ghost x: seq<int>)
    requires fs.Valid() && 0 <= i < |fs.inodes| && ind == AddrAt(fs.inodes, i, NDIRECT) != 0
    modifies fs`disk, fs`inodes, fs`owner, fs`maps, fs`blocks, fs`metas, fs`marks
    ensures fs.Shape() && fs.inodes == old(fs.inodes) && fs.blocks == old(fs.blocks) && fs.metas == old(fs.metas)
    ensures 0 <= ind < |fs.disk| && MapOnly(fs.g, old(fs.disk), fs.disk)
    ensures Shadowed(fs.g, fs.inodes, fs.disk, fs.owner, i, ind, old(BlockAt(fs.disk, ind)), NINDIRECT, x)
    ensures OtherAddrs(old(fs.inodes), old(fs.disk), fs.inodes, fs.disk[ind := x], i)
  {
    ghost var t, d := fs.inodes, fs.disk;
    IndirectOwned(fs.g, t, d, fs.owner, i);
    DataPositive(fs.g);
    var bp := fs.disk[ind];
    x := bp;
    assert d[ind := x] == d;
    var j := 0;
    while j < NINDIRECT
      invariant 0 <= j <= NINDIRECT && fs.Shape() && fs.inodes == t && fs.blocks == old(fs.blocks)
                && fs.metas == old(fs.metas)
      invariant |fs.disk| == |d| && MapOnly(fs.g, d, fs.disk)
      invariant Shadowed(fs.g, t, fs.disk, fs.owner, i, ind, bp, j, x)
      invariant OtherAddrs(t, d, t, fs.disk[ind := x], i)
    {
      var a := Word(bp, j);
      if a != 0 {
        x := DropEntry(fs, i, ind, bp, j, a, x, d);
      }
      j := j + 1;
    }
  }

  method DropEntry(fs: FileSystem, i: int, ind: int, bp: seq<int>, j: int, a: int, ghost x: seq<int>, ghost d0: Disk)
    returns (ghost x': seq<int>)
    requires fs.Shape() && 0 <= i < |fs.inodes| && 0 <= j < NINDIRECT && a == Word(bp, j) != 0
    requires 0 <= ind < |fs.disk| == |d0| && MapOnly(fs.g, d0, fs.disk)
    requires Shadowed(fs.g, fs.inodes, fs.disk, fs.owner, i, ind, bp, j, x)
             && OtherAddrs(fs.inodes, d0, fs.inodes, fs.disk[ind := x], i)
    modifies fs`disk, fs`inodes, fs`owner, fs`maps, fs`blocks, fs`metas, fs`marks
    ensures fs.Shape() && fs.inodes == old(fs.inodes) && fs.blocks == old(fs.blocks) && fs.metas == old(fs.metas)
    ensures |fs.disk| == |d0| && MapOnly(fs.g, d0, fs.disk)
    ensures Shadowed(fs.g, fs.inodes, fs.disk, fs.owner, i, ind, bp, j + 1, x')
    ensures OtherAddrs(fs.inodes, d0, fs.inodes, fs.disk[ind := x'], i)
  {
    ghost var t, d, o, e := fs.inodes, fs.disk, fs.owner, fs.disk[ind := x];
    EntryMarked(fs.g, t, d, o, i, ind, bp, j, x, a);
    fs.Bfree(a);
    fs.owner := fs.owner - {a};
    x' := Zeroed(x, j);
    FreedEffect(fs.g, d, o, a, fs.disk);
    ghost var e' := fs.disk[ind := x'];
    ShadowStep(fs.g, t, d, o, i, ind, bp, j, x, a, fs.disk, fs.owner, x', e, e');
    OtherAddrsTwice(t, d0, t, e, t, e', i);
  }

  ghost function Zeroed(x: seq<int>, j: int): (x': seq<int>)
    requires ByteRange(x) && 0 <= j < NINDIRECT
    ensures ByteRange(x') && WordSet(x, x', j, 0)
  {
    PutWordSets(x, j, 0);
    PutWord(x, j, 0)
  }

  // Entry j is a marked data block: bfree does not panic.
  lemma EntryMarked(g: Super, t: Table, d: Disk, o: Owner, i: int, ind: int, bp: seq<int>, j: int, x: seq<int>, a: int)
    requires SuperOk(g) && Shadowed(g, t, d, o, i, ind, bp, j, x) && 0 <= j < NINDIRECT && a == Word(bp, j) != 0
    ensures DataStart(g) <= a < g.size && 0 <= a && Bit(g, d, a) && Marked(g, d, o)
  {
    var e := d[ind := x];
    assert Addr(t, e, Data(i, NDIRECT + j)) == a;
    DataPositive(g);
    MarkedKept(g, e, o, d);
  }

  // The indirect block and all it lists.
  method DropIndirect(fs: FileSystem, i: int)
    requires fs.Valid() && 0 <= i < |fs.inodes|
    modifies fs`disk, fs`inodes, fs`owner, fs`maps, fs`blocks, fs`metas, fs`marks
    ensures fs.Valid() && Dropping(fs.g, old(fs.inodes), old(fs.disk), fs.inodes, fs.disk, i)
    ensures fs.blocks == old(fs.blocks) && fs.metas == old(fs.metas)
    ensures fs.inodes == SetAddr(old(fs.inodes), i, NDIRECT, 0)
  {
    ghost var t, d := fs.inodes, fs.disk;
    var ind := fs.inodes[i].addrs[NDIRECT];
    if ind == 0 {
      assert t[i].addrs[NDIRECT := 0] == t[i].addrs;
      assert SetAddr(t, i, NDIRECT, 0) == t;
    }
    if ind != 0 {
      ghost var bp := BlockAt(d, ind);
      ghost var x := DropEntries(fs, i, ind);
      ghost var d1, o1 := fs.disk, fs.owner;
      ghost var e := d1[ind := x];
      IndirectMarked(fs.g, t, d1, o1, i, ind, bp, x);
      fs.Bfree(ind);
      fs.inodes := fs.inodes[i := fs.inodes[i].(addrs := fs.inodes[i].addrs[NDIRECT := 0])];
      fs.owner := fs.owner - {ind};
      ShadowEnd(fs.g, t, d1, o1, i, ind, bp, x, fs.inodes, fs.disk, fs.owner, e);
      OtherAddrsTwice(t, d, t, e, fs.inodes, fs.disk, i);
      MapOnlyTwice(fs.g, d, d1, fs.disk);
    }
  }

  lemma IndirectMarked(g: Super, t: Table, d: Disk, o: Owner, i: int, ind: int, bp: seq<int>, x: seq<int>)
    requires SuperOk(g) && Shadowed(g, t, d, o, i, ind, bp, NINDIRECT, x)
    ensures DataStart(g) <= ind < g.size && 0 <= ind && Bit(g, d, ind)
  {
    var e := d[ind := x];
    IndirectOwned(g, t, e, o, i);
    DataPositive(g);
    MarkedKept(g, e, o, d);
  }

  lemma MapOnlyTwice(g: Super, d: Disk, d1: Disk, d2: Disk)
    requires MapOnly(g, d, d1) && MapOnly(g, d1, d2)
    ensures MapOnly(g, d, d2)
  {
  }

  // Dropping blocks of i leaves every other file alone.
  lemma DroppingOthers(g: Super, t: Table, d: Disk, o: Owner, t': Table, d': Disk, i: int)
    requires SuperOk(g) && Linked(g, t, d, o) && Dropping(g, t, d, t', d', i)
    ensures OthersKept(g, t, d, t', d', i)
  {
    forall j | 0 <= j < |t| && j != i ensures SameFile(t, d, t', d', j) {
      forall bn ensures BlockOf(t', d', j, bn) == BlockOf(t, d, j, bn)
                ensures BlockOf(t, d, j, bn) != 0 ==> BlockOf(t, d, j, bn) >= DataStart(g) {
        assert Addr(t, d, Data(j, bn)) == BlockOf(t, d, j, bn) && Addr(t', d', Data(j, bn)) == BlockOf(t', d', j, bn);
      }
    }
  }

  // ip->size = 0; iupdate(ip)
  method ZeroSize(fs: FileSystem, i: int)
    requires fs.Valid() && 0 <= i < |fs.inodes| && SyncedBut(fs.g, fs.inodes, fs.disk, i)
    modifies fs`disk, fs`inodes, fs`owner, fs`maps, fs`blocks, fs`metas, fs`marks
    ensures fs.Valid() && Synced(fs.g, fs.inodes, fs.disk) && fs.owner == old(fs.owner)
    ensures fs.maps == old(fs.maps) && fs.blocks == old(fs.blocks) && fs.metas == old(fs.metas) + {IBlock(fs.g, i)}
    ensures fs.inodes == SetSize(old(fs.inodes), i, 0)
            && OtherAddrs(old(fs.inodes), old(fs.disk), fs.inodes, fs.disk, i)
    ensures forall j :: 0 <= j < |fs.inodes| ==> SameData(old(fs.inodes), old(fs.disk), fs.inodes, fs.disk, j)
  {
    ghost var t, d := fs.inodes, fs.disk;
    fs.inodes := fs.inodes[i := fs.inodes[i].(size := 0)];
    SetSizeEffect(fs.g, t, d, fs.owner, i, 0, fs.inodes);
    fs.Iupdate(i);
    forall j | 0 <= j < |fs.inodes| ensures SameData(t, d, fs.inodes, fs.disk, j) {
      assert SameFile(fs.inodes, d, fs.inodes, fs.disk, j);
      ResizedData(t, d, fs.inodes, fs.disk, j);
    }
  }

  // Exactly the blocks of i went free.
  ghost predicate FreedExactly(g: Super, d: Disk, o: Owner, d': Disk, i: int) {
    forall b :: DataStart(g) <= b < g.size ==> (Bit(g, d', b) <==> Bit(g, d, b) && b in o && o[b].i != i)
  }

  lemma FreedAll(g: Super, t: Table, d: Disk, o: Owner, t': Table, d': Disk, o': Owner, i: int)
    requires SuperOk(g) && Own(g, t, d, o) && Own(g, t', d', o') && OtherAddrs(t, d, t', d', i)
    requires forall s: Ref :: s.i == i ==> Addr(t', d', s) == 0
    ensures FreedExactly(g, d, o, d', i)
  {
    DataPositive(g);
    forall b | DataStart(g) <= b < g.size ensures b in o' <==> b in o && o[b].i != i {
      if b in o {
        assert Addr(t, d, o[b]) == b;
      }
      if b in o' {
        assert Addr(t', d', o'[b]) == b;
      }
    }
  }

  // An inode without block numbers holds no block.
  lemma NoAddrs(t: Table, d: Disk, i: int)
    requires DirectGone(t, i, NDIRECT) && AddrAt(t, i, NDIRECT) == 0
    ensures forall s: Ref :: s.i == i ==> Addr(t, d, s) == 0
  {
    forall s: Ref | s.i == i ensures Addr(t, d, s) == 0 {
      if s.Data? && 0 <= s.bn < NDIRECT {
        assert AddrAt(t, i, s.bn) == 0;
      }
    }
  }

  // Discard the contents of file i: its blocks, all of them and no others, are free again.
  method Itrunc(fs: FileSystem, i: int)
    requires Clean(fs) && 0 <= i < |fs.inodes|
    modifies fs`disk, fs`inodes, fs`owner, fs`maps, fs`blocks, fs`metas, fs`marks
    ensures Clean(fs) && Content(fs.inodes, fs.disk, i) == []
    ensures FreedExactly(fs.g, old(fs.disk), old(fs.owner), fs.disk, i)
    ensures OthersSame(old(fs.inodes), old(fs.disk), fs.inodes, fs.disk, i)
            && SameAttributes(fs.inodes[i], old(fs.inodes)[i])
    ensures forall s: Ref :: s.i == i ==> Addr(fs.inodes, fs.disk, s) == 0
    ensures fs.blocks == old(fs.blocks) && fs.metas == old(fs.metas) + {IBlock(fs.g, i)}
  {
    ghost var g, t, d, o := fs.g, fs.inodes, fs.disk, fs.owner;
    DropDirects(fs, i);
    ghost var t1, d1 := fs.inodes, fs.disk;
    DropIndirect(fs, i);
    ghost var t2, d2 := fs.inodes, fs.disk;
    DroppingTwice(g, t, d, t1, d1, t2, d2, i);
    DroppingOthers(g, t, d, o, t2, d2, i);
    SyncedKept(g, t, d, t2, d2, i);
    ZeroSize(fs, i);
    TruncDone(g, t, d, o, t1, t2, d2, fs.inodes, fs.disk, fs.owner, i);
  }

  lemma TruncDone(g: Super, t: Table, d: Disk, o: Owner, t1: Table, t2: Table, d2: Disk, t3: Table, d3: Disk,
                  o3: Owner, i: int)
    requires SuperOk(g) && TableOk(g, t1) && 0 <= i < |t| && Own(g, t, d, o) && Own(g, t3, d3, o3) && AllMapped(t, d)
    requires Dropping(g, t, d, t2, d2, i) && OthersKept(g, t, d, t2, d2, i)
    requires 0 <= i < |t1| && DirectGone(t1, i, NDIRECT) && t2 == SetAddr(t1, i, NDIRECT, 0) && t3 == SetSize(t2, i, 0)
    requires OtherAddrs(t2, d2, t3, d3, i) && forall j :: 0 <= j < |t2| ==> SameData(t2, d2, t3, d3, j)
    ensures AllMapped(t3, d3) && Content(t3, d3, i) == [] && FreedExactly(g, d, o, d3, i)
    ensures OthersSame(t, d, t3, d3, i) && SameAttributes(t3[i], t[i])
            && forall s: Ref :: s.i == i ==> Addr(t3, d3, s) == 0
  {
    OthersDone(g, t, d, t2, d2, t3, d3, i);
    GoneStill(t1, i, t3);
    NoAddrs(t3, d3, i);
    OtherAddrsTwice(t, d, t2, d2, t3, d3, i);
    FreedAll(g, t, d, o, t3, d3, o3, i);
  }

  lemma GoneStill(t1: Table, i: int, t3: Table)
    requires 0 <= i < |t1| && |t1[i].addrs| == NDIRECT + 1 && DirectGone(t1, i, NDIRECT)
             && t3 == SetSize(SetAddr(t1, i, NDIRECT, 0), i, 0)
    ensures DirectGone(t3, i, NDIRECT) && AddrAt(t3, i, NDIRECT) == 0
  {
    forall j | 0 <= j < NDIRECT ensures AddrAt(t3, i, j) == 0 {
      assert AddrAt(t1, i, j) == 0;
    }
  }
}
