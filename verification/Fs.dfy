/** The block and inode layer of kernel/fs.c: balloc, bzero, bfree, bmap, iupdate, and one turn of writei. */
module Fs {
  import opened FsLayout
  import opened FsMap

  // No free block is left.
  ghost predicate Full(g: Super, d: Disk) {
    AllSet(g, d, g.size)
  }

  ghost predicate AllSet(g: Super, d: Disk, n: int) {
    forall b :: 0 <= b < n && b < g.size ==> Bit(g, d, b)
  }

  ghost predicate FirstFree(g: Super, d: Disk, b: int) {
    DataStart(g) <= b < g.size && !Bit(g, d, b) && AllSet(g, d, b)
  }

  // What balloc leaves: the bit of b set and b zeroed.
  function Taken(g: Super, d: Disk, b: int): Disk {
    if 0 <= b < |SetBit(g, d, b)| then SetBit(g, d, b)[b := Zeros()] else d
  }

  // Outside the bitmap only blocks b and c differ.
  ghost predicate BlocksBut(g: Super, d: Disk, d': Disk, b: int, c: int) {
    forall x :: (DataStart(g) <= x && x != b && x != c) || x < g.bmapstart ==> BlockAt(d', x) == BlockAt(d, x)
  }

  lemma BlocksButOne(g: Super, d: Disk, d1: Disk, d': Disk, b: int, c: int, x: seq<int>)
    requires BlocksBut(g, d, d1, b, b) && 0 <= c < |d1| && d' == d1[c := x] && DataStart(g) <= c && g.bmapstart <= c
    ensures BlocksBut(g, d, d', b, c) && forall y :: y < DataStart(g) ==> BlockAt(d', y) == BlockAt(d1, y)
  {
  }

  // Taking b changes its bit and its own block, no block address, nothing below the bitmap.
  lemma TakenEffect(g: Super, t: Table, d: Disk, o: Owner, b: int, r: Ref, d': Disk)
    requires SuperOk(g) && DiskOk(g, d) && Own(g, t, d, o) && FirstFree(g, d, b) && d' == Taken(g, d, b)
    ensures DiskOk(g, d') && b !in o && b != 0 && BlockAt(d', b) == Zeros() && Marked(g, d', o[b := r])
    ensures BlocksBut(g, d, d', b, b)
    ensures forall s :: Addr(t, d', s) == Addr(t, d, s)
  {
    DataPositive(g);
    TakenBlocks(g, d, o, b, d');
    TakenMarked(g, d, o, b, r, d');
    AddrsKept(g, t, d, o, d');
  }

  lemma TakenBlocks(g: Super, d: Disk, o: Owner, b: int, d': Disk)
    requires SuperOk(g) && DiskOk(g, d) && DataStart(g) <= b < g.size && !Bit(g, d, b) && d' == Taken(g, d, b)
             && Marked(g, d, o)
    ensures DiskOk(g, d') && b !in o && BlockAt(d', b) == Zeros()
    ensures BlocksBut(g, d, d', b, b)
  {
    DataPositive(g);
    BBlockRange(g, b);
    SetBitEffect(g, d, SetBit(g, d, b), b);
  }

  lemma TakenMarked(g: Super, d: Disk, o: Owner, b: int, r: Ref, d': Disk)
    requires SuperOk(g) && DiskOk(g, d) && Marked(g, d, o) && DataStart(g) <= b < g.size && d' == Taken(g, d, b)
    ensures Marked(g, d', o[b := r])
  {
    DataPositive(g);
    var e := SetBit(g, d, b);
    SetBitEffect(g, d, e, b);
    MarkedKept(g, e, o[b := r], d');
  }

  // File i may have gained blocks; nothing already held moved, and no file data changed.
  ghost predicate Grown(g: Super, t: Table, d: Disk, o: Owner, t': Table, d': Disk, o': Owner, i: int) {
    TableGrown(t, t', i) && AddrsGrown(t, d, t', d', i) && OwnersGrown(g, d, o, d', o')
  }

  ghost predicate TableGrown(t: Table, t': Table, i: int) {
    && |t'| == |t| && (forall j :: 0 <= j < |t| && j != i ==> t'[j] == t[j])
    && (0 <= i < |t| ==> t'[i] == t[i].(addrs := t'[i].addrs))
  }

  ghost predicate AddrsGrown(t: Table, d: Disk, t': Table, d': Disk, i: int) {
    forall s :: Addr(t, d, s) != 0 || s.i != i ==> Addr(t', d', s) == Addr(t, d, s)
  }

  ghost predicate OwnersGrown(g: Super, d: Disk, o: Owner, d': Disk, o': Owner) {
    && (forall b :: b in o ==> b in o' && o'[b] == o[b])
    && (forall b :: b in o && o[b].Data? ==> BlockAt(d', b) == BlockAt(d, b))
    && (forall x :: x < g.bmapstart ==> BlockAt(d', x) == BlockAt(d, x))
  }

  lemma AddrsGrownBy(t: Table, d: Disk, t': Table, d': Disk, r: Ref, b: int)
    requires Addr(t, d, r) == 0 && forall s :: Addr(t', d', s) == if s == r then b else Addr(t, d, s)
    ensures AddrsGrown(t, d, t', d', r.i)
  {
  }

  // A block that was free taken for r, and perhaps an indirect block changed.
  lemma OwnersGrownBy(g: Super, d: Disk, o: Owner, d': Disk, o': Owner, b: int, r: Ref, ind: int)
    requires b !in o && o' == o[b := r] && (ind in o ==> o[ind].Indirect?)
    requires forall c :: c in o ==> DataStart(g) <= c
    requires BlocksBut(g, d, d', b, ind)
    ensures OwnersGrown(g, d, o, d', o')
  {
  }

  lemma GrownTwice(g: Super, t: Table, d: Disk, o: Owner, t1: Table, d1: Disk, o1: Owner, t2: Table, d2: Disk,
                   o2: Owner, i: int)
    requires Grown(g, t, d, o, t1, d1, o1, i) && Grown(g, t1, d1, o1, t2, d2, o2, i)
    ensures Grown(g, t, d, o, t2, d2, o2, i)
  {
  }

  // Growth leaves every other file alone.
  lemma GrownOthers(g: Super, t: Table, d: Disk, o: Owner, t': Table, d': Disk, o': Owner, i: int, j: int)
    requires Own(g, t, d, o) && Grown(g, t, d, o, t', d', o', i) && 0 <= j < |t| && j != i
    ensures SameFile(t, d, t', d', j)
  {
    forall bn | BlockOf(t, d, j, bn) != 0
      ensures BlockOf(t', d', j, bn) == BlockOf(t, d, j, bn)
      ensures BlockAt(d', BlockOf(t, d, j, bn)) == BlockAt(d, BlockOf(t, d, j, bn))
    {
      assert Addr(t, d, Data(j, bn)) == BlockOf(t, d, j, bn) && Addr(t', d', Data(j, bn)) == BlockOf(t', d', j, bn);
    }
  }

  // A taken block stored in a direct slot.
  lemma HoldDirect(g: Super, t: Table, d: Disk, o: Owner, t': Table, d': Disk, o': Owner, i: int, k: int, b: int)
    requires SuperOk(g) && DiskOk(g, d) && TableOk(g, t) && Own(g, t, d, o) && FirstFree(g, d, b)
    requires 0 <= i < |t| && 0 <= k < NDIRECT && AddrAt(t, i, k) == 0
    requires d' == Taken(g, d, b) && t' == SetAddr(t, i, k, b) && o' == o[b := Data(i, k)]
    ensures DiskOk(g, d') && TableOk(g, t') && Own(g, t', d', o') && Grown(g, t, d, o, t', d', o', i)
    ensures Addr(t', d', Data(i, k)) == b && BlockAt(d', b) == Zeros()
    ensures Addr(t', d', Indirect(i)) == Addr(t, d, Indirect(i))
  {
    TakenEffect(g, t, d, o, b, Data(i, k), d');
    StoreDirect(t, d', i, k, b, t');
    assert Addr(t, d, Data(i, k)) == 0;
    AddStep(g, t, d, o, t', d', o', Data(i, k), b);
    AddrsGrownBy(t, d, t', d', Data(i, k), b);
    OwnersGrownBy(g, d, o, d', o', b, Data(i, k), b);
  }

  // A taken block stored as the indirect block.
  lemma HoldIndirect(g: Super, t: Table, d: Disk, o: Owner, t': Table, d': Disk, o': Owner, i: int, b: int)
    requires SuperOk(g) && DiskOk(g, d) && TableOk(g, t) && Own(g, t, d, o) && FirstFree(g, d, b)
    requires 0 <= i < |t| && AddrAt(t, i, NDIRECT) == 0
    requires d' == Taken(g, d, b) && t' == SetAddr(t, i, NDIRECT, b) && o' == o[b := Indirect(i)]
    ensures DiskOk(g, d') && TableOk(g, t') && Own(g, t', d', o') && Grown(g, t, d, o, t', d', o', i)
    ensures AddrAt(t', i, NDIRECT) == b
    ensures forall bn :: Addr(t', d', Data(i, bn)) == Addr(t, d, Data(i, bn))
  {
    TakenEffect(g, t, d, o, b, Indirect(i), d');
    StoreIndirect(t, d', i, b, t');
    assert Addr(t, d, Indirect(i)) == 0;
    AddStep(g, t, d, o, t', d', o', Indirect(i), b);
    AddrsGrownBy(t, d, t', d', Indirect(i), b);
    OwnersGrownBy(g, d, o, d', o', b, Indirect(i), b);
  }

  // A taken block stored in an entry of the indirect block.
  lemma HoldEntry(g: Super, t: Table, d: Disk, o: Owner, d1: Disk, x: seq<int>, d': Disk, o': Owner, i: int, bn: int,
                  b: int)
    requires SuperOk(g) && DiskOk(g, d) && TableOk(g, t) && Own(g, t, d, o) && FirstFree(g, d, b)
    requires 0 <= i < |t| && NDIRECT <= bn < MAXFILE && AddrAt(t, i, NDIRECT) != 0 && Addr(t, d, Data(i, bn)) == 0
    requires d1 == Taken(g, d, b) && |d1| == g.size && DataStart(g) <= AddrAt(t, i, NDIRECT) < g.size
    requires 0 <= AddrAt(t, i, NDIRECT) && d' == d1[AddrAt(t, i, NDIRECT) := x]
    requires ByteRange(x) && WordSet(BlockAt(d, AddrAt(t, i, NDIRECT)), x, bn - NDIRECT, b)
    requires o' == o[b := Data(i, bn)]
    ensures DiskOk(g, d') && Own(g, t, d', o') && Grown(g, t, d, o, t, d', o', i)
    ensures Addr(t, d', Data(i, bn)) == b && BlockAt(d', b) == Zeros()
  {
    var ind := AddrAt(t, i, NDIRECT);
    TakenEffect(g, t, d, o, b, Data(i, bn), d1);
    DataPositive(g);
    IndirectOwned(g, t, d, o, i);
    BlocksButOne(g, d, d1, d', b, ind, x);
    MarkedKept(g, d1, o', d');
    StoreEntry(g, t, d, o, i, bn, b, d');
    AddStep(g, t, d, o, t, d', o', Data(i, bn), b);
    AddrsGrownBy(t, d, t, d', Data(i, bn), b);
    OwnersGrownBy(g, d, o, d', o', b, Data(i, bn), ind);
  }

  // Only block b differs.
  ghost predicate Only(d: Disk, d': Disk, b: int) {
    forall y :: y != b ==> BlockAt(d', y) == BlockAt(d, y)
  }

  lemma OneBlock(g: Super, d: Disk, b: int, x: seq<int>, d': Disk)
    requires DiskOk(g, d) && ByteRange(x) && 0 <= b < |d| && d' == d[b := x]
    ensures Only(d, d', b) && BlockAt(d', b) == x && DiskOk(g, d')
  {
  }

  // New contents for a data block of file i: no address and no bit moves ...
  lemma PokeOwn(g: Super, t: Table, d: Disk, o: Owner, i: int, bn: int, b: int, d': Disk)
    requires SuperOk(g) && Own(g, t, d, o) && DataStart(g) <= b == BlockOf(t, d, i, bn) && Only(d, d', b)
    ensures Own(g, t, d', o) && SameBlocks(t, d, d') && forall s :: Addr(t, d', s) == Addr(t, d, s)
  {
    DataPositive(g);
    assert Addr(t, d, Data(i, bn)) == b;
    AddrsKept(g, t, d, o, d');
    MarkedKept(g, d, o, d');
    KeepStep(g, t, d, o, t, d');
    AddrsAreBlocks(t, d, d');
  }

  // Every file has its blocks where it had them.
  ghost predicate SameBlocks(t: Table, d: Disk, d': Disk) {
    forall j, b :: BlockOf(t, d', j, b) == BlockOf(t, d, j, b)
  }

  lemma AddrsAreBlocks(t: Table, d: Disk, d': Disk)
    requires forall s :: Addr(t, d', s) == Addr(t, d, s)
    ensures SameBlocks(t, d, d')
  {
    forall j, b ensures BlockOf(t, d', j, b) == BlockOf(t, d, j, b) {
      assert Addr(t, d, Data(j, b)) == BlockOf(t, d, j, b) && Addr(t, d', Data(j, b)) == BlockOf(t, d', j, b);
    }
  }

  // ... and no other block of any file changes.
  lemma PokeFiles(g: Super, t: Table, d: Disk, o: Owner, i: int, bn: int, b: int, d': Disk)
    requires 0 < DataStart(g) <= b == BlockOf(t, d, i, bn) && Linked(g, t, d, o) && SameBlocks(t, d, d')
             && Only(d, d', b)
    ensures forall j :: 0 <= j < |t| && j != i ==> SameFile(t, d, t, d', j)
    ensures forall p :: BlockOf(t, d, i, p / BSIZE) != 0 ==>
              FileByte(t, d', i, p) == if p / BSIZE == bn then Byte(d', b, p % BSIZE) else FileByte(t, d, i, p)
  {
    forall j, k ensures BlockOf(t, d, j, k) == b ==> j == i && k == bn {
      assert Addr(t, d, Data(j, k)) == BlockOf(t, d, j, k) && Addr(t, d, Data(i, bn)) == b;
    }
  }

  // Bytes data written at offset off of file i, whose reach covers them.
  ghost predicate Poked(t: Table, d: Disk, t': Table, d': Disk, i: int, off: int, data: seq<int>) {
    forall p :: 0 <= p && (BlockOf(t, d, i, p / BSIZE) != 0 || off <= p < off + |data|) ==>
      && BlockOf(t', d', i, p / BSIZE) != 0
      && FileByte(t', d', i, p) == if off <= p < off + |data| then data[p - off] else FileByte(t, d, i, p)
  }

  ghost predicate OthersKept(g: Super, t: Table, d: Disk, t': Table, d': Disk, i: int) {
    && |t'| == |t| && (forall j :: 0 <= j < |t| && j != i ==> SameFile(t, d, t', d', j))
    && (0 <= i < |t| ==> t'[i] == t[i].(addrs := t'[i].addrs))
    && forall x :: x < g.bmapstart ==> BlockAt(d', x) == BlockAt(d, x)
  }

  lemma OthersKeptTwice(g: Super, t: Table, d: Disk, t1: Table, d1: Disk, t2: Table, d2: Disk, i: int)
    requires OthersKept(g, t, d, t1, d1, i) && OthersKept(g, t1, d1, t2, d2, i)
    ensures OthersKept(g, t, d, t2, d2, i)
  {
    forall j | 0 <= j < |t| && j != i ensures SameFile(t, d, t2, d2, j) {
      assert SameFile(t, d, t1, d1, j) && SameFile(t1, d1, t2, d2, j);
    }
  }

  // A block with data put at offset q.
  function PutBytes(x: seq<int>, q: int, data: seq<int>): seq<int>
    requires 0 <= q && q + |data| <= |x|
  {
    x[..q] + data + x[q + |data|..]
  }

  predicate Bytes(data: seq<int>) {
    forall k :: 0 <= k < |data| ==> 0 <= data[k] < 256
  }

  lemma PokeBytes(g: Super, t: Table, d: Disk, o: Owner, i: int, off: int, data: seq<int>, b: int, d': Disk)
    requires 0 < DataStart(g) <= b == BlockOf(t, d, i, off / BSIZE) && Linked(g, t, d, o) && SameBlocks(t, d, d')
             && Only(d, d', b)
    requires 0 <= off && off % BSIZE + |data| <= BSIZE == |BlockAt(d, b)|
    requires BlockAt(d', b) == PutBytes(BlockAt(d, b), off % BSIZE, data)
    ensures Poked(t, d, t, d', i, off, data)
  {
    PokeFiles(g, t, d, o, i, off / BSIZE, b, d');
    forall p | 0 <= p && (BlockOf(t, d, i, p / BSIZE) != 0 || off <= p < off + |data|)
      ensures BlockOf(t, d', i, p / BSIZE) != 0
      ensures FileByte(t, d', i, p) == if off <= p < off + |data| then data[p - off] else FileByte(t, d, i, p)
    {
      if off <= p < off + |data| {
        SameBlock(off, p);
      }
    }
  }

  lemma SameBlock(off: int, p: int)
    requires 0 <= off <= p && off % BSIZE + (p - off) < BSIZE
    ensures p / BSIZE == off / BSIZE && p % BSIZE == off % BSIZE + (p - off)
  {
  }

  lemma GrownPoked(g: Super, t: Table, d: Disk, o: Owner, t': Table, d': Disk, o': Owner, i: int, off: int)
    requires Own(g, t, d, o) && Grown(g, t, d, o, t', d', o', i) && 0 <= i < |t|
    ensures Poked(t, d, t', d', i, off, []) && OthersKept(g, t, d, t', d', i)
  {
    forall p | 0 <= p && BlockOf(t, d, i, p / BSIZE) != 0
      ensures BlockOf(t', d', i, p / BSIZE) != 0 && FileByte(t', d', i, p) == FileByte(t, d, i, p)
    {
      var r := Data(i, p / BSIZE);
      assert Addr(t, d, r) == BlockOf(t, d, i, p / BSIZE) && Addr(t', d', r) == BlockOf(t', d', i, p / BSIZE);
    }
    forall j | 0 <= j < |t| && j != i ensures SameFile(t, d, t', d', j) {
      GrownOthers(g, t, d, o, t', d', o', i, j);
    }
  }

  // Writing on: bytes more at the place where data ended.
  lemma PokedOn(t: Table, d: Disk, t1: Table, d1: Disk, t2: Table, d2: Disk, i: int,
                off: int, data: seq<int>, at: int, more: seq<int>, all: seq<int>)
    requires Poked(t, d, t1, d1, i, off, data) && Poked(t1, d1, t2, d2, i, at, more)
    requires at == off + |data| && all == data + more
    ensures Poked(t, d, t2, d2, i, off, all)
  {
    forall p | 0 <= p && (BlockOf(t, d, i, p / BSIZE) != 0 || off <= p < off + |all|)
      ensures BlockOf(t2, d2, i, p / BSIZE) != 0
      ensures FileByte(t2, d2, i, p) == if off <= p < off + |all| then all[p - off] else FileByte(t, d, i, p)
    {
      var b1 := FileByte(t1, d1, i, p);
      if off <= p < off + |data| {
        assert BlockOf(t1, d1, i, p / BSIZE) != 0 && b1 == data[p - off] == all[p - off];
        assert FileByte(t2, d2, i, p) == b1;
      } else if at <= p < at + |more| {
        assert FileByte(t2, d2, i, p) == more[p - at] == all[p - off];
      } else {
        assert BlockOf(t1, d1, i, p / BSIZE) != 0 && b1 == FileByte(t, d, i, p);
        assert FileByte(t2, d2, i, p) == b1;
      }
    }
  }

  // A turn of writei's loop as a whole: growth, then the bytes.
  lemma ChunkEffect(g: Super, t: Table, d: Disk, t1: Table, d1: Disk, o1: Owner, i: int, off: int, data: seq<int>,
                    b: int, d2: Disk)
    requires SuperOk(g) && Own(g, t1, d1, o1) && 0 <= i < |t| && 0 <= off
    requires Poked(t, d, t1, d1, i, off, []) && OthersKept(g, t, d, t1, d1, i)
    requires DataStart(g) <= b == BlockOf(t1, d1, i, off / BSIZE) && Only(d1, d2, b)
    requires off % BSIZE + |data| <= BSIZE == |BlockAt(d1, b)|
             && BlockAt(d2, b) == PutBytes(BlockAt(d1, b), off % BSIZE, data)
    ensures Own(g, t1, d2, o1) && BlockOf(t1, d2, i, off / BSIZE) == b
    ensures Poked(t, d, t1, d2, i, off, data) && OthersKept(g, t, d, t1, d2, i)
  {
    DataPositive(g);
    PokeOwn(g, t1, d1, o1, i, off / BSIZE, b, d2);
    PokeFiles(g, t1, d1, o1, i, off / BSIZE, b, d2);
    PokeBytes(g, t1, d1, o1, i, off, data, b, d2);
    PokedOn(t, d, t1, d1, t1, d2, i, off, [], off, data, data);
    assert OthersKept(g, t1, d1, t1, d2, i);
    OthersKeptTwice(g, t, d, t1, d1, t1, d2, i);
  }

  // ----- Inodes on disk -----

  // The disk holds what memory holds.
  ghost predicate Synced(g: Super, t: Table, d: Disk) {
    forall i {:trigger Dinode(g, d, i)} :: 0 <= i < |t| ==> Dinode(g, d, i) == t[i]
  }

  ghost predicate SyncedBut(g: Super, t: Table, d: Disk, i: int) {
    forall j {:trigger Dinode(g, d, j)} :: 0 <= j < |t| && j != i ==> Dinode(g, d, j) == t[j]
  }

  lemma IBlockRange(g: Super, i: int)
    requires SuperOk(g) && 0 <= i < g.ninodes
    ensures 0 < IBlock(g, i) < g.bmapstart && 0 <= i % IPB < IPB
  {
  }

  lemma SyncedKept(g: Super, t: Table, d: Disk, t': Table, d': Disk, i: int)
    requires SuperOk(g) && TableOk(g, t) && |d| == |d'| && SyncedBut(g, t, d, i) && OthersKept(g, t, d, t', d', i)
    ensures SyncedBut(g, t', d', i)
  {
    forall j | 0 <= j < |t'| && j != i ensures Dinode(g, d', j) == t'[j] {
      assert SameFile(t, d, t', d', j) && Dinode(g, d, j) == t[j];
      IBlockRange(g, j);
      assert BlockAt(d', IBlock(g, j)) == BlockAt(d, IBlock(g, j));
    }
  }

  // Disk inode i overwritten with x.
  function WithDinode(g: Super, d: Disk, i: int, x: Inode): Disk {
    if 0 <= IBlock(g, i) < |d| then d[IBlock(g, i) := PutDinode(d[IBlock(g, i)], i % IPB, x)] else d
  }

  lemma DinodeStored(g: Super, d: Disk, i: int, x: Inode, d': Disk, j: int)
    requires SuperOk(g) && DiskOk(g, d) && 0 <= i < g.ninodes && 0 <= j < g.ninodes && InodeOk(x)
             && d' == WithDinode(g, d, i, x)
    ensures Dinode(g, d', j) == if j == i then x else Dinode(g, d, j)
  {
    IBlockRange(g, i);
    IBlockRange(g, j);
    DataPositive(g);
    if IBlock(g, i) == IBlock(g, j) {
      DinodeRoundTrip(d[IBlock(g, i)], i % IPB, x, j % IPB);
    }
  }

  // Changes below the bitmap move no address and no bit.
  lemma BelowBitmap(g: Super, t: Table, d: Disk, o: Owner, d': Disk)
    requires SuperOk(g) && Own(g, t, d, o) && |d'| == |d| == g.size
    requires forall b :: b >= g.bmapstart ==> BlockAt(d', b) == BlockAt(d, b)
    ensures Own(g, t, d', o) && forall s :: Addr(t, d', s) == Addr(t, d, s)
  {
    DataPositive(g);
    AddrsKept(g, t, d, o, d');
    MarkedKept(g, d, o, d');
    KeepStep(g, t, d, o, t, d');
  }

  // iupdate: file i's inode goes to disk; no block, bit or address changes.
  lemma IupdateEffect(g: Super, t: Table, d: Disk, o: Owner, i: int, d': Disk)
    requires SuperOk(g) && DiskOk(g, d) && TableOk(g, t) && Own(g, t, d, o) && 0 <= i < |t|
    requires d' == WithDinode(g, d, i, t[i])
    ensures DiskOk(g, d') && Own(g, t, d', o) && (SyncedBut(g, t, d, i) ==> Synced(g, t, d'))
    ensures forall s :: Addr(t, d', s) == Addr(t, d, s)
    ensures forall b :: b >= DataStart(g) ==> BlockAt(d', b) == BlockAt(d, b)
  {
    IBlockRange(g, i);
    DataPositive(g);
    PutDinodeOk(BlockAt(d, IBlock(g, i)), i % IPB, t[i]);
    BelowBitmap(g, t, d, o, d');
    forall j | 0 <= j < |t| ensures Dinode(g, d', j) == if j == i then t[i] else Dinode(g, d, j) {
      DinodeStored(g, d, i, t[i], d', j);
    }
  }

  // Metadata writes leave every file as it was.
  lemma MetaKept(g: Super, t: Table, d: Disk, o: Owner, d': Disk)
    requires Own(g, t, d, o) && forall s :: Addr(t, d', s) == Addr(t, d, s)
    requires forall b :: b >= DataStart(g) ==> BlockAt(d', b) == BlockAt(d, b)
    ensures forall i :: 0 <= i < |t| ==> SameFile(t, d, t, d', i)
  {
    forall i, bn ensures BlockOf(t, d', i, bn) == BlockOf(t, d, i, bn)
                 ensures BlockOf(t, d, i, bn) != 0 ==> BlockOf(t, d, i, bn) >= DataStart(g) {
      assert Addr(t, d, Data(i, bn)) == BlockOf(t, d, i, bn) && Addr(t, d', Data(i, bn)) == BlockOf(t, d', i, bn);
    }
  }

  // What one write to a file block may log: that block, the indirect block, and the bitmap once
  // for each of them that had to be allocated.
  ghost predicate Turned(marks: int, blocks: set<int>, ind: int, marks': int, blocks': set<int>, ind': int, addr: int,
                         mapped: bool) {
    && marks' <= marks + (if mapped then 0 else 1) + (if ind' != ind then 1 else 0)
    && blocks' <= blocks + {addr, ind'} && (ind != 0 ==> ind' == ind) && 0 !in blocks'
  }

  // a[j] = v in a buffer seen as an array of words.
  method StoreWord(bp: seq<int>, j: int, v: int) returns (x: seq<int>)
    requires ByteRange(bp) && 0 <= j < NINDIRECT && IsWord(v)
    ensures WordSet(bp, x, j, v) && ByteRange(x)
  {
    PutWordSets(bp, j, v);
    x := PutWord(bp, j, v);
  }

  // Since base, only blocks given to log_write changed, and these are home blocks of the file system.
  ghost predicate Recorded(g: Super, base: Disk, disk: Disk, logged: set<int>) {
    && |base| == |disk| && (forall b :: b in logged ==> g.inodestart <= b < g.size)
    && forall b {:trigger BlockAt(disk, b)} :: b !in logged ==> BlockAt(disk, b) == BlockAt(base, b)
  }

  // One more block changed and given to log_write.
  lemma RecordedMore(g: Super, base: Disk, disk: Disk, logged: set<int>, b: int, x: seq<int>, disk': Disk,
                     logged': set<int>)
    requires Recorded(g, base, disk, logged) && g.inodestart <= b < g.size && 0 <= b < |disk| && disk' == disk[b := x]
             && logged' == logged + {b}
    ensures Recorded(g, base, disk', logged')
  {
    forall c | c !in logged' ensures BlockAt(disk', c) == BlockAt(base, c) {
      assert BlockAt(disk, c) == BlockAt(base, c);
    }
  }

  class FileSystem {
    const g: Super
    var disk: Disk
    var inodes: Table            // ip->type, ip->size, ip->addrs, ... of each inode
    ghost var owner: Owner
    // What log_write has recorded in this transaction: bitmap blocks, data and indirect blocks,
    // inode blocks; and how many bits of the bitmap changed.
    ghost var maps: set<int>
    ghost var blocks: set<int>
    ghost var metas: set<int>
    ghost var marks: nat
    ghost var base: Disk         // the disk when the transaction began

    ghost function Logged(): set<int>
      reads this
    {
      maps + blocks + metas
    }

    ghost predicate Shape()
      reads this
    {
      && SuperOk(g) && DiskOk(g, disk) && TableOk(g, inodes) && |maps| <= marks && 0 !in blocks
      && Recorded(g, base, disk, Logged())
    }

    ghost predicate Valid()
      reads this
    {
      Shape() && Own(g, inodes, disk, owner)
    }

    // Allocate a zeroed block: the first whose bit is clear; 0 if there is none.
    method Balloc() returns (r: int)
      requires Shape() && AllSet(g, disk, DataStart(g))
      modifies `disk, `maps, `blocks, `marks
      ensures unchanged(`inodes) && unchanged(`owner) && unchanged(`metas)
      ensures |maps| <= marks && 0 !in blocks && Recorded(g, base, disk, Logged())
      ensures r == 0 <==> Full(g, old(disk))
      ensures r == 0 ==> unchanged(this)
      ensures r != 0 ==> FirstFree(g, old(disk), r) && disk == Taken(g, old(disk), r)
      ensures r != 0 ==> maps == old(maps) + {BBlock(g, r)} && blocks == old(blocks) + {r} && marks == old(marks) + 1
    {
      DataPositive(g);
      ghost var d := disk;
      var b := 0;
      while b < g.size
        invariant 0 <= b && b % BPB == 0 && unchanged(this) && disk == d
        invariant AllSet(g, d, b)
      {
        BBlockRange(g, b);
        var bp := disk[BBlock(g, b)];
        var bi := ScanBlock(b, bp);
        ScanMeans(g, d, b, bi);
        if bi < BPB && b + bi < g.size {
          MarkUsed(b, bi, bp);
          return b + bi;
        }
        b := b + BPB;
      }
      return 0;
    }

    // The first clear bit of a bitmap block, as far as the disk goes.
    method ScanBlock(b: int, bp: seq<int>) returns (bi: int)
      requires |bp| == BSIZE
      ensures 0 <= bi <= BPB && (bi < BPB && b + bi < g.size ==> !BitAt(ByteAt(bp, bi / 8), bi % 8))
      ensures forall k :: 0 <= k < bi ==> BitAt(ByteAt(bp, k / 8), k % 8)
    {
      bi := 0;
      while bi < BPB && b + bi < g.size
        invariant 0 <= bi <= BPB
        invariant forall k :: 0 <= k < bi ==> BitAt(ByteAt(bp, k / 8), k % 8)
      {
        if !BitAt(bp[bi / 8], bi % 8) {
          return;
        }
        bi := bi + 1;
      }
    }

    // Mark block b + bi in use in its bitmap block bp, and zero it.
    method MarkUsed(b: int, bi: int, bp: seq<int>)
      requires SuperOk(g) && DiskOk(g, disk) && 0 <= bi < BPB && b % BPB == 0 && 0 <= b && 0 < b + bi < g.size
      requires bp == BlockAt(disk, BBlock(g, b)) && |maps| <= marks && 0 !in blocks
      requires Recorded(g, base, disk, Logged()) && b + bi >= DataStart(g)
      modifies `disk, `maps, `blocks, `marks
      ensures unchanged(`inodes) && unchanged(`owner) && unchanged(`metas)
      ensures disk == Taken(g, old(disk), b + bi) && |maps| <= marks && 0 !in blocks
              && Recorded(g, base, disk, Logged())
      ensures maps == old(maps) + {BBlock(g, b + bi)} && blocks == old(blocks) + {b + bi} && marks == old(marks) + 1
    {
      OneBit(g, disk, b, bi);
      BBlockRange(g, b + bi);
      DataPositive(g);
      ghost var d, l := disk, Logged();
      var x := bp[bi / 8 := OrBit(bp[bi / 8], bi % 8)];
      disk := disk[BBlock(g, b) := x];
      maps, marks := maps + {BBlock(g, b)}, marks + 1;
      assert Logged() == l + {BBlock(g, b)};
      RecordedMore(g, base, d, l, BBlock(g, b), x, disk, Logged());
      Bzero(b + bi);
    }

    method Bzero(b: int)
      requires 0 < b < |disk| && Recorded(g, base, disk, Logged()) && g.inodestart <= b < g.size
      modifies `disk, `blocks
      ensures disk == old(disk)[b := Zeros()] && blocks == old(blocks) + {b} && Recorded(g, base, disk, Logged())
      ensures unchanged(`inodes) && unchanged(`owner) && unchanged(`metas) && unchanged(`maps) && unchanged(`marks)
    {
      LogBlock(b, Zeros());
    }

    // Change a data or indirect block and give it to log_write.
    method LogBlock(b: int, x: seq<int>)
      requires 0 <= b < |disk| && Recorded(g, base, disk, Logged()) && g.inodestart <= b < g.size
      modifies `disk, `blocks
      ensures disk == old(disk)[b := x] && blocks == old(blocks) + {b} && Recorded(g, base, disk, Logged())
      ensures unchanged(`inodes) && unchanged(`owner) && unchanged(`metas) && unchanged(`maps) && unchanged(`marks)
    {
      ghost var d, l := disk, Logged();
      disk := disk[b := x];
      blocks := blocks + {b};
      assert Logged() == l + {b};
      RecordedMore(g, base, d, l, b, x, disk, Logged());
    }

    // Free a block.  "freeing free block" is the precondition.
    method Bfree(b: int)
      requires Shape() && 0 <= b < g.size && Bit(g, disk, b)
      modifies `disk, `maps, `marks
      ensures disk == ClearBit(g, old(disk), b)
      ensures unchanged(`inodes) && unchanged(`owner) && unchanged(`metas) && unchanged(`blocks)
      ensures maps == old(maps) + {BBlock(g, b)} && marks == old(marks) + 1 && |maps| <= marks
      ensures Recorded(g, base, disk, Logged())
    {
      BBlockRange(g, b);
      DataPositive(g);
      ghost var d, l := disk, Logged();
      var bp := disk[BBlock(g, b)];
      var bi := b % BPB;
      bp := bp[bi / 8 := AndNotBit(bp[bi / 8], bi % 8)];
      disk := disk[BBlock(g, b) := bp];
      maps, marks := maps + {BBlock(g, b)}, marks + 1;
      assert Logged() == l + {BBlock(g, b)};
      RecordedMore(g, base, d, l, BBlock(g, b), bp, disk, Logged());
    }

    // bmap's allocation of a direct block.
    method AllocDirect(i: int, bn: int) returns (addr: int)
      requires Valid() && 0 <= i < |inodes| && 0 <= bn < NDIRECT && AddrAt(inodes, i, bn) == 0
      modifies `disk, `inodes, `owner, `maps, `blocks, `marks
      ensures Valid() && unchanged(`metas)
      ensures addr == 0 <==> Full(g, old(disk))
      ensures addr == 0 ==> unchanged(this)
      ensures Grown(g, old(inodes), old(disk), old(owner), inodes, disk, owner, i)
      ensures addr == Addr(inodes, disk, Data(i, bn)) && (addr != 0 ==> BlockAt(disk, addr) == Zeros())
      ensures Addr(inodes, disk, Indirect(i)) == old(Addr(inodes, disk, Indirect(i)))
      ensures addr != 0 ==> blocks == old(blocks) + {addr} && marks == old(marks) + 1
    {
      ghost var t, d, o := inodes, disk, owner;
      assert Addr(t, d, Data(i, bn)) == AddrAt(t, i, bn);
      addr := Balloc();
      if addr == 0 {
        return;
      }
      inodes := inodes[i := inodes[i].(addrs := inodes[i].addrs[bn := addr])];
      owner := owner[addr := Data(i, bn)];
      HoldDirect(g, t, d, o, inodes, disk, owner, i, bn, addr);
    }

    // bmap's allocation of the indirect block.
    method AllocIndirect(i: int) returns (addr: int)
      requires Valid() && 0 <= i < |inodes| && AddrAt(inodes, i, NDIRECT) == 0
      modifies `disk, `inodes, `owner, `maps, `blocks, `marks
      ensures Valid() && unchanged(`metas)
      ensures addr == 0 <==> Full(g, old(disk))
      ensures addr == 0 ==> unchanged(this)
      ensures Grown(g, old(inodes), old(disk), old(owner), inodes, disk, owner, i)
      ensures addr == Addr(inodes, disk, Indirect(i))
      ensures forall bn :: Addr(inodes, disk, Data(i, bn)) == old(Addr(inodes, disk, Data(i, bn)))
      ensures addr != 0 ==> blocks == old(blocks) + {addr} && marks == old(marks) + 1
    {
      ghost var t, d, o := inodes, disk, owner;
      addr := Balloc();
      if addr == 0 {
        return;
      }
      inodes := inodes[i := inodes[i].(addrs := inodes[i].addrs[NDIRECT := addr])];
      owner := owner[addr := Indirect(i)];
      HoldIndirect(g, t, d, o, inodes, disk, owner, i, addr);
    }

    // bmap's allocation of an indirect entry; bp is the buffer of the indirect block.
    method AllocEntry(i: int, bn: int) returns (addr: int)
      requires Valid() && 0 <= i < |inodes| && NDIRECT <= bn < MAXFILE
      requires AddrAt(inodes, i, NDIRECT) != 0 && Addr(inodes, disk, Data(i, bn)) == 0
      modifies `disk, `owner, `maps, `blocks, `marks
      ensures Valid() && unchanged(`metas) && unchanged(`inodes)
      ensures addr == 0 <==> Full(g, old(disk))
      ensures addr == 0 ==> unchanged(this)
      ensures Grown(g, old(inodes), old(disk), old(owner), inodes, disk, owner, i)
      ensures addr == Addr(inodes, disk, Data(i, bn)) && (addr != 0 ==> BlockAt(disk, addr) == Zeros())
      ensures addr != 0 ==> blocks == old(blocks) + {addr, AddrAt(inodes, i, NDIRECT)} && marks == old(marks) + 1
    {
      ghost var t, d, o := inodes, disk, owner;
      var ind := inodes[i].addrs[NDIRECT];
      IndirectOwned(g, t, d, o, i);
      DataPositive(g);
      var bp := disk[ind];
      addr := Balloc();
      if addr != 0 {
        bp := StoreWord(bp, bn - NDIRECT, addr);
        ghost var d1 := disk;
        TakenEffect(g, t, d, o, addr, Data(i, bn), d1);
        LogBlock(ind, bp);
        owner := owner[addr := Data(i, bn)];
        HoldEntry(g, t, d, o, d1, bp, disk, owner, i, bn, addr);
      }
    }

    // The part of bmap behind the indirect block.
    method BmapIndirect(i: int, bn: int) returns (addr: int)
      requires Valid() && 0 <= i < |inodes| && NDIRECT <= bn < MAXFILE
      modifies `disk, `inodes, `owner, `maps, `blocks, `marks
      ensures Valid() && unchanged(`metas)
      ensures Grown(g, old(inodes), old(disk), old(owner), inodes, disk, owner, i)
      ensures addr == Addr(inodes, disk, Data(i, bn))
      ensures old(Addr(inodes, disk, Data(i, bn))) != 0 ==> unchanged(this)
      ensures addr == 0 ==> Full(g, disk)
      ensures addr != 0 && old(Addr(inodes, disk, Data(i, bn))) == 0 ==> BlockAt(disk, addr) == Zeros()
      ensures blocks <= old(blocks) + {addr, Addr(inodes, disk, Indirect(i))}
      ensures marks == old(marks) + (if addr != 0 && old(Addr(inodes, disk, Data(i, bn))) == 0 then 1 else 0)
                                    + (if Addr(inodes, disk, Indirect(i)) != old(Addr(inodes, disk, Indirect(i)))
                                       then 1 else 0)
    {
      addr := inodes[i].addrs[NDIRECT];
      if addr == 0 {
        addr := AllocIndirect(i);
        if addr == 0 {
          return;
        }
      }
      addr := Word(BlockAt(disk, addr), bn - NDIRECT);
      assert addr == BlockOf(inodes, disk, i, bn) == Addr(inodes, disk, Data(i, bn));
      if addr == 0 {
        ghost var t1, d1, o1 := inodes, disk, owner;
        addr := AllocEntry(i, bn);
        GrownTwice(g, old(inodes), old(disk), old(owner), t1, d1, o1, inodes, disk, owner, i);
      }
    }

    // The block of file i that holds block bn, allocated if need be; 0 if the disk is full.
    method Bmap(i: int, bn: int) returns (addr: int)
      requires Valid() && 0 <= i < |inodes| && 0 <= bn < MAXFILE
      modifies `disk, `inodes, `owner, `maps, `blocks, `marks
      ensures Valid() && unchanged(`metas)
      ensures Grown(g, old(inodes), old(disk), old(owner), inodes, disk, owner, i)
      ensures addr == Addr(inodes, disk, Data(i, bn))
      ensures old(Addr(inodes, disk, Data(i, bn))) != 0 ==> unchanged(this)
      ensures addr == 0 ==> Full(g, disk)
      ensures addr != 0 && old(Addr(inodes, disk, Data(i, bn))) == 0 ==> BlockAt(disk, addr) == Zeros()
      ensures blocks <= old(blocks) + {addr, Addr(inodes, disk, Indirect(i))}
      ensures marks == old(marks) + (if addr != 0 && old(Addr(inodes, disk, Data(i, bn))) == 0 then 1 else 0)
                                    + (if Addr(inodes, disk, Indirect(i)) != old(Addr(inodes, disk, Indirect(i)))
                                       then 1 else 0)
      ensures bn < NDIRECT ==> Addr(inodes, disk, Indirect(i)) == old(Addr(inodes, disk, Indirect(i)))
    {
      assert Addr(inodes, disk, Data(i, bn)) == BlockOf(inodes, disk, i, bn);
      if bn < NDIRECT {
        addr := inodes[i].addrs[bn];
        if addr == 0 {
          addr := AllocDirect(i, bn);
        }
        return;
      }
      addr := BmapIndirect(i, bn);
    }

    // Copy a modified in-memory inode to disk.
    method Iupdate(i: int)
      requires Valid() && 0 <= i < |inodes|
      modifies `disk, `metas
      ensures Valid() && unchanged(`inodes) && unchanged(`owner) && unchanged(`maps) && unchanged(`blocks)
              && unchanged(`marks)
      ensures disk == WithDinode(g, old(disk), i, inodes[i]) && metas == old(metas) + {IBlock(g, i)}
      ensures SyncedBut(g, inodes, old(disk), i) ==> Synced(g, inodes, disk)
      ensures forall s :: Addr(inodes, disk, s) == Addr(inodes, old(disk), s)
      ensures forall j :: 0 <= j < |inodes| ==> SameFile(inodes, old(disk), inodes, disk, j)
    {
      IBlockRange(g, i);
      DataPositive(g);
      ghost var d, l := disk, Logged();
      var bp := disk[IBlock(g, i)];
      bp := PutDinode(bp, i % IPB, inodes[i]);
      disk := disk[IBlock(g, i) := bp];
      metas := metas + {IBlock(g, i)};
      assert Logged() == l + {IBlock(g, i)};
      RecordedMore(g, base, d, l, IBlock(g, i), bp, disk, Logged());
      IupdateEffect(g, inodes, d, owner, i, disk);
      MetaKept(g, inodes, d, owner, disk);
    }

    // One turn of writei's loop: data are the bytes either_copyin delivered.
    method WriteChunk(i: int, off: int, data: seq<int>) returns (addr: int, ghost stored: seq<int>)
      requires Valid() && 0 <= i < |inodes| && 0 <= off && off / BSIZE < MAXFILE
      requires Bytes(data) && off % BSIZE + |data| <= BSIZE
      modifies `disk, `inodes, `owner, `maps, `blocks, `marks
      ensures Valid() && unchanged(`metas)
      ensures OthersKept(g, old(inodes), old(disk), inodes, disk, i)
      ensures stored == if addr == 0 then [] else data
      ensures Poked(old(inodes), old(disk), inodes, disk, i, off, stored)
      ensures addr == 0 ==> Full(g, disk)
      ensures addr == BlockOf(inodes, disk, i, off / BSIZE)
      ensures Turned(old(marks), old(blocks), old(AddrAt(inodes, i, NDIRECT)), marks, blocks,
                     AddrAt(inodes, i, NDIRECT),
                     addr, old(BlockOf(inodes, disk, i, off / BSIZE)) != 0)
    {
      addr := Bmap(i, off / BSIZE);
      stored := if addr == 0 then [] else data;
      GrownPoked(g, old(inodes), old(disk), old(owner), inodes, disk, owner, i, off);
      assert Addr(old(inodes), old(disk), Indirect(i)) == AddrAt(old(inodes), i, NDIRECT);
      if addr == 0 {
        return;
      }
      ghost var t1, d1 := inodes, disk;
      assert Addr(t1, d1, Data(i, off / BSIZE)) == BlockOf(t1, d1, i, off / BSIZE) == addr;
      DataPositive(g);
      var bp := disk[addr];
      bp := PutBytes(bp, off % BSIZE, data);
      LogBlock(addr, bp);
      OneBlock(g, d1, addr, bp, disk);
      ChunkEffect(g, old(inodes), old(disk), t1, d1, owner, i, off, data, addr, disk);
    }
  }

  lemma ScanMeans(g: Super, d: Disk, b: int, bi: int)
    requires b % BPB == 0 && 0 <= b && 0 <= bi <= BPB && AllSet(g, d, b)
    requires forall k :: 0 <= k < bi ==> BitAt(ByteAt(BlockAt(d, BBlock(g, b)), k / 8), k % 8)
    ensures AllSet(g, d, b + bi) && (b + BPB) % BPB == 0
    ensures bi < BPB ==> (Bit(g, d, b + bi) <==> BitAt(ByteAt(BlockAt(d, BBlock(g, b)), bi / 8), bi % 8))
    ensures bi < BPB ==> BBlock(g, b + bi) == BBlock(g, b) && (b + bi) % BPB == bi
  {
    forall c | 0 <= c < b + bi && c < g.size ensures Bit(g, d, c) {
      if b <= c {
        OneBit(g, d, b, c - b);
      }
    }
    if bi < BPB {
      OneBit(g, d, b, bi);
    }
  }

  lemma OneBit(g: Super, d: Disk, b: int, k: int)
    requires b % BPB == 0 && 0 <= k < BPB
    ensures BBlock(g, b + k) == BBlock(g, b) && (b + k) % BPB == k
    ensures Bit(g, d, b + k) <==> BitAt(ByteAt(BlockAt(d, BBlock(g, b)), k / 8), k % 8)
  {
    var q := b / BPB;
    assert b + k == BPB * q + k;
  }
}
