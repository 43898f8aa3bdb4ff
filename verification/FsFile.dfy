/** File contents as byte strings: readi, writei and filewrite over the block layer, and an initial image. */
module FsFile {
  import opened FsLayout
  import opened FsMap
  import opened Fs
  import opened Common

  // c with data written at off, growing c if need be.
  function Overwrite(c: seq<int>, off: int, data: seq<int>): seq<int>
    requires 0 <= off <= |c|
  {
    c[..off] + data + (if off + |data| <= |c| then c[off + |data|..] else [])
  }

  // Byte by byte, what a write leaves.
  lemma OverwriteAt(x: seq<int>, off: int, b: seq<int>, x': seq<int>, j: int)
    requires 0 <= off <= |x| && x' == Overwrite(x, off, b) && 0 <= j < |x'|
    ensures |x'| == Max(|x|, off + |b|) && x'[j] == if off <= j < off + |b| then b[j - off] else x[j]
  {
  }

  // The blocks written so far make the new byte string once the size is set.
  lemma WriteDone(t: Table, d: Disk, t': Table, d': Disk, i: int, off: int, data: seq<int>, r: int)
    requires Mapped(t, d, i) && 0 <= off <= Size(t, i) && 0 <= r <= |data| && off + r <= MAXFILE * BSIZE
    requires Poked(t, d, t', d', i, off, data) && Size(t', i) == Max(Size(t, i), off + r)
    ensures Mapped(t', d', i)
    ensures Content(t', d', i) == Overwrite(Content(t, d, i), off, data)[..Size(t', i)]
  {
    forall bn | 0 <= bn && bn * BSIZE < Size(t', i) ensures BlockOf(t', d', i, bn) != 0 {
      var p := bn * BSIZE;
      assert p / BSIZE == bn;
      if p < Size(t, i) {
        MappedAt(t, d, i, p);
      }
    }
    forall p | 0 <= p < Size(t', i)
      ensures FileByte(t', d', i, p) == Overwrite(Content(t, d, i), off, data)[p]
    {
      if p < Size(t, i) {
        MappedAt(t, d, i, p);
      }
    }
  }

  function SetSize(t: Table, i: int, n: int): Table {
    if 0 <= i < |t| then t[i := t[i].(size := n)] else t
  }

  // The size is no part of any address.
  lemma SetSizeEffect(g: Super, t: Table, d: Disk, o: Owner, i: int, n: int, t': Table)
    requires TableOk(g, t) && Own(g, t, d, o) && 0 <= i < |t| && 0 <= n <= MAXFILE * BSIZE && t' == SetSize(t, i, n)
    ensures TableOk(g, t') && Own(g, t', d, o) && forall s :: Addr(t', d, s) == Addr(t, d, s)
    ensures forall j, bn :: BlockOf(t', d, j, bn) == BlockOf(t, d, j, bn)
  {
    forall s ensures Addr(t', d, s) == Addr(t, d, s) {
    }
    KeepStep(g, t, d, o, t', d);
  }

  lemma PokedSame(t: Table, d: Disk, t1: Table, d1: Disk, t2: Table, d2: Disk, i: int, off: int, data: seq<int>)
    requires Poked(t, d, t1, d1, i, off, data) && SameData(t1, d1, t2, d2, i)
    ensures Poked(t, d, t2, d2, i, off, data)
  {
  }

  lemma ResizedData(t: Table, d: Disk, t': Table, d': Disk, j: int)
    requires forall bn :: BlockOf(t', d, j, bn) == BlockOf(t, d, j, bn)
    requires SameData(t', d, t', d', j)
    ensures SameData(t, d, t', d', j)
  {
  }

  // File system between operations: owned, mapped, and the same on disk as in memory.
  ghost predicate Clean(fs: FileSystem)
    reads fs
  {
    fs.Valid() && AllMapped(fs.inodes, fs.disk) && Synced(fs.g, fs.inodes, fs.disk)
  }

  // The end of writei: extend the file to end if that is past its size, and update the inode.
  method FinishWrite(fs: FileSystem, i: int, end: int)
    requires fs.Valid() && 0 <= i < |fs.inodes| && SyncedBut(fs.g, fs.inodes, fs.disk, i)
    requires 0 <= end <= MAXFILE * BSIZE && 0 <= Size(fs.inodes, i) <= MAXFILE * BSIZE
    modifies fs`disk, fs`inodes, fs`owner, fs`maps, fs`blocks, fs`metas, fs`marks
    ensures fs.Valid() && Synced(fs.g, fs.inodes, fs.disk)
    ensures fs.maps == old(fs.maps) && fs.blocks == old(fs.blocks) && fs.marks == old(fs.marks)
            && fs.owner == old(fs.owner)
    ensures fs.metas == old(fs.metas) + {IBlock(fs.g, i)}
    ensures fs.inodes == SetSize(old(fs.inodes), i, Max(Size(old(fs.inodes), i), end))
    ensures forall j :: 0 <= j < |fs.inodes| ==> SameData(old(fs.inodes), old(fs.disk), fs.inodes, fs.disk, j)
  {
    ghost var t, d := fs.inodes, fs.disk;
    if end > fs.inodes[i].size {
      fs.inodes := fs.inodes[i := fs.inodes[i].(size := end)];
    }
    assert fs.inodes == SetSize(t, i, Max(Size(t, i), end));
    SetSizeEffect(fs.g, t, d, fs.owner, i, Max(Size(t, i), end), fs.inodes);
    fs.Iupdate(i);
    forall j | 0 <= j < |fs.inodes| ensures SameData(t, d, fs.inodes, fs.disk, j) {
      assert SameFile(fs.inodes, d, fs.inodes, fs.disk, j);
      ResizedData(t, d, fs.inodes, fs.disk, j);
    }
  }

  // What writei reports when only avail source bytes can be read: whole blocks of progress.
  function Reported(off: int, avail: int): int {
    Max(0, (off + avail) / BSIZE * BSIZE - off)
  }

  // Turn c of the loop starts at tot, where the write started q bytes into a block.
  predicate AtTurn(q: int, tot: int, c: int) {
    0 <= c && ((c == 0 && tot == 0) || q + tot == c * BSIZE)
  }

  lemma TurnStart(off: int, tot: int, c: int)
    requires AtTurn(off % BSIZE, tot, c)
    ensures tot > 0 ==> (off + tot) % BSIZE == 0
  {
  }

  lemma FaultReport(off: int, tot: int, m: int, avail: int, c: int)
    requires 0 <= off && 0 <= tot <= avail < tot + m && (off + tot) % BSIZE + m <= BSIZE && AtTurn(off % BSIZE, tot, c)
    ensures tot == Reported(off, avail)
  {
    TurnStart(off, tot, c);
    SameBlock(off + tot, off + avail);
  }

  // What c turns of writei's loop may have logged: ind0 is the indirect block at the start, ind now;
  // aligned says whether the first turn could allocate.
  ghost predicate Charged(marks: int, blocks: set<int>, ind0: int, ind: int, c: int, aligned: bool) {
    && marks <= c - (if !aligned && c > 0 then 1 else 0) + (if ind != ind0 then 1 else 0)
    && (ind0 != 0 ==> ind == ind0) && Covered(blocks, ind, c)
  }

  // Besides ind, blocks has at most c members.
  ghost predicate Covered(blocks: set<int>, ind: int, c: int) {
    0 !in blocks && |blocks - {ind}| <= c
  }

  lemma CoverTurn(blocks: set<int>, ind: int, c: int, blocks': set<int>, ind': int, addr: int)
    requires Covered(blocks, ind, c) && blocks' <= blocks + {addr, ind'} && (ind != 0 ==> ind' == ind) && 0 !in blocks'
    ensures Covered(blocks', ind', c + 1)
  {
    var a, b := blocks' - {ind'}, (blocks - {ind}) + {addr};
    assert a <= b;
    SubsetSize(a, b);
    UsedMore(blocks - {ind}, addr);
  }

  lemma ChargeTurn(marks: int, blocks: set<int>, ind0: int, ind: int, c: int, aligned: bool,
                   marks': int, blocks': set<int>, ind': int, addr: int, mapped: bool)
    requires Charged(marks, blocks, ind0, ind, c, aligned) && 0 <= c && (c == 0 && !aligned ==> mapped)
    requires Turned(marks, blocks, ind, marks', blocks', ind', addr, mapped)
    ensures Charged(marks', blocks', ind0, ind', c + 1, aligned)
  {
    CoverTurn(blocks, ind, c, blocks', ind', addr);
  }

  // The budget filewrite counts on: three blocks of data fit one transaction.
  lemma ChargeTotal(marks: int, maps: set<int>, blocks: set<int>, ind0: int, ind: int, c: int, aligned: bool)
    requires Charged(marks, blocks, ind0, ind, c, aligned) && |maps| <= marks
    requires 0 <= c <= 3 + (if aligned then 0 else 1)
    ensures |maps| + |blocks| < MAXOPBLOCKS
  {
    UsedMore(blocks - {ind}, ind);
    SubsetSize(blocks, blocks - {ind} + {ind});
  }

  ghost predicate NothingLogged(fs: FileSystem)
    reads fs
  {
    fs.maps == {} && fs.blocks == {} && fs.metas == {} && fs.marks == 0
  }

  // A transaction within its reservation: fewer than MAXOPBLOCKS blocks before the inode block, which is last.
  ghost predicate FitsLog(fs: FileSystem, i: int)
    reads fs
  {
    |fs.maps| + |fs.blocks| < MAXOPBLOCKS && fs.metas <= {IBlock(fs.g, i)}
  }

  lemma UsedMore(used: set<int>, a: int)
    ensures |used + {a}| <= |used| + 1
  {
    if a in used {
      assert used + {a} == used;
    }
  }

  lemma SubsetSize(a: set<int>, b: set<int>)
    requires a <= b
    ensures |a| <= |b|
  {
    assert b == a + (b - a);
  }

  // How writei's loop can end: all done; at a source fault; out of disk, at a block boundary past the file's size.
  ghost predicate Outcome(off: int, n: int, avail: int, tot: int, w: int, size: int, full: bool) {
    && 0 <= tot <= w <= n
    && (|| tot == w == n == avail
        || (avail < n && w == avail && tot == Reported(off, avail))
        || (tot == w < n && (tot > 0 ==> (off + tot) % BSIZE == 0) && full && off + tot >= size))
  }

  // A short count is zero or ends at a block boundary, and less than a block beyond it reached the file.
  lemma OutcomeMeans(off: int, n: int, avail: int, tot: int, w: int, size: int, full: bool)
    requires Outcome(off, n, avail, tot, w, size, full) && 0 <= off && 0 <= avail
    ensures tot < n ==> tot == 0 || (off + tot) % BSIZE == 0
    ensures w == tot || (w == avail < n && w - tot < BSIZE)
    ensures tot < n ==> avail < n || (full && off + tot >= size)
  {
    var q, r := (off + avail) / BSIZE, (off + avail) % BSIZE;
    assert off + avail == BSIZE * q + r;
    if avail < n && w == avail && tot == Reported(off, avail) {
      assert tot == Max(0, BSIZE * q - off);
    }
  }

  // After c turns that brought src[..w] to file i of (t, d); logging says whether the log was empty then.
  ghost predicate Writing(fs: FileSystem, t: Table, d: Disk, i: int, off: int, src: seq<int>, w: int, c: int,
                          logging: bool)
    reads fs
  {
    && fs.Valid() && 0 <= i < |fs.inodes| && 0 <= c && 0 <= w <= |src|
    && OthersKept(fs.g, t, d, fs.inodes, fs.disk, i) && Poked(t, d, fs.inodes, fs.disk, i, off, src[..w])
    && (c == 0 && off % BSIZE != 0 ==> BlockOf(fs.inodes, fs.disk, i, off / BSIZE) != 0)
    && (logging ==> Charged(fs.marks, fs.blocks, AddrAt(t, i, NDIRECT), AddrAt(fs.inodes, i, NDIRECT), c,
                            off % BSIZE == 0))
  }

  // Where the loop stands: stopped with an outcome, or about to take turn c.
  ghost predicate Progress(off: int, n: int, avail: int, tot: int, w: int, c: int, stop: bool, size: int, full: bool) {
    && (if stop then Outcome(off, n, avail, tot, w, size, full)
        else 0 <= tot == w <= avail && (tot < n ==> AtTurn(off % BSIZE, tot, c)))
    && (n <= 3 * BSIZE ==> c <= 3 + (if off % BSIZE == 0 then 0 else 1))
  }

  // The loop of writei.  w counts the bytes that reached blocks, c the turns.
  method WriteBlocks(fs: FileSystem, i: int, off: int, src: seq<int>, avail: int)
    returns (tot: int, ghost w: int, ghost c: int)
    requires fs.Valid() && 0 <= i < |fs.inodes| && Mapped(fs.inodes, fs.disk, i)
    requires 0 <= off <= Size(fs.inodes, i) && off + |src| <= MAXFILE * BSIZE && Bytes(src) && 0 <= avail <= |src|
    modifies fs`disk, fs`inodes, fs`owner, fs`maps, fs`blocks, fs`metas, fs`marks
    ensures Writing(fs, old(fs.inodes), old(fs.disk), i, off, src, w, c, old(NothingLogged(fs)))
    ensures fs.metas == old(fs.metas)
    ensures Progress(off, |src|, avail, tot, w, c, true, old(Size(fs.inodes, i)), Full(fs.g, fs.disk))
  {
    ghost var t, d, metas, logging := fs.inodes, fs.disk, fs.metas, NothingLogged(fs);
    WritingStart(fs, i, off, src);
    var stop := false;
    tot, w, c := 0, 0, 0;
    while tot < |src| && !stop
      invariant Writing(fs, t, d, i, off, src, w, c, logging) && fs.metas == metas
      invariant Progress(off, |src|, avail, tot, w, c, stop, Size(t, i), Full(fs.g, fs.disk))
      decreases |src| - tot, !stop
    {
      tot, stop, w, c := WriteTurn(fs, i, off, tot, src, avail, t, d, c, logging);
    }
  }

  // One turn of the loop; stop is its break.
  method WriteTurn(fs: FileSystem, i: int, off: int, tot: int, src: seq<int>, avail: int,
                   ghost t: Table, ghost d: Disk, ghost c: int, ghost logging: bool)
    returns (next: int, stop: bool, ghost w: int, ghost c': int)
    requires Writing(fs, t, d, i, off, src, tot, c, logging) && 0 <= off
    requires Progress(off, |src|, avail, tot, tot, c, false, Size(t, i), Full(fs.g, fs.disk)) && Mapped(t, d, i)
    requires tot < |src| && avail <= |src| && off + |src| <= MAXFILE * BSIZE && Bytes(src)
    modifies fs`disk, fs`inodes, fs`owner, fs`maps, fs`blocks, fs`metas, fs`marks
    ensures Writing(fs, t, d, i, off, src, w, c', logging) && fs.metas == old(fs.metas)
    ensures Progress(off, |src|, avail, next, w, c', stop, Size(t, i), Full(fs.g, fs.disk))
    ensures if stop then next == tot else next > tot
  {
    var m := Min(|src| - tot, BSIZE - (off + tot) % BSIZE);
    var k := Min(m, avail - tot);
    BlockBound(off + tot);
    var addr := StoreChunk(fs, i, off, tot, src, k, t, d, c, logging);
    c' := c + 1;
    stop := addr == 0 || k < m;
    next := if stop then tot else tot + m;
    w := if addr == 0 then tot else tot + k;
    TurnProgress(off, tot, |src|, avail, c, m, addr == 0, Size(t, i), Full(fs.g, fs.disk));
  }

  lemma TurnProgress(off: int, tot: int, n: int, avail: int, c: int, m: int, none: bool, size: int, full: bool)
    requires Progress(off, n, avail, tot, tot, c, false, size, full) && 0 <= off && 0 <= tot < n && avail <= n
    requires m == Min(n - tot, BSIZE - (off + tot) % BSIZE) && (none ==> full && off + tot >= size)
    ensures var k := Min(m, avail - tot);
            Progress(off, n, avail, if none || k < m then tot else tot + m,
                     if none then tot else tot + k, c + 1, none || k < m, size, full)
    ensures 0 < m
  {
    TurnStart(off, tot, c);
    NextTurn(off, tot, m, n, c);
    if n <= 3 * BSIZE {
      TurnBound(off % BSIZE, tot, n, c);
    }
    if avail - tot < m && !none {
      FaultReport(off, tot, m, avail, c);
    }
  }

  lemma WritingStart(fs: FileSystem, i: int, off: int, src: seq<int>)
    requires fs.Valid() && 0 <= i < |fs.inodes| && Mapped(fs.inodes, fs.disk, i) && 0 <= off <= Size(fs.inodes, i)
    ensures Writing(fs, fs.inodes, fs.disk, i, off, src, 0, 0, NothingLogged(fs))
  {
    FirstTurn(fs.inodes, fs.disk, i, off);
    if NothingLogged(fs) {
      assert fs.blocks - {AddrAt(fs.inodes, i, NDIRECT)} == {};
    }
  }

  // The work of a turn that gets k bytes, seen from the start (t, d) of the write.
  method StoreChunk(fs: FileSystem, i: int, off: int, tot: int, src: seq<int>, k: int,
                    ghost t: Table, ghost d: Disk, ghost c: int, ghost logging: bool)
    returns (addr: int)
    requires Writing(fs, t, d, i, off, src, tot, c, logging) && (c == 0 ==> tot == 0) && Mapped(t, d, i)
    requires 0 <= off && 0 <= tot <= tot + k <= |src| && Bytes(src)
    requires (off + tot) % BSIZE + k <= BSIZE && (off + tot) / BSIZE < MAXFILE
    modifies fs`disk, fs`inodes, fs`owner, fs`maps, fs`blocks, fs`metas, fs`marks
    ensures Writing(fs, t, d, i, off, src, if addr == 0 then tot else tot + k, c + 1, logging)
    ensures fs.metas == old(fs.metas) && (addr == 0 ==> Full(fs.g, fs.disk) && off + tot >= Size(t, i))
  {
    ghost var t1, d1, mk, bl, ind := fs.inodes, fs.disk, fs.marks, fs.blocks, AddrAt(fs.inodes, i, NDIRECT);
    var cur, data := off + tot, src[tot..tot + k];
    ghost var mapped, aligned, before := BlockOf(t1, d1, i, cur / BSIZE) != 0, off % BSIZE == 0, src[..tot];
    assert c == 0 ==> cur == off;
    assert c == 0 && !aligned ==> mapped;
    ghost var more;
    addr, more := fs.WriteChunk(i, cur, data);
    OthersKeptTwice(fs.g, t, d, t1, d1, fs.inodes, fs.disk, i);
    ghost var all := src[..if addr == 0 then tot else tot + k];
    assert all == before + more;
    PokedOn(t, d, t1, d1, fs.inodes, fs.disk, i, off, before, cur, more, all);
    if addr == 0 {
      PastEnd(t, d, fs.inodes, fs.disk, i, off, all, cur);
    }
    if logging {
      ghost var ind0, ind' := AddrAt(t, i, NDIRECT), AddrAt(fs.inodes, i, NDIRECT);
      ChargeTurn(mk, bl, ind0, ind, c, aligned, fs.marks, fs.blocks, ind', addr, mapped);
    }
  }

  // A missing block is past the end of the file.
  lemma PastEnd(t: Table, d: Disk, t': Table, d': Disk, i: int, off: int, data: seq<int>, cur: int)
    requires Poked(t, d, t', d', i, off, data) && Mapped(t, d, i) && 0 <= cur && BlockOf(t', d', i, cur / BSIZE) == 0
    ensures cur >= Size(t, i)
  {
    if cur < Size(t, i) {
      MappedAt(t, d, i, cur);
    }
  }

  lemma BlockBound(cur: int)
    requires 0 <= cur < MAXFILE * BSIZE
    ensures cur / BSIZE < MAXFILE
  {
  }

  // A write into the middle of a block finds that block there.
  lemma FirstTurn(t: Table, d: Disk, i: int, off: int)
    requires Mapped(t, d, i) && 0 <= off <= Size(t, i)
    ensures off % BSIZE != 0 ==> BlockOf(t, d, i, off / BSIZE) != 0
  {
    if off % BSIZE != 0 {
      SameBlock(off / BSIZE * BSIZE, off);
      MappedAt(t, d, i, off / BSIZE * BSIZE);
    }
  }

  lemma NextTurn(off: int, tot: int, m: int, n: int, c: int)
    requires 0 <= off && 0 <= tot < n && m == Min(n - tot, BSIZE - (off + tot) % BSIZE)
    requires AtTurn(off % BSIZE, tot, c)
    ensures 0 < m <= BSIZE && (off + tot) % BSIZE + m <= BSIZE && (tot + m < n ==> AtTurn(off % BSIZE, tot + m, c + 1))
  {
    TurnStart(off, tot, c);
  }

  // Turn c + 1 of a write of at most three blocks.
  lemma TurnBound(q: int, tot: int, n: int, c: int)
    requires 0 <= q < BSIZE && 0 <= tot < n <= 3 * BSIZE && AtTurn(q, tot, c)
    ensures c + 1 <= 3 + (if q == 0 then 0 else 1)
  {
  }

  lemma FullKept(g: Super, d: Disk, o: Owner, d': Disk)
    requires Marked(g, d, o) && Marked(g, d', o) && Full(g, d)
    ensures Full(g, d')
  {
  }

  // Files other than i kept their inode and their bytes.
  ghost predicate OthersSame(t: Table, d: Disk, t': Table, d': Disk, i: int) {
    |t'| == |t| && forall j :: 0 <= j < |t| && j != i ==> t'[j] == t[j] && Content(t', d', j) == Content(t, d, j)
  }

  lemma OthersDone(g: Super, t: Table, d: Disk, t1: Table, d1: Disk, t2: Table, d2: Disk, i: int)
    requires AllMapped(t, d) && OthersKept(g, t, d, t1, d1, i) && |t2| == |t1|
    requires forall j :: 0 <= j < |t1| && j != i ==> t2[j] == t1[j] && SameData(t1, d1, t2, d2, j)
    ensures OthersSame(t, d, t2, d2, i) && forall j :: 0 <= j < |t| && j != i ==> Mapped(t2, d2, j)
  {
    forall j | 0 <= j < |t| && j != i
      ensures t2[j] == t[j] && Content(t2, d2, j) == Content(t, d, j) && Mapped(t2, d2, j)
    {
      assert SameFile(t, d, t1, d1, j);
      assert Mapped(t, d, j);
      SameContent(t, d, t1, d1, j);
      assert SameFile(t1, d1, t2, d2, j);
      SameContent(t1, d1, t2, d2, j);
    }
  }

  // The attributes writei leaves alone.
  predicate SameAttributes(x: Inode, y: Inode) {
    x.kind == y.kind && x.major == y.major && x.minor == y.minor && x.nlink == y.nlink
  }

  // What a write at off of file i did to the file system: src[..w] stored, size for src[..done].
  ghost predicate Stored(t: Table, d: Disk, t': Table, d': Disk, i: int, off: int, src: seq<int>, done: int, w: int) {
    && 0 <= i < |t| && OthersSame(t, d, t', d', i) && SameAttributes(t'[i], t[i])
    && 0 <= off <= |Content(t, d, i)| && 0 <= done <= w <= |src|
    && var c := Content(t, d, i);
       Content(t', d', i) == Overwrite(c, off, src[..w])[..Max(|c|, off + done)]
  }

  // Write src at off; only avail bytes of the source can be read.  Returns the count it reports, or -1.
  method Writei(fs: FileSystem, i: int, off: int, src: seq<int>, avail: int) returns (r: int, ghost w: int)
    requires Clean(fs) && 0 <= i < |fs.inodes| && 0 <= off < U32 && |src| < U32 && Bytes(src) && 0 <= avail <= |src|
    modifies fs`disk, fs`inodes, fs`owner, fs`maps, fs`blocks, fs`metas, fs`marks
    ensures Clean(fs)
    ensures r == -1 <==> off > |old(Content(fs.inodes, fs.disk, i))| || off + |src| > MAXFILE * BSIZE
    ensures r == -1 ==> unchanged(fs) && w == 0
    ensures r != -1 ==> Outcome(off, |src|, avail, r, w, |old(Content(fs.inodes, fs.disk, i))|, Full(fs.g, fs.disk))
    ensures r != -1 ==> Stored(old(fs.inodes), old(fs.disk), fs.inodes, fs.disk, i, off, src, r, w)
    ensures r != -1 && r < |src| ==> r == 0 || (off + r) % BSIZE == 0
    ensures r != -1 ==> 0 <= r <= w <= |src| && (w == r || (w == avail < |src| && w - r < BSIZE))
    ensures old(NothingLogged(fs)) && |src| <= 3 * BSIZE ==> FitsLog(fs, i)
  {
    SizeIsLength(fs.inodes, fs.disk, i);
    var size, n := fs.inodes[i].size, |src|;
    WrapTest(off, n, size);
    if off > size || (off + n) % U32 < off {
      return -1, 0;
    }
    if off + n > MAXFILE * BSIZE {
      return -1, 0;
    }
    r, w := WriteFits(fs, i, off, src, avail);
    OutcomeMeans(off, |src|, avail, r, w, size, Full(fs.g, fs.disk));
  }

  lemma SizeIsLength(t: Table, d: Disk, i: int)
    requires AllMapped(t, d) && 0 <= i < |t|
    ensures |Content(t, d, i)| == t[i].size == Size(t, i) && 0 <= t[i].size <= MAXFILE * BSIZE
  {
    assert Mapped(t, d, i);
  }

  // The test for wrap-around refuses nothing that the test for size would not.
  lemma WrapTest(off: int, n: int, size: int)
    requires 0 <= off < U32 && 0 <= n < U32 && size <= MAXFILE * BSIZE
    ensures (off + n) % U32 < off ==> off > size || off + n > MAXFILE * BSIZE
  {
  }

  // writei past its argument checks.
  method WriteFits(fs: FileSystem, i: int, off: int, src: seq<int>, avail: int) returns (r: int, ghost w: int)
    requires Clean(fs) && 0 <= i < |fs.inodes| && Bytes(src) && 0 <= avail <= |src|
    requires 0 <= off <= Size(fs.inodes, i) && off + |src| <= MAXFILE * BSIZE
    modifies fs`disk, fs`inodes, fs`owner, fs`maps, fs`blocks, fs`metas, fs`marks
    ensures Clean(fs) && Outcome(off, |src|, avail, r, w, old(Size(fs.inodes, i)), Full(fs.g, fs.disk))
    ensures Stored(old(fs.inodes), old(fs.disk), fs.inodes, fs.disk, i, off, src, r, w)
    ensures old(NothingLogged(fs)) && |src| <= 3 * BSIZE ==> FitsLog(fs, i)
  {
    ghost var t, d, g, logging := fs.inodes, fs.disk, fs.g, NothingLogged(fs);
    assert Mapped(t, d, i);
    ghost var c;
    r, w, c := WriteBlocks(fs, i, off, src, avail);
    ghost var t1, d1 := fs.inodes, fs.disk;
    SyncedKept(g, t, d, t1, d1, i);
    FinishWrite(fs, i, off + r);
    StoredDone(g, t, d, t1, d1, fs.inodes, fs.disk, i, off, src, r, w);
    if Full(g, d1) {
      FullKept(g, d1, fs.owner, fs.disk);
    }
    if logging && |src| <= 3 * BSIZE {
      ChargeTotal(fs.marks, fs.maps, fs.blocks, AddrAt(t, i, NDIRECT), AddrAt(t1, i, NDIRECT), c, off % BSIZE == 0);
    }
  }

  lemma StoredDone(g: Super, t: Table, d: Disk, t1: Table, d1: Disk, t2: Table, d2: Disk, i: int, off: int,
                   src: seq<int>, r: int, w: int)
    requires AllMapped(t, d) && 0 <= i < |t| && 0 <= off <= Size(t, i) && 0 <= r <= w <= |src|
             && off + r <= MAXFILE * BSIZE
    requires OthersKept(g, t, d, t1, d1, i) && Poked(t, d, t1, d1, i, off, src[..w])
    requires t2 == SetSize(t1, i, Max(Size(t1, i), off + r))
             && forall j :: 0 <= j < |t1| ==> SameData(t1, d1, t2, d2, j)
    ensures Stored(t, d, t2, d2, i, off, src, r, w) && AllMapped(t2, d2)
  {
    assert Mapped(t, d, i);
    PokedSame(t, d, t1, d1, t2, d2, i, off, src[..w]);
    WriteDone(t, d, t2, d2, i, off, src[..w], r);
    OthersDone(g, t, d, t1, d1, t2, d2, i);
  }

  // ----- readi -----

  // What a read of n bytes at off finds.
  function Slice(c: seq<int>, off: int, n: int): seq<int> {
    if 0 <= off <= |c| && 0 <= n then c[off..Min(off + n, |c|)] else []
  }

  function ReadResult(c: seq<int>, off: int, n: int, avail: int): (int, seq<int>)
    requires 0 <= avail
  {
    var want := if off + n < U32 then Slice(c, off, n) else [];
    if |want| <= avail then (|want|, want) else (-1, want[..avail])
  }

  lemma ReadResultIs(c: seq<int>, off: int, n: int, n': int, avail: int)
    requires 0 <= avail && 0 <= off <= |c| && 0 <= n && off + n < U32 && n' == (if off + n > |c| then |c| - off else n)
    ensures ReadResult(c, off, n, avail) == (if n' <= avail then n' else -1, c[off..off + Min(n', avail)])
  {
    assert Slice(c, off, n) == c[off..off + n'];
    if avail < n' {
      assert c[off..off + n'][..avail] == c[off..off + avail];
    }
  }

  /** What is read at off: the bytes from there on, as many as were asked for and are there, if the destination takes
      them. */
  lemma ReadAt(c: seq<int>, off: int, n: int, avail: int, r: int, dst: seq<int>)
    requires 0 <= off <= |c| && 0 <= n && 0 <= avail && off + n < U32 && (r, dst) == ReadResult(c, off, n, avail)
    ensures |dst| == Min(Min(n, |c| - off), avail) && (r == |dst| || (r == -1 && |dst| == avail))
    ensures r == -1 <==> avail < n && avail < |c| - off
    ensures forall j :: 0 <= j < |dst| ==> dst[j] == c[off + j]
  {
  }

  /** A write is read back, and every other byte reads as before. */
  lemma ReadYourWrites(c: seq<int>, off: int, data: seq<int>, c': seq<int>, from: int, n: int)
    requires 0 <= off <= |c| && c' == Overwrite(c, off, data) && off + |data| < U32
    ensures ReadResult(c', off, |data|, |data|) == (|data|, data)
    ensures 0 <= from && 0 <= n && from + n <= off && off < U32 ==>
            ReadResult(c', from, n, n) == ReadResult(c, from, n, n)
    ensures off + |data| <= from <= |c| && 0 <= n && from + n < U32 ==>
            ReadResult(c', from, n, n) == ReadResult(c, from, n, n)
  {
    assert Slice(c', off, |data|) == data;
    if 0 <= from && 0 <= n && from + n <= off {
      assert c'[from..from + n] == c[from..from + n];
    }
    if off + |data| <= from <= |c| && 0 <= n {
      var e := Min(from + n, |c|);
      forall j | from <= j < e ensures c'[j] == c[j] {
        OverwriteAt(c, off, data, c', j);
      }
      assert c'[from..e] == c[from..e];
    }
  }

  // Read n bytes at off into a destination of which avail bytes can be written: the count, or -1.
  method Readi(fs: FileSystem, i: int, off: int, n: int, avail: int) returns (r: int, dst: seq<int>)
    requires Clean(fs) && 0 <= i < |fs.inodes| && 0 <= off < U32 && 0 <= n < U32 && 0 <= avail
    modifies fs`disk, fs`inodes, fs`owner, fs`maps, fs`blocks, fs`metas, fs`marks
    ensures unchanged(fs)
    ensures (r, dst) == ReadResult(Content(fs.inodes, fs.disk, i), off, n, avail)
  {
    ghost var c := Content(fs.inodes, fs.disk, i);
    assert Mapped(fs.inodes, fs.disk, i) && |c| == fs.inodes[i].size;
    Wraps(off, n);
    if off > fs.inodes[i].size || (off + n) % U32 < off {
      ReadResultNone(c, off, n, avail);
      return 0, [];
    }
    var n' := if off + n > fs.inodes[i].size then fs.inodes[i].size - off else n;
    ReadResultIs(c, off, n, n', avail);
    r, dst := ReadBlocks(fs, i, off, n', avail);
  }

  // The source's test for 32-bit overflow of off + n.
  lemma Wraps(off: int, n: int)
    requires 0 <= off < U32 && 0 <= n < U32
    ensures (off + n) % U32 < off <==> off + n >= U32
  {
  }

  lemma ReadResultNone(c: seq<int>, off: int, n: int, avail: int)
    requires 0 <= avail && (off > |c| || off + n >= U32)
    ensures ReadResult(c, off, n, avail) == (0, [])
  {
  }

  // The loop of readi: n bytes that the file has.
  method ReadBlocks(fs: FileSystem, i: int, off: int, n: int, avail: int) returns (r: int, dst: seq<int>)
    requires fs.Valid() && Mapped(fs.inodes, fs.disk, i) && 0 <= i < |fs.inodes|
    requires 0 <= off && 0 <= n && off + n <= Size(fs.inodes, i) && 0 <= avail
    modifies fs`disk, fs`inodes, fs`owner, fs`maps, fs`blocks, fs`metas, fs`marks
    ensures unchanged(fs)
    ensures r == if n <= avail then n else -1
    ensures dst == Content(fs.inodes, fs.disk, i)[off..off + Min(n, avail)]
  {
    ghost var t, d, c := fs.inodes, fs.disk, Content(fs.inodes, fs.disk, i);
    r, dst := 0, [];
    while r < n
      invariant unchanged(fs) && fs.inodes == t && fs.disk == d
      invariant 0 <= r <= n && r <= avail && Piece(c, off, off + r, dst)
    {
      var cur := off + r;
      var m := Min(n - r, BSIZE - cur % BSIZE);
      var k := Min(m, avail - r);
      ReadFits(cur, m);
      var piece := ReadPiece(fs, i, cur, k, m);
      PieceOn(c, off, cur, dst, cur + k, piece, dst + piece);
      dst := dst + piece;
      if k < m {
        return -1, dst;
      }
      r := r + m;
    }
  }

  // x is what c holds from a to b.
  predicate Piece(c: seq<int>, a: int, b: int, x: seq<int>) {
    0 <= a <= b <= |c| && x == c[a..b]
  }

  lemma ReadFits(p: int, m: int)
    requires 0 <= p && m <= BSIZE - p % BSIZE
    ensures p % BSIZE + m <= BSIZE
  {
  }

  lemma PieceOn(c: seq<int>, off: int, cur: int, dst: seq<int>, next: int, piece: seq<int>, dst': seq<int>)
    requires Piece(c, off, cur, dst) && Piece(c, cur, next, piece) && dst' == dst + piece
    ensures Piece(c, off, next, dst')
  {
  }

  // k of the m bytes a turn of readi's loop asks for.
  method ReadPiece(fs: FileSystem, i: int, p: int, k: int, m: int) returns (piece: seq<int>)
    requires fs.Valid() && Mapped(fs.inodes, fs.disk, i) && 0 <= i < |fs.inodes|
    requires 0 <= p && 0 <= k <= m && 0 < m && p + m <= Size(fs.inodes, i) && p % BSIZE + m <= BSIZE
    modifies fs`disk, fs`inodes, fs`owner, fs`maps, fs`blocks, fs`metas, fs`marks
    ensures unchanged(fs) && Piece(Content(fs.inodes, fs.disk, i), p, p + k, piece)
  {
    ghost var t, d := fs.inodes, fs.disk;
    MappedAt(t, d, i, p);
    var addr := fs.Bmap(i, p / BSIZE);
    assert Addr(t, d, Data(i, p / BSIZE)) == BlockOf(t, d, i, p / BSIZE);
    DataPositive(fs.g);
    BlockSlice(t, d, i, p, k, addr);
    piece := fs.disk[addr][p % BSIZE..p % BSIZE + k];
  }

  // A piece of a file inside one block is a piece of that block.
  lemma BlockSlice(t: Table, d: Disk, i: int, p: int, k: int, b: int)
    requires 0 <= p && 0 <= k && p + k <= Size(t, i) && p % BSIZE + k <= BSIZE == |BlockAt(d, b)|
             && b == BlockOf(t, d, i, p / BSIZE)
    ensures BlockAt(d, b)[p % BSIZE..p % BSIZE + k] == Content(t, d, i)[p..p + k]
  {
    var x, y := BlockAt(d, b)[p % BSIZE..p % BSIZE + k], Content(t, d, i)[p..p + k];
    forall j | 0 <= j < k ensures x[j] == y[j] {
      SameBlock(p, p + j);
    }
  }

  // ----- filewrite -----

  lemma OverwriteOn(c: seq<int>, off: int, a: seq<int>, b: seq<int>)
    requires 0 <= off <= |c|
    ensures off + |a| <= |Overwrite(c, off, a)| == Max(|c|, off + |a|)
    ensures Overwrite(Overwrite(c, off, a), off + |a|, b) == Overwrite(c, off, a + b)
  {
    var x, y := Overwrite(Overwrite(c, off, a), off + |a|, b), Overwrite(c, off, a + b);
    assert |x| == |y|;
    forall p | 0 <= p < |x| ensures x[p] == y[p] {
    }
  }

  lemma OverwriteChain(c: seq<int>, off: int, src: seq<int>, done: int, more: seq<int>, r: int, w: int, c1: seq<int>)
    requires 0 <= off <= |c| && 0 <= done && done + |more| <= |src| && more == src[done..done + |more|]
             && 0 <= r <= w <= |more|
    requires c1 == Overwrite(c, off, src[..done])[..Max(|c|, off + done)]
    ensures off + done <= |c1| == Max(|c|, off + done)
    ensures Overwrite(c1, off + done, more[..w])[..Max(|c1|, off + done + r)]
            == Overwrite(c, off, src[..done + w])[..Max(|c|, off + done + r)]
  {
    var a, b := src[..done], more[..w];
    OverwriteOn(c, off, a, b);
    assert c1 == Overwrite(c, off, a);
    assert a + b == src[..done + w];
  }

  // A whole chunk stored after src[..done], then more of the next one.
  lemma StoredOn(t: Table, d: Disk, t1: Table, d1: Disk, t2: Table, d2: Disk, i: int, off: int, src: seq<int>,
                 done: int, at: int, more: seq<int>, r: int, w: int)
    requires Stored(t, d, t1, d1, i, off, src, done, done) && Stored(t1, d1, t2, d2, i, at, more, r, w)
             && at == off + done
    requires done + |more| <= |src| && more == src[done..done + |more|]
    ensures Stored(t, d, t2, d2, i, off, src, done + r, done + w)
  {
    OverwriteChain(Content(t, d, i), off, src, done, more, r, w, Content(t1, d1, i));
  }

  // A write that starts past the end of the file does nothing.
  ghost predicate Reached(t: Table, d: Disk, t': Table, d': Disk, i: int, off: int, src: seq<int>, done: int, w: int) {
    if off <= |Content(t, d, i)| then Stored(t, d, t', d', i, off, src, done, w)
      else t' == t && d' == d && done == w == 0
  }

  // A disk whose inodes are t, as a booting kernel wants it: owned, mapped and synced.
  ghost predicate CleanAt(g: Super, t: Table, d: Disk) {
    SuperOk(g) && DiskOk(g, d) && TableOk(g, t) && AllMapped(t, d) && Synced(g, t, d) && exists o :: Own(g, t, d, o)
  }

  // One transaction: the inodes and the disk before and after it, and the blocks it gave to log_write.
  datatype Txn = Txn(t0: Table, d0: Disk, t1: Table, d1: Disk, logged: set<int>)

  ghost predicate TxnOk(g: Super, x: Txn) {
    CleanAt(g, x.t0, x.d0) && CleanAt(g, x.t1, x.d1) && Recorded(g, x.d0, x.d1, x.logged) && |x.logged| <= MAXOPBLOCKS
  }

  // Transactions that lead from (t, d) to (t', d'), each from where the one before it ended.
  ghost predicate Chain(xs: seq<Txn>, t: Table, d: Disk, t': Table, d': Disk) {
    if xs == [] then t' == t && d' == d
    else xs[|xs| - 1].t1 == t' && xs[|xs| - 1].d1 == d' && Chain(xs[..|xs| - 1], t, d, xs[|xs| - 1].t0, xs[|xs| - 1].d0)
  }

  lemma ChainMore(xs: seq<Txn>, t: Table, d: Disk, x: Txn, xs': seq<Txn>)
    requires Chain(xs, t, d, x.t0, x.d0) && xs' == xs + [x]
    ensures Chain(xs', t, d, x.t1, x.d1)
  {
    assert xs'[..|xs|] == xs;
  }

  lemma LoggedSize(fs: FileSystem, i: int)
    requires FitsLog(fs, i)
    ensures |fs.Logged()| <= MAXOPBLOCKS
  {
    SubsetSize(fs.metas, {IBlock(fs.g, i)});
    UnionSize(fs.maps, fs.blocks);
    UnionSize(fs.maps + fs.blocks, fs.metas);
  }

  lemma UnionSize(a: set<int>, b: set<int>)
    ensures |a + b| <= |a| + |b|
  {
    assert a + b == a + (b - a);
    SubsetSize(b - a, b);
  }

  lemma TxnIs(fs: FileSystem, i: int, t: Table, d: Disk)
    requires Clean(fs) && CleanAt(fs.g, t, d) && fs.base == d && FitsLog(fs, i)
    ensures TxnOk(fs.g, Txn(t, d, fs.inodes, fs.disk, fs.Logged()))
  {
    LoggedSize(fs, i);
  }

  lemma CleanHere(fs: FileSystem)
    requires Clean(fs)
    ensures CleanAt(fs.g, fs.inodes, fs.disk)
  {
  }

  // What one transaction of filewrite writes: three blocks.
  const CHUNK := 3 * BSIZE

  // Every transaction is sound, and before transaction j exactly the first j chunks are in the file.
  ghost predicate Chunks(g: Super, xs: seq<Txn>, t: Table, d: Disk, i: int, off: int, src: seq<int>) {
    forall j :: 0 <= j < |xs| ==>
                  TxnOk(g, xs[j]) && Reached(t, d, xs[j].t0, xs[j].d0, i, off, src, j * CHUNK, j * CHUNK)
  }

  // The transactions up to pos, of which all but the last write a whole chunk.
  ghost predicate Traced(g: Super, xs: seq<Txn>, t: Table, d: Disk, t': Table, d': Disk, i: int, off: int,
                         src: seq<int>, pos: int) {
    Chain(xs, t, d, t', d') && Chunks(g, xs, t, d, i, off, src) && (pos < |src| ==> pos == |xs| * CHUNK)
  }

  lemma TracedMore(g: Super, xs: seq<Txn>, t: Table, d: Disk, i: int, off: int, src: seq<int>, pos: int, x: Txn,
                   xs': seq<Txn>, n: int, pos': int)
    requires Traced(g, xs, t, d, x.t0, x.d0, i, off, src, pos) && TxnOk(g, x)
             && Reached(t, d, x.t0, x.d0, i, off, src, pos, pos)
    requires xs' == xs + [x] && pos < |src| && n == Min(|src| - pos, CHUNK) && (pos' == pos + n || pos' >= |src|)
    ensures Traced(g, xs', t, d, x.t1, x.d1, i, off, src, pos')
  {
    ChainMore(xs, t, d, x, xs');
  }

  // Why a write of n bytes may fail: past the end, too large, a source that cannot be read, or a full disk.
  predicate Refused(size: int, off: int, n: int, avail: int, full: bool) {
    off > size || off + n > MAXFILE * BSIZE || avail < n || full
  }

  // Write src at *off in transactions xs of at most three blocks, each within its reservation.
  method Filewrite(fs: FileSystem, i: int, off: int, src: seq<int>, avail: int)
    returns (ret: int, off': int, ghost w: int, ghost xs: seq<Txn>)
    requires Clean(fs) && 0 <= i < |fs.inodes| && 0 <= off < U32 && |src| < 0x8000_0000 && Bytes(src)
             && 0 <= avail <= |src|
    modifies fs
    ensures Clean(fs) && Chain(xs, old(fs.inodes), old(fs.disk), fs.inodes, fs.disk)
    ensures Chunks(fs.g, xs, old(fs.inodes), old(fs.disk), i, off, src)
    ensures Reached(old(fs.inodes), old(fs.disk), fs.inodes, fs.disk, i, off, src, off' - off, w)
    ensures (ret == |src| && off' == off + |src| && w == |src|) || (ret == -1 && off' < off + |src|)
    ensures ret == -1 ==> Refused(|old(Content(fs.inodes, fs.disk, i))|, off, |src|, avail, Full(fs.g, fs.disk))
  {
    ghost var t, d := fs.inodes, fs.disk;
    var pos := 0;
    w, xs := 0, [];
    ReachedStart(t, d, i, off, src);
    while pos < |src|
      invariant Clean(fs) && |fs.inodes| == |t| && 0 <= pos <= |src| && pos <= avail && w == pos
      invariant Reached(t, d, fs.inodes, fs.disk, i, off, src, pos, pos)
                && Traced(fs.g, xs, t, d, fs.inodes, fs.disk, i, off, src, pos)
    {
      var n1 := Min(|src| - pos, (MAXOPBLOCKS - 1 - 1 - 2) / 2 * BSIZE);
      var r, next;
      r, next, w, xs := OneChunk(fs, i, off, src, pos, n1, avail, t, d, xs);
      off' := off + next;
      if r != n1 {
        ret := -1;
        return;
      }
      pos := next;
    }
    ret, off' := |src|, off + pos;
  }

  // One turn of filewrite's loop: next is how far the file offset has come.
  method OneChunk(fs: FileSystem, i: int, off: int, src: seq<int>, pos: int, n1: int, avail: int, ghost t: Table,
                  ghost d: Disk, ghost xs: seq<Txn>)
    returns (r: int, next: int, ghost w: int, ghost xs': seq<Txn>)
    requires Clean(fs) && 0 <= i < |fs.inodes| == |t| && 0 <= off < U32 && |src| < U32 && Bytes(src)
    requires 0 <= pos < |src| && pos <= avail <= |src| && n1 == Min(|src| - pos, CHUNK)
    requires Reached(t, d, fs.inodes, fs.disk, i, off, src, pos, pos)
             && Traced(fs.g, xs, t, d, fs.inodes, fs.disk, i, off, src, pos)
    modifies fs
    ensures Clean(fs) && |fs.inodes| == |t| && pos <= next <= pos + n1 && (next == pos + n1 <==> r == n1)
    ensures Reached(t, d, fs.inodes, fs.disk, i, off, src, next, w)
    ensures Traced(fs.g, xs', t, d, fs.inodes, fs.disk, i, off, src, if r == n1 then next else |src|)
    ensures r == n1 ==> w == next <= avail
    ensures r != n1 ==> Refused(|Content(t, d, i)|, off, |src|, avail, Full(fs.g, fs.disk))
  {
    ghost var x;
    r, w, x := WriteSome(fs, i, off, src, pos, n1, avail, t, d);
    next := pos + Max(r, 0);
    xs' := xs + [x];
    TracedMore(fs.g, xs, t, d, i, off, src, pos, x, xs', n1, if r == n1 then next else |src|);
  }

  lemma ReachedStart(t: Table, d: Disk, i: int, off: int, src: seq<int>)
    requires 0 <= i < |t| && 0 <= off
    ensures Reached(t, d, t, d, i, off, src, 0, 0)
  {
  }

  // One transaction of filewrite: n1 bytes of src from pos on, seen from the start (t, d) of the call.
  method WriteSome(fs: FileSystem, i: int, off: int, src: seq<int>, pos: int, n1: int, avail: int, ghost t: Table,
                   ghost d: Disk)
    returns (r: int, ghost w: int, ghost x: Txn)
    requires Clean(fs) && 0 <= i < |fs.inodes| == |t| && 0 <= off < U32 && |src| < U32 && Bytes(src)
    requires 0 <= pos <= avail <= |src| && 0 < n1 <= 3 * BSIZE && pos + n1 <= |src|
    requires Reached(t, d, fs.inodes, fs.disk, i, off, src, pos, pos)
    modifies fs
    ensures Clean(fs) && |fs.inodes| == |t| && -1 <= r <= n1
    ensures TxnOk(fs.g, x) && x.t0 == old(fs.inodes) && x.d0 == old(fs.disk) && x.t1 == fs.inodes && x.d1 == fs.disk
    ensures Reached(t, d, fs.inodes, fs.disk, i, off, src, pos + Max(r, 0), w)
    ensures r == n1 ==> w == pos + n1 <= avail
    ensures r != n1 ==> Refused(|Content(t, d, i)|, off, |src|, avail, Full(fs.g, fs.disk))
  {
    BeginOp(fs);
    ghost var t1, d1, w1, done := fs.inodes, fs.disk, 0, 0;
    CleanHere(fs);
    ReachedBound(t, d, t1, d1, i, off, src, pos);
    var more, at, av := src[pos..pos + n1], off + pos, Min(n1, avail - pos);
    r, w1 := Writei(fs, i, at, more, av);
    x := Txn(t1, d1, fs.inodes, fs.disk, fs.Logged());
    TxnIs(fs, i, t1, d1);
    w, done := pos + w1, pos + Max(r, 0);
    ReachedOn(t, d, t1, d1, fs.inodes, fs.disk, i, off, src, pos, more, at, r, w1, done, w);
  }

  lemma ReachedBound(t: Table, d: Disk, t': Table, d': Disk, i: int, off: int, src: seq<int>, pos: int)
    requires Reached(t, d, t', d', i, off, src, pos, pos) && Mapped(t', d', i) && 0 <= off < U32
    ensures 0 <= pos && 0 <= off + pos < U32 && (off <= |Content(t, d, i)| ==> off + pos <= |Content(t', d', i)|)
  {
  }

  lemma ReachedOn(t: Table, d: Disk, t1: Table, d1: Disk, t2: Table, d2: Disk, i: int, off: int, src: seq<int>,
                  pos: int, more: seq<int>, at: int, r: int, w1: int, done: int, w: int)
    requires Reached(t, d, t1, d1, i, off, src, pos, pos) && 0 <= pos && pos + |more| <= |src|
             && more == src[pos..pos + |more|]
    requires r >= -1 && (r == -1 ==> t2 == t1 && d2 == d1 && w1 == 0) && done == pos + Max(r, 0) && w == pos + w1
    requires at == off + pos && (r != -1 ==> Stored(t1, d1, t2, d2, i, at, more, r, w1))
    ensures Reached(t, d, t2, d2, i, off, src, done, w)
  {
    if off <= |Content(t, d, i)| && r >= 0 {
      StoredOn(t, d, t1, d1, t2, d2, i, off, src, pos, at, more, r, w1);
    }
  }

  // A new transaction: nothing logged yet.
  method BeginOp(fs: FileSystem)
    requires Clean(fs)
    modifies fs
    ensures Clean(fs) && NothingLogged(fs) && fs.inodes == old(fs.inodes) && fs.disk == old(fs.disk)
            && fs.owner == old(fs.owner)
    ensures fs.base == fs.disk
  {
    fs.maps, fs.blocks, fs.metas, fs.marks, fs.base := {}, {}, {}, 0, fs.disk;
  }

  // ----- An initial image -----

  function EmptyInode(): Inode {
    Inode(0, 0, 0, 0, 0, seq(NDIRECT + 1, _ => 0))
  }

  // A disk of zeros on which the bitmap marks the metadata.
  method BlankDisk(g: Super) returns (d: Disk)
    requires SuperOk(g)
    ensures DiskOk(g, d) && (forall x :: x >= DataStart(g) || x < g.bmapstart ==> Blank(BlockAt(d, x)))
    ensures forall c :: 0 <= c < g.size ==> (Bit(g, d, c) <==> c < DataStart(g))
  {
    DataPositive(g);
    d := seq(g.size, _ => Zeros());
    ZeroBits(g, d);
    var b := 0;
    while b < DataStart(g)
      invariant 0 <= b <= DataStart(g) && DiskOk(g, d)
      invariant forall x :: x >= DataStart(g) || x < g.bmapstart ==> Blank(BlockAt(d, x))
      invariant forall c :: 0 <= c < g.size ==> (Bit(g, d, c) <==> c < b)
    {
      BBlockRange(g, b);
      ghost var was := d;
      SetBitEffect(g, d, SetBit(g, d, b), b);
      d := SetBit(g, d, b);
      forall x | x >= DataStart(g) || x < g.bmapstart ensures Blank(BlockAt(d, x)) {
        assert BlockAt(d, x) == BlockAt(was, x);
      }
      b := b + 1;
    }
  }

  // The state of an image that holds no file: every block zero but for the metadata's bits.
  method Format(fs: FileSystem)
    requires SuperOk(fs.g)
    modifies fs
    ensures Clean(fs) && NothingLogged(fs) && fs.owner == map[]
    ensures forall i :: 0 <= i < fs.g.ninodes ==> Content(fs.inodes, fs.disk, i) == []
  {
    var d := BlankDisk(fs.g);
    fs.disk := d;
    fs.inodes := seq(fs.g.ninodes, _ => EmptyInode());
    fs.owner := map[];
    fs.maps, fs.blocks, fs.metas, fs.marks, fs.base := {}, {}, {}, 0, d;
    EmptyTable(fs.g, fs.inodes, d);
  }

  predicate Blank(x: seq<int>) {
    x == [] || x == Zeros()
  }

  lemma ZeroBits(g: Super, d: Disk)
    requires SuperOk(g) && |d| == g.size && forall x :: 0 <= x < |d| ==> d[x] == Zeros()
    ensures DiskOk(g, d) && forall c :: 0 <= c < g.size ==> !Bit(g, d, c)
  {
    forall c | 0 <= c < g.size ensures !Bit(g, d, c) {
      BBlockRange(g, c);
      NoBit(c % BPB % 8);
    }
  }

  lemma {:induction false} NoBit(k: nat)
    ensures !BitAt(0, k)
  {
    if k > 0 {
      NoBit(k - 1);
    }
  }

  lemma EmptyTable(g: Super, t: Table, d: Disk)
    requires SuperOk(g) && |t| == g.ninodes && DiskOk(g, d) && (forall i :: 0 <= i < |t| ==> t[i] == EmptyInode())
    requires forall x :: x >= DataStart(g) || x < g.bmapstart ==> Blank(BlockAt(d, x))
    ensures TableOk(g, t) && Linked(g, t, d, map[]) && AllMapped(t, d) && Synced(g, t, d)
  {
    forall i | 0 <= i < |t| ensures Dinode(g, d, i) == t[i] {
      IBlockRange(g, i);
      DataPositive(g);
      assert Blank(BlockAt(d, IBlock(g, i))) && |BlockAt(d, IBlock(g, i))| == BSIZE;
      EmptyDinode(i % IPB);
    }
    NoAddresses(t, d);
  }

  lemma NoAddresses(t: Table, d: Disk)
    requires forall i :: 0 <= i < |t| ==> t[i] == EmptyInode()
    ensures forall s :: Addr(t, d, s) == 0
  {
    forall i, k ensures AddrAt(t, i, k) == 0 {
    }
  }

  lemma EmptyDinode(j: int)
    requires 0 <= j < IPB
    ensures DinodeAt(Zeros(), j) == EmptyInode()
  {
    var ws := WordsAt(Zeros(), j);
    forall k | 0 <= k < 16 ensures ws[k] == 0 {
      ZeroWords(16 * j + k);
    }
    assert ws[3..] == EmptyInode().addrs;
  }
}
