/** A crash while a file-system transaction commits: the disk that recovery leaves is a clean file system, with all of
    the transaction or none of it. */
module FsCrash {
  import opened FsLayout
  import opened FsMap
  import opened Fs
  import opened FsFile
  import B = Blocks
  import R = Recovery

  // ----- Blocks as the log sees them -----

  // Byte k of a word.
  function WordByte(v: int, k: int): int {
    if k == 0 then v % 256 else if k == 1 then v / 256 % 256 else if k == 2 then v / 65536 % 256 else v / 16777216 % 256
  }

  function Words(x: seq<int>): B.Block {
    seq(B.WORDS, j => Word(x, j))
  }

  function BytesOf(b: B.Block): seq<int> {
    seq(BSIZE, o => if 0 <= o / 4 < |b| then WordByte(b[o / 4], o % 4) else 0)
  }

  lemma WordBytes(a: int, b: int, c: int, d: int, v: int)
    requires 0 <= a < 256 && 0 <= b < 256 && 0 <= c < 256 && 0 <= d < 256 && v == a + 256 * b + 65536 * c + 16777216 * d
    ensures WordByte(v, 0) == a && WordByte(v, 1) == b && WordByte(v, 2) == c && WordByte(v, 3) == d
  {
    assert v / 256 == b + 256 * c + 65536 * d;
    assert v / 65536 == c + 256 * d;
    assert v / 16777216 == d;
  }

  /** A block's bytes survive being kept as words. */
  lemma BytesRoundTrip(x: seq<int>)
    requires ByteRange(x)
    ensures BytesOf(Words(x)) == x
  {
    forall o | 0 <= o < BSIZE ensures BytesOf(Words(x))[o] == x[o] {
      var j := o / 4;
      assert o == 4 * j + o % 4 && 4 * j + 3 < BSIZE;
      WordBytes(x[4 * j], x[4 * j + 1], x[4 * j + 2], x[4 * j + 3], Word(x, j));
    }
  }

  // The home blocks of r are those of d.
  ghost predicate Holds(start: nat, r: seq<B.Block>, d: Disk) {
    |r| == |d| && forall b :: 0 <= b < |d| && !B.InLog(start, b) ==> r[b] == Words(d[b])
  }

  function ReadBack(r: seq<B.Block>): Disk {
    seq(|r|, b requires 0 <= b < |r| => BytesOf(r[b]))
  }

  // ----- What a clean disk depends on -----

  // The log lies below the inodes.
  predicate LogBelow(g: Super, start: nat) {
    start + B.LOGBLOCKS < g.inodestart
  }

  ghost predicate SameFrom(g: Super, d: Disk, d': Disk) {
    |d'| == |d| && forall b {:trigger BlockAt(d', b)} :: b >= g.inodestart ==> BlockAt(d', b) == BlockAt(d, b)
  }

  lemma SameAll(g: Super, t: Table, d: Disk, o: Owner, d': Disk)
    requires SuperOk(g) && TableOk(g, t) && Own(g, t, d, o) && SameFrom(g, d, d')
    ensures Own(g, t, d', o) && forall i :: 0 <= i < |t| ==> SameFile(t, d, t, d', i)
  {
    DataPositive(g);
    AddrsKept(g, t, d, o, d');
    KeepStep(g, t, d, o, t, d');
    MarkedKept(g, d, o, d');
    MetaKept(g, t, d, o, d');
  }

  lemma CleanSame(g: Super, t: Table, d: Disk, d': Disk)
    requires CleanAt(g, t, d) && DiskOk(g, d') && SameFrom(g, d, d')
    ensures CleanAt(g, t, d') && forall i :: 0 <= i < |t| ==> Content(t, d', i) == Content(t, d, i)
  {
    var o :| Own(g, t, d, o);
    SameAll(g, t, d, o, d');
    forall i | 0 <= i < |t| ensures Content(t, d', i) == Content(t, d, i) && Mapped(t, d', i) {
      assert Mapped(t, d, i) && SameFile(t, d, t, d', i);
      SameContent(t, d, t, d', i);
    }
    forall i | 0 <= i < |t| ensures Dinode(g, d', i) == t[i] {
      assert Dinode(g, d, i) == t[i];
      IBlockRange(g, i);
      assert BlockAt(d', IBlock(g, i)) == BlockAt(d, IBlock(g, i));
    }
  }

  lemma ReadsClean(g: Super, start: nat, t: Table, d: Disk, r: seq<B.Block>)
    requires CleanAt(g, t, d) && LogBelow(g, start) && Holds(start, r, d)
    ensures CleanAt(g, t, ReadBack(r)) && forall i :: 0 <= i < |t| ==> Content(t, ReadBack(r), i) == Content(t, d, i)
  {
    var d' := ReadBack(r);
    forall b | b >= g.inodestart ensures BlockAt(d', b) == BlockAt(d, b) {
      if b < |d| {
        BytesRoundTrip(d[b]);
      }
    }
    CleanSame(g, t, d, d');
  }

  // ----- Crashes -----

  // lh is what the log's header lists once the transaction has ended.
  ghost predicate Lists(x: Txn, lh: seq<int>, start: nat) {
    B.Loggable(start, |x.d0|, lh) && forall b :: b in lh <==> b in x.logged
  }

  lemma MergedHolds(g: Super, start: nat, x: Txn, lh: seq<int>, r0: seq<B.Block>, mem: seq<B.Block>)
    requires Recorded(g, x.d0, x.d1, x.logged) && Lists(x, lh, start) && Holds(start, r0, x.d0)
             && Holds(start, mem, x.d1)
    ensures Holds(start, R.Merged(r0, lh, mem), x.d1)
  {
    forall b | 0 <= b < |x.d1| && !B.InLog(start, b) ensures R.Merged(r0, lh, mem)[b] == Words(x.d1[b]) {
      assert b !in x.logged ==> BlockAt(x.d1, b) == BlockAt(x.d0, b);
    }
  }

  /** Crash after any block write of the commit of a transaction, and again during any number of recoveries: the disk
      then read back is a clean file system, that of before the transaction or that of after it. */
  lemma CrashKeepsClean(g: Super, start: nat, x: Txn, lh: seq<int>, r0: seq<B.Block>, mem: seq<B.Block>, step: nat,
                        crashes: seq<nat>)
    requires TxnOk(g, x) && LogBelow(g, start) && Lists(x, lh, start) && Holds(start, r0, x.d0)
             && Holds(start, mem, x.d1)
    requires B.DiskOk(start, r0) && B.LogOf(start, r0) == [] && step <= R.CommitWrites(lh)
    ensures var e := R.CommitDisk(start, r0, lh, mem, step);
            && B.DiskOk(start, e)
            && var r := R.Recover(start, R.AfterCrashes(start, e, crashes));
            && var t, d := if step <= |lh| then x.t0 else x.t1, if step <= |lh| then x.d0 else x.d1;
               CleanAt(g, t, ReadBack(r)) && forall i :: 0 <= i < |t| ==> Content(t, ReadBack(r), i) == Content(t, d, i)
  {
    R.CrashAtomicity(start, r0, lh, mem, step, crashes);
    MergedHolds(g, start, x, lh, r0, mem);
    var e := R.CommitDisk(start, r0, lh, mem, step);
    var r := R.Recover(start, R.AfterCrashes(start, e, crashes));
    if step <= |lh| {
      ReadsClean(g, start, x.t0, x.d0, r);
    } else {
      ReadsClean(g, start, x.t1, x.d1, r);
    }
  }

  /** A crash inside the commit of any transaction of filewrite: the recovered file holds exactly whole chunks of the
      write, those of the transactions before it and perhaps its own. */
  lemma CrashInFilewrite(g: Super, start: nat, xs: seq<Txn>, t: Table, d: Disk, i: int, off: int, src: seq<int>, j: nat,
                         lh: seq<int>, r0: seq<B.Block>, mem: seq<B.Block>, step: nat, crashes: seq<nat>)
    requires Chunks(g, xs, t, d, i, off, src) && j < |xs| && 0 <= i < |t| && 0 <= off <= |Content(t, d, i)|
             && j * CHUNK <= |src|
    requires LogBelow(g, start) && Lists(xs[j], lh, start) && Holds(start, r0, xs[j].d0) && Holds(start, mem, xs[j].d1)
    requires B.DiskOk(start, r0) && B.LogOf(start, r0) == [] && step <= R.CommitWrites(lh)
    ensures var e := R.CommitDisk(start, r0, lh, mem, step);
            && B.DiskOk(start, e)
            && var r := R.Recover(start, R.AfterCrashes(start, e, crashes));
            && (step <= |lh| ==> CleanAt(g, xs[j].t0, ReadBack(r))
                                 && Content(xs[j].t0, ReadBack(r), i)
                                    == Overwrite(Content(t, d, i), off, src[..j * CHUNK]))
            && (step > |lh| ==> CleanAt(g, xs[j].t1, ReadBack(r))
                                && Content(xs[j].t1, ReadBack(r), i) == Content(xs[j].t1, xs[j].d1, i))
  {
    CrashKeepsClean(g, start, xs[j], lh, r0, mem, step, crashes);
  }
}
