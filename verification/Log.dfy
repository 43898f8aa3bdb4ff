/** The redo log (kernel/log.c): the in-memory header, the counters, and the block-by-block
    commit and recovery through the buffer cache. */
module Log {
  import opened Blocks
  import opened Recovery
  import opened Bio
  import opened Common

  // log_write's effect on the header: absorb a block that is already there, else append it.
  function Absorb(lh: seq<int>, b: int): (r: seq<int>)
    ensures b in r && (forall c :: c in r <==> c == b || c in lh)
  {
    if b in lh then lh else lh + [b]
  }

  // begin_op's reservation test.
  predicate MayBegin(committing: bool, n: nat, outstanding: nat) {
    !committing && n + (outstanding + 1) * MAXOPBLOCKS <= LOGBLOCKS
  }

  // The pins left when install_trans has done k blocks.
  ghost function Pins(lh: seq<int>, k: nat, recovering: bool): seq<int>
    requires k <= |lh|
  {
    if recovering then [] else lh[k..]
  }

  // The pin that install_trans drops for block d.
  ghost function Unpinned(d: int, recovering: bool): multiset<int> {
    if recovering then multiset{} else multiset{d}
  }

  class Logger {
    const start: nat
    const cache: BufferCache
    var lh: seq<int>
    var outstanding: nat
    var committing: bool
    var ncommit: nat

    // The cache during a commit, when no system call is active: the only references are the
    // pins of the header's blocks from position k on.  Recovery has no pins.
    ghost predicate Pinned(k: nat, recovering: bool)
      reads this, cache
    {
      && cache.Valid() && start + LOGBLOCKS < |cache.disk| && Loggable(start, |cache.disk|, lh)
      && k <= |lh| && (recovering || |lh| < NBUF)
      && cache.refs == multiset(Pins(lh, k, recovering))
    }

    // There is a buffer for any block, and what is not pinned reads the same in cache and on disk.
    lemma Spare(k: nat, recovering: bool, b: nat)
      requires Pinned(k, recovering) && b < |cache.disk|
      ensures cache.HasRoom(b)
      ensures b !in cache.refs ==> cache.mem[b] == cache.disk[b]
    {
      var pins := Pins(lh, k, recovering);
      SetOfSeq(pins);
      FreeBuffer(cache.bufs, set x | x in pins);
      if b !in cache.refs {
        assert RefCount(cache.bufs, b) == 0;
        IdleContent(cache.disk, cache.bufs, b);
      }
    }

    // initlog, before recovery.
    constructor (start: nat, cache: BufferCache)
      ensures this.start == start && this.cache == cache && lh == [] && outstanding == 0 && !committing && ncommit == 0
    {
      this.start, this.cache := start, cache;
      lh, outstanding, committing, ncommit := [], 0, false, 0;
    }

    // One iteration of write_log.
    method CopyToLog(tail: nat)
      requires Pinned(0, false) && tail < |lh|
      modifies cache
      ensures Pinned(0, false)
      ensures cache.disk == old(cache.disk)[start + 1 + tail := old(cache.mem)[lh[tail]]]
      ensures cache.mem == old(cache.mem)[start + 1 + tail := old(cache.mem)[lh[tail]]]
      ensures cache.writes == old(cache.writes) + [cache.disk]
    {
      var l, d := start + tail + 1, lh[tail];
      assert InLog(start, l);
      Spare(0, false, l);
      assert d in lh[0..] && l !in lh[0..];
      var to := cache.Bread(l);
      var from := cache.Bread(d);
      Transfer(from, d, to, l);
      assert cache.refs == multiset(lh[0..]);
    }

    // memmove, bwrite and the two brelse of write_log.
    method Transfer(from: nat, ghost d: nat, to: nat, ghost l: nat)
      requires cache.Valid() && cache.Handle(from, d) && cache.Handle(to, l) && d != l
      requires cache.refs[d] > 1
      modifies cache
      ensures cache.Valid() && cache.refs == old(cache.refs) - multiset{d} - multiset{l}
      ensures cache.disk == old(cache.disk)[l := old(cache.mem)[d]]
      ensures cache.mem == old(cache.mem)[l := old(cache.mem)[d]]
      ensures cache.writes == old(cache.writes) + [cache.disk]
    {
      ViewAt(cache.disk, cache.bufs, cache.mem, cache.refs, from);
      cache.SetData(to, l, cache.bufs[from].data);
      cache.Bwrite(to, l);
      cache.Brelse(from, d);
      cache.Brelse(to, l);
    }

    // write_log: the cached blocks go to the log, one block write each.
    method WriteLog()
      requires Pinned(0, false)
      modifies cache
      ensures Pinned(0, false)
      ensures cache.disk == LogWritten(start, old(cache.disk), lh, old(cache.mem), |lh|)
      ensures SameHome(start, cache.mem, old(cache.mem))
      ensures cache.writes == old(cache.writes) + LogTrace(start, old(cache.disk), lh, old(cache.mem), |lh|)
    {
      ghost var disk, mem := cache.disk, cache.mem;
      var tail := 0;
      while tail < |lh|
        invariant 0 <= tail <= |lh| && Pinned(0, false)
        invariant cache.disk == LogWritten(start, disk, lh, mem, tail)
        invariant SameHome(start, cache.mem, mem)
        invariant cache.writes == old(cache.writes) + LogTrace(start, disk, lh, mem, tail)
      {
        assert !InLog(start, lh[tail]) && InLog(start, start + 1 + tail);
        LogStep(start, disk, lh, mem, tail);
        CopyToLog(tail);
        assert cache.disk == LogWritten(start, disk, lh, mem, tail + 1);
        tail := tail + 1;
      }
    }

    // write_head: the header block gets the in-memory header.
    method WriteHead(k: nat, recovering: bool)
      requires Pinned(k, recovering)
      modifies cache
      ensures Pinned(k, recovering)
      ensures cache.disk == old(cache.disk)[start := PutHeader(old(cache.disk)[start], lh)]
      ensures cache.writes == old(cache.writes) + [cache.disk]
    {
      assert InLog(start, start);
      Spare(k, recovering, start);
      var buf := cache.Bread(start);
      var head := PutHeader(cache.bufs[buf].data, lh);
      assert cache.bufs[buf].data == old(cache.disk)[start];
      cache.SetData(buf, start, head);
      cache.Bwrite(buf, start);
      assert cache.disk == old(cache.disk)[start := head];
      cache.Brelse(buf, start);
      assert cache.refs == old(cache.refs);
    }

    // One iteration of install_trans.
    method InstallOne(tail: nat, recovering: bool)
      requires Pinned(tail, recovering) && tail < |lh|
      modifies cache
      ensures Pinned(tail + 1, recovering)
      ensures cache.disk == old(cache.disk)[lh[tail] := old(cache.disk)[start + 1 + tail]]
      ensures cache.writes == old(cache.writes) + [cache.disk]
    {
      var l, d := start + tail + 1, lh[tail];
      assert InLog(start, l);
      var lbuf, dbuf := ReadPair(tail, recovering);
      InstallInto(lbuf, l, dbuf, d, recovering);
      PinsStep(lh, tail, recovering, l);
    }

    // The two bread of install_trans.
    method ReadPair(tail: nat, recovering: bool) returns (lbuf: nat, dbuf: nat)
      requires Pinned(tail, recovering) && tail < |lh|
      modifies cache
      ensures var l, d := start + tail + 1, lh[tail];
              && cache.Valid() && cache.Handle(lbuf, l) && cache.Handle(dbuf, d)
              && cache.refs == old(cache.refs) + multiset{l} + multiset{d}
              && cache.mem[l] == cache.disk[l] && (!recovering ==> cache.refs[d] > 1)
      ensures unchanged(cache`disk) && unchanged(cache`writes)
    {
      var l, d := start + tail + 1, lh[tail];
      assert InLog(start, l);
      Spare(tail, recovering, l);
      lbuf := cache.Bread(l);
      HomeRoom(cache.disk, cache.bufs, cache.mem, cache.refs, lh, tail, recovering, l);
      dbuf := cache.Bread(d);
    }

    // memmove, bwrite, bunpin and the two brelse of install_trans.
    method InstallInto(lbuf: nat, ghost l: nat, dbuf: nat, ghost d: nat, recovering: bool)
      requires cache.Valid() && cache.Handle(lbuf, l) && cache.Handle(dbuf, d) && d != l
      requires cache.mem[l] == cache.disk[l] && (!recovering ==> cache.refs[d] > 1)
      modifies cache
      ensures cache.Valid()
      ensures cache.refs == old(cache.refs) - Unpinned(d, recovering) - multiset{l} - multiset{d}
      ensures cache.disk == old(cache.disk)[d := old(cache.disk)[l]]
      ensures cache.writes == old(cache.writes) + [cache.disk]
    {
      SetAndWrite(lbuf, l, dbuf, d);
      Unpin(dbuf, d, recovering);
      cache.Brelse(lbuf, l);
      cache.Brelse(dbuf, d);
    }

    // memmove and bwrite of install_trans.
    method SetAndWrite(lbuf: nat, ghost l: nat, dbuf: nat, ghost d: nat)
      requires cache.Valid() && cache.Handle(lbuf, l) && cache.Handle(dbuf, d) && d != l
      requires cache.mem[l] == cache.disk[l]
      modifies cache
      ensures cache.Valid() && cache.Handle(lbuf, l) && cache.Handle(dbuf, d) && cache.refs == old(cache.refs)
      ensures cache.disk == old(cache.disk)[d := old(cache.disk)[l]]
      ensures cache.mem[d] == cache.disk[d] && cache.mem[l] == cache.disk[l]
      ensures cache.writes == old(cache.writes) + [cache.disk]
    {
      ViewAt(cache.disk, cache.bufs, cache.mem, cache.refs, lbuf);
      cache.SetData(dbuf, d, cache.bufs[lbuf].data);
      cache.Bwrite(dbuf, d);
    }

    // if(recovering == 0) bunpin(dbuf)
    method Unpin(dbuf: nat, ghost d: nat, recovering: bool)
      requires cache.Valid() && cache.Handle(dbuf, d) && (!recovering ==> cache.refs[d] > 1)
      modifies cache
      ensures cache.Valid() && cache.Handle(dbuf, d)
      ensures cache.refs == old(cache.refs) - Unpinned(d, recovering)
      ensures forall j, c :: c != d && old(cache.Handle(j, c)) ==> cache.Handle(j, c)
      ensures unchanged(cache`disk) && unchanged(cache`mem) && unchanged(cache`writes)
    {
      if !recovering {
        cache.Bunpin(dbuf, d);
      }
    }

    // install_trans: the logged blocks go home, one block write each.
    method InstallTrans(recovering: bool)
      requires Pinned(0, recovering)
      modifies cache
      ensures Pinned(|lh|, recovering)
      ensures cache.disk == Install(start, old(cache.disk), lh, |lh|)
      ensures cache.writes == old(cache.writes) + InstallTrace(start, old(cache.disk), lh, |lh|)
    {
      ghost var disk := cache.disk;
      var tail := 0;
      while tail < |lh|
        invariant 0 <= tail <= |lh| && Pinned(tail, recovering)
        invariant cache.disk == Install(start, disk, lh, tail)
        invariant cache.writes == old(cache.writes) + InstallTrace(start, disk, lh, tail)
      {
        InstallStep(start, disk, lh, tail);
        InstallOne(tail, recovering);
        assert cache.disk == Install(start, disk, lh, tail + 1);
        tail := tail + 1;
      }
    }

    // commit: the disk passes through CommitTrace, so CommitTraceAtomic speaks about this code.
    method Commit()
      requires Pinned(0, false)
      modifies `lh, cache
      ensures Pinned(0, false) && lh == []
      ensures cache.writes == old(cache.writes) + CommitTrace(start, old(cache.disk), old(lh), old(cache.mem))
      ensures cache.disk == CommitDisk(start, old(cache.disk), old(lh), old(cache.mem), CommitWrites(old(lh)))
    {
      if |lh| > 0 {
        ghost var d, m, w, lh0 := cache.disk, cache.mem, cache.writes, lh;
        WriteLog();
        ghost var log := LogTrace(start, d, lh0, m, |lh0|);
        WriteHead(0, false);
        ghost var headed := cache.disk;
        InstallTrans(false);
        ghost var installs := InstallTrace(start, headed, lh0, |lh0|);
        assert cache.writes == w + log + [headed] + installs;
        lh := [];
        WriteHead(0, false);
        Regroup(w, log, headed, installs, cache.disk);
      }
    }

    // read_head
    method ReadHead()
      requires cache.Valid() && cache.refs == multiset{} && DiskOk(start, cache.disk)
      modifies `lh, cache
      ensures Pinned(0, true) && lh == LogOf(start, old(cache.disk))
      ensures |lh| == old(cache.disk)[start][0] && lh == old(cache.disk)[start][1..1 + |lh|]
      ensures unchanged(cache`disk) && unchanged(cache`writes)
    {
      FreeBuffer(cache.bufs, {});
      assert RefCount(cache.bufs, start) == 0;
      IdleContent(cache.disk, cache.bufs, start);
      var buf := cache.Bread(start);
      var head := cache.bufs[buf].data;
      var blocks := [];
      var i := 0;
      while i < head[0]
        invariant 0 <= i <= head[0] && blocks == head[1..1 + i]
      {
        blocks := blocks + [head[1 + i]];
        i := i + 1;
      }
      lh := blocks;
      cache.Brelse(buf, start);
      assert cache.refs == multiset{};
    }

    // recover_from_log, run when no buffer is in use yet.
    method RecoverFromLog()
      requires cache.Valid() && cache.refs == multiset{} && DiskOk(start, cache.disk)
      modifies `lh, cache
      ensures Pinned(0, false) && lh == []
      ensures cache.disk == Recover(start, old(cache.disk))
      ensures cache.writes == old(cache.writes) + RecoveryTrace(start, old(cache.disk))
    {
      ReadHead();
      InstallTrans(true);
      lh := [];
      WriteHead(0, true);
    }

    // log_write by a caller that holds buffer i of block b; ok is false where the source panics.
    method LogWrite(i: nat, b: nat) returns (ok: bool)
      requires cache.Valid() && cache.Handle(i, b)
      modifies `lh, cache
      ensures ok <==> |old(lh)| < LOGBLOCKS && outstanding >= 1
      ensures cache.Valid() && lh == if ok then Absorb(old(lh), b) else old(lh)
      ensures ok ==> b in lh && old(lh) <= lh && |lh| == |old(lh)| + if b in old(lh) then 0 else 1
      ensures cache.refs == old(cache.refs) + if ok && b !in old(lh) then multiset{b} else multiset{}
      ensures unchanged(cache`disk) && unchanged(cache`mem) && unchanged(cache`writes)
      ensures forall j, c :: old(cache.Handle(j, c)) ==> cache.Handle(j, c)
    {
      if |lh| >= LOGBLOCKS || outstanding < 1 {
        return false;
      }
      var k := 0;
      while k < |lh| && lh[k] != b
        invariant 0 <= k <= |lh| && b !in lh[..k]
      {
        k := k + 1;
      }
      if k == |lh| {
        assert lh[..k] == lh;
        lh := lh + [b];
        cache.Bpin(i, b);
      }
      return true;
    }

    // One round of begin_op under log.lock; false means that the caller sleeps and tries again.
    method BeginOp() returns (entered: bool)
      modifies `outstanding
      ensures entered == MayBegin(committing, |lh|, old(outstanding))
      ensures outstanding == old(outstanding) + if entered then 1 else 0
    {
      if committing {
        entered := false;
      } else if |lh| + (outstanding + 1) * MAXOPBLOCKS > LOGBLOCKS {
        entered := false;
      } else {
        outstanding := outstanding + 1;
        entered := true;
      }
    }

    // end_op: the last active operation commits the whole group.
    method EndOp()
      requires outstanding > 0 && !committing
      requires outstanding == 1 ==> Pinned(0, false)
      modifies this, cache
      ensures outstanding == old(outstanding) - 1 && !committing
      ensures outstanding > 0 ==> lh == old(lh) && ncommit == old(ncommit) && unchanged(cache)
      ensures outstanding == 0 ==>
        && Pinned(0, false) && lh == [] && ncommit == old(ncommit) + 1
        && cache.writes == old(cache.writes) + CommitTrace(start, old(cache.disk), old(lh), old(cache.mem))
        && cache.disk == CommitDisk(start, old(cache.disk), old(lh), old(cache.mem), CommitWrites(old(lh)))
    {
      outstanding := outstanding - 1;
      if outstanding == 0 {
        committing := true;
        Commit();
        committing := false;
        ncommit := ncommit + 1;
      }
    }

    /** LOGBLOCKS equals NBUF, so a header that has grown to LOGBLOCKS blocks pins every buffer:
        the first bread of its commit then finds no buffer, exactly in that case. */
    lemma CommitNeedsSpareBuffer()
      requires cache.Valid() && start + LOGBLOCKS < |cache.disk| && Loggable(start, |cache.disk|, lh)
      requires cache.refs == multiset(lh)
      ensures cache.HasRoom(start + 1) <==> |lh| < NBUF
    {
      if |lh| < NBUF {
        SetOfSeq(lh);
        FreeBuffer(cache.bufs, set x | x in lh);
      } else {
        forall i | 0 <= i < |lh| ensures RefCount(cache.bufs, lh[i]) > 0 {
          assert lh[i] in multiset(lh);
        }
        NoFreeBuffer(cache.bufs, lh);
        if i :| 0 <= i < NBUF && Tagged(cache.bufs[i], start + 1) {
          OnlyTagged(cache.bufs, i);
          assert start + 1 in multiset(lh) && InLog(start, start + 1);
        }
      }
    }
  }

  // While the log block l is in use there is still a buffer for the home block: its pinned one,
  // or in recovery any other.
  lemma HomeRoom(disk: seq<Block>, bufs: seq<Buf>, mem: seq<Block>, refs: multiset<int>,
                 lh: seq<int>, tail: nat, recovering: bool, l: int)
    requires View(disk, bufs, mem, refs) && Unique(bufs) && OnlyRootUsed(bufs) && |bufs| == NBUF && tail < |lh|
    requires refs == multiset(Pins(lh, tail, recovering)) + multiset{l}
    ensures if recovering then exists i :: 0 <= i < NBUF && bufs[i].refcnt == 0 else lh[tail] in refs
  {
    if recovering {
      FreeBuffer(bufs, {l});
    } else {
      assert lh[tail] in lh[tail..];
    }
  }

  lemma Regroup<T>(w: seq<T>, log: seq<T>, x: T, installs: seq<T>, y: T)
    ensures w + log + [x] + installs + [y] == w + (log + [x] + installs + [y])
  {
  }

  lemma PinsStep(lh: seq<int>, k: nat, recovering: bool, l: int)
    requires k < |lh|
    ensures multiset(Pins(lh, k, recovering)) + multiset{l} + multiset{lh[k]} - Unpinned(lh[k], recovering)
              - multiset{l} - multiset{lh[k]}
            == multiset(Pins(lh, k + 1, recovering))
  {
    if !recovering {
      assert lh[k..] == [lh[k]] + lh[k + 1..];
    }
  }

  lemma {:induction false} SetOfSeq(s: seq<int>)
    ensures |set x | x in s| <= |s|
  {
    if s != [] {
      SetOfSeq(s[1..]);
      assert (set x | x in s) == (set x | x in s[1..]) + {s[0]};
    }
  }
}
