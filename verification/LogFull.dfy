/** A header that fills the log: three operations of MAXOPBLOCKS blocks each, and a commit that finds no buffer. */
module LogFull {
  import opened Blocks
  import opened Bio
  import opened Common
  import opened LogRuns
  import opened LogExample

  // Distinct home blocks, as many as the log holds.
  ghost predicate ThirtyBlocks(start: nat, size: nat, bs: seq<int>) {
    |bs| == LOGBLOCKS && Loggable(start, size, bs)
  }

  // How many of the first n blocks process p adds: MAXOPBLOCKS each, in turn.
  function Added(n: nat, p: nat): nat {
    if n <= MAXOPBLOCKS * p then 0 else if n <= MAXOPBLOCKS * p + MAXOPBLOCKS then n - MAXOPBLOCKS * p else MAXOPBLOCKS
  }

  function Pinned(b: nat, x: Block): Buf {
    Bio.Buf(ROOTDEV, b, true, 1, x)
  }

  // Three operations are active and the first n blocks are logged.
  ghost predicate Filling(s: Sys, start: nat, disk: seq<Block>, bs: seq<int>, n: nat) {
    && s.start == start && s.disk == disk && n <= |bs| && s.lh == bs[..n] && s.held == map[] && s.outstanding == 3
    && !s.committing && s.phase == Idle && s.unlogged == {}
    && |s.procs| == 3 && (forall p :: 0 <= p < 3 ==> s.procs[p] == Proc(Some(p), Added(n, p), map[]))
    && FirstPinned(s.bufs, disk, bs, n)
  }

  ghost predicate FirstPinned(bufs: seq<Buf>, disk: seq<Block>, bs: seq<int>, n: nat) {
    && |bufs| == NBUF && n <= |bs| <= NBUF && (forall j :: 0 <= j < |bs| ==> 0 <= bs[j] < |disk|)
    && (forall j :: 0 <= j < n ==> bufs[j] == Pinned(bs[j], disk[bs[j]]))
    && (forall j :: n <= j < NBUF ==> bufs[j] == EmptyBuf())
  }

  lemma Begin(start: nat, disk: seq<Block>, bs: seq<int>) returns (run: seq<Sys>)
    requires DiskOk(start, disk) && LogOf(start, disk) == [] && ThirtyBlocks(start, |disk|, bs)
    ensures IsRun(run) && Filling(Last(run), start, disk, bs, 0)
  {
    run := [Boot(start, disk, 3)];
    run := Grow(run, BeginOp(0));
    run := Grow(run, BeginOp(1));
    run := Grow(run, BeginOp(2));
  }

  // bget, the sleep lock and the disk read.
  lemma Load(run: seq<Sys>, start: nat, disk: seq<Block>, bs: seq<int>, n: nat, p: nat, b: nat) returns (run': seq<Sys>)
    requires IsRun(run) && Filling(Last(run), start, disk, bs, n) && ThirtyBlocks(start, |disk|, bs) && n < LOGBLOCKS
             && p < 3 && b == bs[n]
    ensures IsRun(run')
    ensures var s, t := Last(run), Last(run');
            t == s.(bufs := s.bufs[n := Pinned(b, disk[b])], held := map[b := p],
                    procs := s.procs[p := s.procs[p].(ptr := map[b := n])])
  {
    var s := Last(run);
    assert Gets(s.bufs, b, n);
    run' := Grow(run, Bget(p, b, n));
    run' := Grow(run', Lock(p, b));
    run' := Grow(run', Fill(p, b));
    assert Last(run').bufs == s.bufs[n := Pinned(b, disk[b])];
  }

  // log_write and brelse.
  lemma LogIt(run: seq<Sys>, b: nat, n: nat, p: nat, x: Block) returns (run': seq<Sys>)
    requires IsRun(run) && Home(Last(run), b) && n < NBUF
    requires var s := Last(run); p < |s.procs| && s.procs[p].op.Some? && s.procs[p].added < MAXOPBLOCKS
                                 && s.procs[p].ptr == map[b := n]
    requires var s := Last(run); |s.bufs| == NBUF && s.bufs[n] == Pinned(b, x) && s.held == map[b := p] && b !in s.lh
                                 && s.unlogged == {}
    ensures IsRun(run')
    ensures var s, t := Last(run), Last(run');
            && t == s.(lh := s.lh + [b], held := map[], current := t.current, procs := t.procs)
            && t.procs == s.procs[p := s.procs[p].(added := s.procs[p].added + 1, ptr := map[])]
  {
    var s := Last(run);
    run' := Grow(run, LogWrite(p, b));
    run' := Grow(run', Brelse(p, b));
    var t := Last(run');
    assert t.bufs == s.bufs && t.held == map[] && t.unlogged == {};
    assert t.procs[p].ptr == map[];
  }

  lemma AddedMore(n: nat, p: nat)
    requires n < LOGBLOCKS && p == n / MAXOPBLOCKS
    ensures p < 3 && Added(n, p) < MAXOPBLOCKS
    ensures forall q :: 0 <= q < 3 ==> Added(n + 1, q) == Added(n, q) + if q == p then 1 else 0
  {
  }

  lemma AddBlock(run: seq<Sys>, start: nat, disk: seq<Block>, bs: seq<int>, n: nat) returns (run': seq<Sys>)
    requires IsRun(run) && Filling(Last(run), start, disk, bs, n) && ThirtyBlocks(start, |disk|, bs) && n < LOGBLOCKS
    ensures IsRun(run') && Filling(Last(run'), start, disk, bs, n + 1)
  {
    var p := n / MAXOPBLOCKS;
    AddedMore(n, p);
    var b := bs[n];
    run' := Load(run, start, disk, bs, n, p, b);
    run' := LogIt(run', b, n, p, disk[b]);
    assert bs[..n] + [b] == bs[..n + 1];
  }

  lemma {:induction false} AddAll(start: nat, disk: seq<Block>, bs: seq<int>, n: nat) returns (run: seq<Sys>)
    requires DiskOk(start, disk) && LogOf(start, disk) == [] && ThirtyBlocks(start, |disk|, bs) && n <= LOGBLOCKS
    ensures IsRun(run) && Filling(Last(run), start, disk, bs, n)
    decreases n
  {
    if n == 0 {
      run := Begin(start, disk, bs);
    } else {
      run := AddAll(start, disk, bs, n - 1);
      run := AddBlock(run, start, disk, bs, n - 1);
    }
  }

  /** A full header is reached: any LOGBLOCKS distinct home blocks can be logged by three operations that keep to
      their budget, and the last end_op starts a commit with all of them in the header. */
  lemma HeaderFills(start: nat, disk: seq<Block>, bs: seq<int>) returns (run: seq<Sys>)
    requires DiskOk(start, disk) && LogOf(start, disk) == [] && ThirtyBlocks(start, |disk|, bs)
    ensures IsRun(run) && Last(run).phase == Logging(0) && Last(run).lh == bs
  {
    run := AddAll(start, disk, bs, LOGBLOCKS);
    assert bs[..LOGBLOCKS] == bs;
    run := Grow(run, EndOp(0));
    run := Grow(run, EndOp(1));
    run := Grow(run, EndOp(2));
  }

  // The log's blocks are referenced by nobody while a commit begins.
  lemma LogBlockUnused(s: Sys, b: int)
    requires Inv(s) && InLog(s.start, b)
    ensures RefCount(s.bufs, b) == 0
  {
    forall p | 0 <= p < |s.procs| ensures b !in s.procs[p].ptr {
      assert b in s.procs[p].ptr ==> PtrOk(s, s.procs[p].ptr[b], b);
    }
    TotalZero(s.procs, PointsTo(b));
  }

  // The committer waits for its first step with as many blocks as there are buffers.
  ghost predicate FullHeader(s: Sys) {
    Inv(s) && s.phase == Logging(0) && |s.lh| == NBUF
  }

  lemma AllBusy(s: Sys)
    requires FullHeader(s)
    ensures |s.bufs| == NBUF && forall i :: 0 <= i < NBUF ==> s.bufs[i].refcnt > 0
  {
    forall i | 0 <= i < |s.lh| ensures RefCount(s.bufs, s.lh[i]) > 0 {
      TotalBounds(s.procs, PointsTo(s.lh[i]));
    }
    NoFreeBuffer(s.bufs, s.lh);
  }

  lemma NoneForLog(s: Sys, to: nat)
    requires FullHeader(s)
    ensures !Gets(s.bufs, s.start + 1, to)
  {
    AllBusy(s);
    LogBlockUnused(s, s.start + 1);
  }

  /** A commit with a full header cannot take its first step: no buffer is left for the log block. */
  lemma FullHeaderStuck(s: Sys, step: Step)
    requires FullHeader(s) && OfCommit(step)
    ensures !Enabled(s, step)
  {
    if step.CopyToLog? {
      NoneForLog(s, step.to);
    }
  }

  // It stays that way, whatever the other processes do.
  lemma StuckStep(s: Sys, step: Step)
    requires FullHeader(s) && Enabled(s, step)
    ensures Do(s, step).phase == Logging(0) && Do(s, step).lh == s.lh
  {
    if OfCommit(step) {
      FullHeaderStuck(s, step);
    }
    if step.LogWrite? {
      ActiveMeansIdle(s, step.p);
    }
  }

  ghost predicate Waiting(s: Sys, lh: seq<int>) {
    s.phase == Logging(0) && s.lh == lh
  }

  lemma StillStuck(run: seq<Sys>, i: nat, lh: seq<int>)
    requires IsRun(run) && i + 1 < |run| && Waiting(run[i], lh) && |lh| == NBUF
    ensures Waiting(run[i + 1], lh)
  {
    RunInv(run, i);
    assert Next(run[i], run[i + 1]);
    StuckNext(run[i], run[i + 1]);
  }

  /** From then on the commit never goes on, in any run: the operations are never durable. */
  lemma {:induction false} StuckForever(run: seq<Sys>, m: nat, n: nat, lh: seq<int>)
    requires IsRun(run) && m <= n < |run| && Waiting(run[m], lh) && |lh| == NBUF
    ensures Waiting(run[n], lh)
    decreases n - m
  {
    if m < n {
      StuckForever(run, m, n - 1, lh);
      StillStuck(run, n - 1, lh);
    }
  }

  lemma StuckNext(s: Sys, t: Sys)
    requires FullHeader(s) && Next(s, t)
    ensures t.phase == Logging(0) && t.lh == s.lh
  {
    var step :| Enabled(s, step) && t == Do(s, step);
    StuckStep(s, step);
  }

  ghost predicate Quiet(s: Sys) {
    Inv(s) && s.phase == Logging(0) && s.held == map[] && forall p :: 0 <= p < |s.procs| ==> s.procs[p].ptr == map[]
  }

  lemma SomeForLog(s: Sys) returns (to: nat)
    requires Quiet(s) && |s.lh| < NBUF
    ensures Gets(s.bufs, s.start + 1, to)
  {
    forall b | RefCount(s.bufs, b) > 0 ensures b in s.lh {
      if b !in s.lh {
        TotalZero(s.procs, PointsTo(b));
      }
    }
    SetSize(s.lh);
    FreeBuffer(s.bufs, set b | b in s.lh);
    to :| 0 <= to < NBUF && s.bufs[to].refcnt == 0;
    if i :| 0 <= i < NBUF && Tagged(s.bufs[i], s.start + 1) {
      to := i;
    }
  }

  lemma SomeHolds(s: Sys) returns (from: nat)
    requires Quiet(s)
    ensures s.lh != [] && from < |s.bufs| && Tagged(s.bufs[from], s.lh[0])
  {
    TotalBounds(s.procs, PointsTo(s.lh[0]));
    assert RefCount(s.bufs, s.lh[0]) > 0;
    from :| 0 <= from < NBUF && Tagged(s.bufs[from], s.lh[0]);
  }

  /** When nobody else has a buffer, a commit can begin exactly if its header leaves one. */
  lemma CommitCanBegin(s: Sys)
    requires Quiet(s)
    ensures (exists to, from :: Enabled(s, CopyToLog(to, from))) <==> |s.lh| < NBUF
  {
    if |s.lh| < NBUF {
      var to := SomeForLog(s);
      var from := SomeHolds(s);
      assert Enabled(s, CopyToLog(to, from));
    } else {
      forall to, from ensures !Enabled(s, CopyToLog(to, from)) {
        FullHeaderStuck(s, CopyToLog(to, from));
      }
    }
  }

  lemma {:induction false} SetSize(xs: seq<int>)
    ensures |(set b | b in xs)| <= |xs|
  {
    if xs != [] {
      SetSize(xs[1..]);
      assert (set b | b in xs) == {xs[0]} + (set b | b in xs[1..]);
    }
  }
}
