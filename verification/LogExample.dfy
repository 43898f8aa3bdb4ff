/** A whole run of module LogRuns, from boot to the end of a commit. */
module LogExample {
  import opened Blocks
  import opened Bio
  import opened Common
  import opened LogRuns

  function Last(run: seq<Sys>): Sys
    requires |run| > 0
  {
    run[|run| - 1]
  }

  lemma Extend(run: seq<Sys>, step: Step, run': seq<Sys>)
    requires IsRun(run) && Enabled(Last(run), step) && run' == run + [Do(Last(run), step)]
    ensures IsRun(run') && Last(run') == Do(Last(run), step)
  {
    forall i | 0 <= i < |run'| - 1 ensures Next(run'[i], run'[i + 1]) {
      if i == |run| - 1 {
        assert Enabled(run'[i], step) && run'[i + 1] == Do(run'[i], step);
      } else {
        assert Next(run[i], run[i + 1]);
      }
    }
  }

  lemma Grow(run: seq<Sys>, step: Step) returns (run': seq<Sys>)
    requires IsRun(run) && Enabled(Last(run), step)
    ensures IsRun(run') && Last(run') == Do(Last(run), step)
  {
    run' := run + [Do(Last(run), step)];
    Extend(run, step, run');
  }

  function EmptyBuf(): Buf {
    Bio.Buf(0, 0, false, 0, seq(WORDS, _ => 0))
  }

  // Boot on a recovered disk with n processes.
  function Boot(start: nat, disk: seq<Block>, n: nat): (s: Sys)
    requires DiskOk(start, disk) && LogOf(start, disk) == []
    ensures Init(s)
  {
    Sys(start, disk, seq(NBUF, _ => EmptyBuf()), map[], [], 0, false, 0, Idle, seq(n, _ => Proc(None, 0, map[])),
        disk, {}, disk, [], [], [], {})
  }

  // Process 0 has written data to block b and ended its operation, and nothing else has happened.
  predicate Written(s: Sys, start: nat, disk: seq<Block>, b: nat, data: Block) {
    && s.start == start && s.disk == disk && s.phase == Logging(0) && s.committing && s.lh == [b] && s.held == map[]
      && s.ncommit == 0
    && |s.bufs| == NBUF && s.bufs[0] == Bio.Buf(ROOTDEV, b, true, 1, data)
    && forall i :: 0 < i < NBUF ==> s.bufs[i] == EmptyBuf()
  }

  // bread and its sleep lock.
  lemma ReadBlock(run: seq<Sys>, b: nat) returns (run': seq<Sys>)
    requires IsRun(run) && Home(Last(run), b)
    requires var s := Last(run); |s.procs| > 0 && s.procs[0] == Proc(Some(0), 0, map[]) && s.held == map[]
                                 && s.bufs == seq(NBUF, _ => EmptyBuf())
    ensures IsRun(run') && var s, t := Last(run), Last(run');
            && t == s.(bufs := s.bufs[0 := Bio.Buf(ROOTDEV, b, true, 1, s.disk[b])], held := map[b := 0],
                       procs := s.procs[0 := Proc(Some(0), 0, map[b := 0])])
  {
    var s := Last(run);
    run' := Grow(run, Bget(0, b, 0));
    run' := Grow(run', Lock(0, b));
    run' := Grow(run', Fill(0, b));
    assert Last(run').bufs == s.bufs[0 := Bio.Buf(ROOTDEV, b, true, 1, s.disk[b])];
  }

  // The block is changed and given to log_write.
  lemma ChangeBlock(run: seq<Sys>, b: nat, data: Block, was: Block) returns (run': seq<Sys>)
    requires IsRun(run) && Home(Last(run), b)
    requires var s := Last(run); |s.procs| > 0 && s.procs[0] == Proc(Some(0), 0, map[b := 0]) && s.held == map[b := 0]
    requires var s := Last(run); |s.bufs| == NBUF && s.bufs[0] == Bio.Buf(ROOTDEV, b, true, 1, was) && s.lh == []
                                 && s.unlogged == {}
    ensures IsRun(run')
    ensures var s, t := Last(run), Last(run');
            && t == s.(lh := [b], bufs := s.bufs[0 := Bio.Buf(ROOTDEV, b, true, 2, data)], procs := t.procs,
                       mem := t.mem, current := t.current)
            && t.procs == s.procs[0 := Proc(Some(0), 1, map[b := 0])]
  {
    var s := Last(run);
    run' := Grow(run, Modify(0, b, data));
    run' := Grow(run', LogWrite(0, b));
    assert Last(run').unlogged == {};
    assert Last(run').bufs == s.bufs[0 := Bio.Buf(ROOTDEV, b, true, 2, data)];
  }

  lemma EndWrite(run: seq<Sys>, b: nat, data: Block) returns (run': seq<Sys>)
    requires IsRun(run) && Home(Last(run), b)
    requires var s := Last(run); |s.procs| > 0 && s.procs[0] == Proc(Some(0), 1, map[b := 0]) && s.held == map[b := 0]
                                 && s.outstanding == 1
    requires var s := Last(run); |s.bufs| == NBUF && s.bufs[0] == Bio.Buf(ROOTDEV, b, true, 2, data) && s.lh == [b]
                                 && s.unlogged == {} && !s.committing
    ensures IsRun(run')
    ensures var s, t := Last(run), Last(run');
            && t.start == s.start && t.disk == s.disk && t.phase == Logging(0) && t.committing && t.lh == [b]
              && t.held == map[]
            && t.ncommit == s.ncommit && t.bufs == s.bufs[0 := Bio.Buf(ROOTDEV, b, true, 1, data)]
  {
    run' := Grow(run, Brelse(0, b));
    assert Last(run').held == map[];
    run' := Grow(run', EndOp(0));
  }

  // The commit up to its header write.
  lemma LogBlock(run: seq<Sys>, start: nat, disk: seq<Block>, b: nat, data: Block) returns (run': seq<Sys>)
    requires IsRun(run) && DiskOk(start, disk) && 0 <= b < |disk| && !InLog(start, b)
             && Written(Last(run), start, disk, b, data)
    ensures IsRun(run') && Logged(Last(run'), start, |disk|, b, data)
  {
    var s := Last(run);
    var r1 := run + [Do(s, CopyToLog(1, 0))];
    Extend(run, CopyToLog(1, 0), r1);
    var t := Last(r1);
    assert t.bufs[1] == Bio.Buf(ROOTDEV, start + 1, true, 0, data) && t.bufs[0] == s.bufs[0] && t.bufs[2] == EmptyBuf();
    assert forall j :: 0 <= j < NBUF ==> !Tagged(t.bufs[j], start);
    run' := r1 + [Do(t, WriteHead(2))];
    Extend(r1, WriteHead(2), run');
  }

  // The header is on disk, and block b is still to go home.
  predicate Logged(s: Sys, start: nat, size: nat, b: nat, data: Block) {
    && s.start == start && |s.disk| == size && s.phase == Installing(0) && s.lh == [b] && s.held == map[]
      && s.ncommit == 0
    && |s.bufs| == NBUF && s.bufs[0] == Bio.Buf(ROOTDEV, b, true, 1, data)
      && s.bufs[1] == Bio.Buf(ROOTDEV, start + 1, true, 0, data)
    && Caches(s.bufs[2], start)
  }

  lemma InstallBlock(run: seq<Sys>, start: nat, size: nat, b: nat, data: Block) returns (run': seq<Sys>)
    requires IsRun(run) && start + LOGBLOCKS < size && 0 <= b < size && !InLog(start, b)
             && Logged(Last(run), start, size, b, data)
    ensures IsRun(run') && Installed(Last(run'), size, b, data)
  {
    var s := Last(run);
    var r1 := run + [Do(s, InstallOne(1, 0))];
    Extend(run, InstallOne(1, 0), r1);
    assert Last(r1).bufs[2] == s.bufs[2];
    run' := ClearLog(r1, start, size, b, data);
  }

  lemma ClearLog(run: seq<Sys>, start: nat, size: nat, b: nat, data: Block) returns (run': seq<Sys>)
    requires IsRun(run) && start < size && b < size && !InLog(start, b)
    requires var s := Last(run); s.start == start && |s.disk| == size && s.disk[b] == data && s.phase == Installing(1)
                                 && |s.lh| == 1
    requires var s := Last(run); s.ncommit == 0 && |s.bufs| == NBUF && Caches(s.bufs[2], start)
    ensures IsRun(run') && Installed(Last(run'), size, b, data)
  {
    var r1 := run + [Do(Last(run), ClearHead(2))];
    Extend(run, ClearHead(2), r1);
    run' := r1 + [Do(Last(r1), FinishCommit)];
    Extend(r1, FinishCommit, run');
  }

  predicate Installed(s: Sys, size: nat, b: nat, data: Block) {
    |s.disk| == size && 0 <= b < size && s.disk[b] == data && s.ncommit == 1 && s.phase == Idle && !s.committing
  }

  /** From any recovered disk there is a run in which a process writes any data to any home block, and in which the
      commit ends with the block on disk. */
  lemma WriteReachesDisk(start: nat, disk: seq<Block>, b: nat, data: Block) returns (run: seq<Sys>)
    requires DiskOk(start, disk) && LogOf(start, disk) == [] && 0 <= b < |disk| && !InLog(start, b)
    ensures IsRun(run) && Installed(Last(run), |disk|, b, data)
  {
    var s := Boot(start, disk, 1);
    run := [s];
    var r1 := run + [Do(s, BeginOp(0))];
    Extend(run, BeginOp(0), r1);
    var r2 := ReadBlock(r1, b);
    var r3 := ChangeBlock(r2, b, data, disk[b]);
    r3 := EndWrite(r3, b, data);
    assert Written(Last(r3), start, disk, b, data);
    var r4 := LogBlock(r3, start, disk, b, data);
    run := InstallBlock(r4, start, |disk|, b, data);
  }
}
