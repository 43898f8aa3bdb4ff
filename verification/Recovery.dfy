/** Disk blocks and the on-disk format of the redo log (kernel/fs.h, kernel/param.h, kernel/log.c). */
module Blocks {
  import opened Common

  const LOGBLOCKS := MAXOPBLOCKS * 3
  const NBUF := MAXOPBLOCKS * 3
  const ROOTDEV := 1

  // A block is BSIZE = 1024 bytes, seen as 256 words of 32 bits.
  const WORDS := 256
  type Block = b: seq<int> | |b| == WORDS witness seq(WORDS, _ => 0)

  // The log occupies the header block `start` and LOGBLOCKS blocks after it.
  predicate InLog(start: nat, b: int) {
    start <= b <= start + LOGBLOCKS
  }

  // Block numbers that the log may hold: distinct home blocks of the disk.
  predicate Loggable(start: nat, size: nat, lh: seq<int>) {
    && |lh| <= LOGBLOCKS
    && (forall i :: 0 <= i < |lh| ==> 0 <= lh[i] < size && !InLog(start, lh[i]))
    && (forall i, j :: 0 <= i < j < |lh| ==> lh[i] != lh[j])
  }

  // struct logheader laid over a block: word 0 is n, words 1.. are block numbers.
  predicate HeaderOk(b: Block) {
    0 <= b[0] <= LOGBLOCKS
  }

  function HeaderList(b: Block): seq<int>
    requires HeaderOk(b)
  {
    b[1..1 + b[0]]
  }

  // write_head stores n and the first n entries and leaves the other words alone.
  function PutHeader(b: Block, lh: seq<int>): (r: Block)
    requires |lh| <= LOGBLOCKS
    ensures HeaderOk(r) && HeaderList(r) == lh
  {
    [|lh|] + lh + b[1 + |lh|..]
  }

  /** The header's words: the count, the block numbers, and what was there before. */
  lemma HeaderWords(b: Block, lh: seq<int>, k: nat)
    requires |lh| <= LOGBLOCKS && k < WORDS
    ensures PutHeader(b, lh)[k] == if k == 0 then |lh| else if k <= |lh| then lh[k - 1] else b[k]
  {
  }

  predicate DiskOk(start: nat, d: seq<Block>) {
    && start + LOGBLOCKS < |d|
    && HeaderOk(d[start])
    && Loggable(start, |d|, HeaderList(d[start]))
  }

  function LogOf(start: nat, d: seq<Block>): seq<int>
    requires DiskOk(start, d)
  {
    HeaderList(d[start])
  }

  predicate SameHome(start: nat, d: seq<Block>, e: seq<Block>) {
    |d| == |e| && forall b :: 0 <= b < |d| && !InLog(start, b) ==> d[b] == e[b]
  }
}

/** What recovery makes of a disk, and why a crash at any block write is harmless. */
module Recovery {
  import opened Blocks

  // install_trans after its first k iterations.
  function Install(start: nat, d: seq<Block>, lh: seq<int>, k: nat): (r: seq<Block>)
    ensures |r| == |d|
  {
    if k == 0 then d
    else
      var e := Install(start, d, lh, k - 1);
      if k <= |lh| && 0 <= lh[k - 1] < |d| && start + k < |d| then e[lh[k - 1] := e[start + k]] else e
  }

  // recover_from_log: install the logged blocks, then clear the header.
  function Recover(start: nat, d: seq<Block>): (r: seq<Block>)
    requires DiskOk(start, d)
    ensures |r| == |d|
  {
    var lh := LogOf(start, d);
    var e := Install(start, d, lh, |lh|);
    e[start := PutHeader(e[start], [])]
  }

  // write_log after its first k iterations, copying cached contents `mem`.
  function LogWritten(start: nat, d: seq<Block>, lh: seq<int>, mem: seq<Block>, k: nat): (r: seq<Block>)
    ensures |r| == |d|
  {
    if k == 0 then d
    else
      var e := LogWritten(start, d, lh, mem, k - 1);
      if k <= |lh| && 0 <= lh[k - 1] < |mem| && start + k < |d| then e[start + k := mem[lh[k - 1]]] else e
  }

  // The home blocks with every block of the transaction installed.
  function Merged(d: seq<Block>, lh: seq<int>, mem: seq<Block>): (r: seq<Block>)
    requires |d| == |mem|
  {
    seq(|d|, b requires 0 <= b < |d| => if b in lh then mem[b] else d[b])
  }

  // Number of block writes of a whole commit: the log, the header, the homes, the header.
  function CommitWrites(lh: seq<int>): nat {
    if |lh| == 0 then 0 else 2 * |lh| + 2
  }

  // The disk after the first `step` block writes of commit.
  function CommitDisk(start: nat, d: seq<Block>, lh: seq<int>, mem: seq<Block>, step: nat): (r: seq<Block>)
    requires start + LOGBLOCKS < |d| == |mem| && Loggable(start, |d|, lh)
    requires step <= CommitWrites(lh)
    ensures |r| == |d|
  {
    var n := |lh|;
    if step <= n then LogWritten(start, d, lh, mem, step)
    else
      var logged := LogWritten(start, d, lh, mem, n);
      var headed := logged[start := PutHeader(logged[start], lh)];
      if step <= 2 * n + 1 then Install(start, headed, lh, step - n - 1)
      else
        var e := Install(start, headed, lh, n);
        e[start := PutHeader(e[start], [])]
  }

  // The disks that one write_log, one install_trans, one commit and one recovery pass through.
  function LogTrace(start: nat, d: seq<Block>, lh: seq<int>, mem: seq<Block>, k: nat): (r: seq<seq<Block>>)
    ensures |r| == k && forall j :: 0 <= j < k ==> r[j] == LogWritten(start, d, lh, mem, j + 1)
  {
    if k == 0 then [] else LogTrace(start, d, lh, mem, k - 1) + [LogWritten(start, d, lh, mem, k)]
  }

  function InstallTrace(start: nat, d: seq<Block>, lh: seq<int>, k: nat): (r: seq<seq<Block>>)
    ensures |r| == k && forall j :: 0 <= j < k ==> r[j] == Install(start, d, lh, j + 1)
  {
    if k == 0 then [] else InstallTrace(start, d, lh, k - 1) + [Install(start, d, lh, k)]
  }

  function CommitTrace(start: nat, d: seq<Block>, lh: seq<int>, mem: seq<Block>): (r: seq<seq<Block>>)
    requires start + LOGBLOCKS < |d| == |mem| && Loggable(start, |d|, lh)
    ensures |r| == CommitWrites(lh)
  {
    if lh == [] then []
    else
      var logged := LogWritten(start, d, lh, mem, |lh|);
      var headed := logged[start := PutHeader(logged[start], lh)];
      var e := Install(start, headed, lh, |lh|);
      LogTrace(start, d, lh, mem, |lh|) + [headed] + InstallTrace(start, headed, lh, |lh|)
        + [e[start := PutHeader(e[start], [])]]
  }

  function RecoveryTrace(start: nat, d: seq<Block>): (r: seq<seq<Block>>)
    requires DiskOk(start, d)
  {
    InstallTrace(start, d, LogOf(start, d), |LogOf(start, d)|) + [Recover(start, d)]
  }

  // The disk after the first `step` block writes of a recovery that is then cut short.
  function RecoveryDisk(start: nat, d: seq<Block>, step: nat): (r: seq<Block>)
    requires DiskOk(start, d)
    ensures |r| == |d|
  {
    var lh := LogOf(start, d);
    if step <= |lh| then Install(start, d, lh, step) else Recover(start, d)
  }

  lemma InstallStep(start: nat, d: seq<Block>, lh: seq<int>, k: nat)
    requires start + LOGBLOCKS < |d| && Loggable(start, |d|, lh) && k < |lh|
    ensures var e := Install(start, d, lh, k);
            && Install(start, d, lh, k + 1) == e[lh[k] := e[start + 1 + k]]
            && InstallTrace(start, d, lh, k + 1) == InstallTrace(start, d, lh, k) + [e[lh[k] := e[start + 1 + k]]]
  {
  }

  lemma LogStep(start: nat, d: seq<Block>, lh: seq<int>, mem: seq<Block>, k: nat)
    requires start + LOGBLOCKS < |d| == |mem| && Loggable(start, |d|, lh) && k < |lh|
    ensures var e := LogWritten(start, d, lh, mem, k);
            && LogWritten(start, d, lh, mem, k + 1) == e[start + 1 + k := mem[lh[k]]]
            && LogTrace(start, d, lh, mem, k + 1) == LogTrace(start, d, lh, mem, k) + [e[start + 1 + k := mem[lh[k]]]]
  {
  }

  lemma {:induction false} InstallAt(start: nat, d: seq<Block>, lh: seq<int>, k: nat)
    requires start + LOGBLOCKS < |d| && Loggable(start, |d|, lh) && k <= |lh|
    ensures var e := Install(start, d, lh, k);
            && (forall i {:trigger lh[i]} :: 0 <= i < k ==> e[lh[i]] == d[start + 1 + i])
            && (forall b :: 0 <= b < |d| && b !in lh[..k] ==> e[b] == d[b])
            && (forall b :: InLog(start, b) ==> e[b] == d[b])
  {
    if k > 0 {
      InstallAt(start, d, lh, k - 1);
      var e := Install(start, d, lh, k - 1);
      assert e[start + k] == d[start + k] by {
        assert InLog(start, start + k);
      }
      assert lh[..k] == lh[..k - 1] + [lh[k - 1]];
    }
  }

  lemma {:induction false} LogWrittenAt(start: nat, d: seq<Block>, lh: seq<int>, mem: seq<Block>, k: nat)
    requires start + LOGBLOCKS < |d| == |mem| && Loggable(start, |d|, lh) && k <= |lh|
    ensures var e := LogWritten(start, d, lh, mem, k);
            && (forall i {:trigger lh[i]} :: 0 <= i < k ==> e[start + 1 + i] == mem[lh[i]])
            && (forall b :: 0 <= b < |d| && !(start < b <= start + k) ==> e[b] == d[b])
  {
    if k > 0 {
      LogWrittenAt(start, d, lh, mem, k - 1);
    }
  }

  // The log blocks hold the contents that mem gives to the blocks of lh.
  predicate LogHolds(start: nat, d: seq<Block>, lh: seq<int>, mem: seq<Block>)
    requires start + LOGBLOCKS < |d| == |mem| && Loggable(start, |d|, lh)
  {
    forall i {:trigger lh[i]} :: 0 <= i < |lh| ==> d[start + 1 + i] == mem[lh[i]]
  }

  // With an empty log, recovery changes no home block.
  lemma RecoverIdle(start: nat, d: seq<Block>)
    requires DiskOk(start, d) && LogOf(start, d) == []
    ensures SameHome(start, Recover(start, d), d)
  {
  }

  // A disk whose header lists lh and whose log holds those blocks recovers to them.
  lemma RecoverCommitted(start: nat, d: seq<Block>, lh: seq<int>, home: seq<Block>, mem: seq<Block>)
    requires DiskOk(start, d) && LogOf(start, d) == lh && |d| == |mem| == |home|
    requires LogHolds(start, d, lh, mem)
    requires forall b :: 0 <= b < |d| && !InLog(start, b) && b !in lh ==> d[b] == home[b]
    ensures SameHome(start, Recover(start, d), Merged(home, lh, mem))
  {
    InstallAt(start, d, lh, |lh|);
    assert lh[..|lh|] == lh;
  }

  // Installing any part of a committed transaction leaves a disk that recovers to all of it.
  lemma RecoverInstalling(start: nat, d: seq<Block>, lh: seq<int>, home: seq<Block>, mem: seq<Block>, k: nat)
    requires DiskOk(start, d) && LogOf(start, d) == lh && |d| == |mem| == |home| && k <= |lh|
    requires LogHolds(start, d, lh, mem)
    requires forall b :: 0 <= b < |d| && !InLog(start, b) && b !in lh ==> d[b] == home[b]
    ensures var e := Install(start, d, lh, k);
            && DiskOk(start, e) && LogOf(start, e) == lh && LogHolds(start, e, lh, mem)
            && SameHome(start, Recover(start, e), Merged(home, lh, mem))
  {
    var e := Install(start, d, lh, k);
    InstallAt(start, d, lh, k);
    assert InLog(start, start);
    assert LogHolds(start, e, lh, mem) by {
      forall i {:trigger lh[i]} | 0 <= i < |lh| ensures e[start + 1 + i] == mem[lh[i]] {
        assert InLog(start, start + 1 + i);
      }
    }
    RecoverCommitted(start, e, lh, home, mem);
  }

  // Clearing the header of a fully installed transaction keeps it.
  lemma RecoverCleared(start: nat, d: seq<Block>, lh: seq<int>, home: seq<Block>, mem: seq<Block>)
    requires DiskOk(start, d) && LogOf(start, d) == lh && |d| == |mem| == |home|
    requires LogHolds(start, d, lh, mem)
    requires forall b :: 0 <= b < |d| && !InLog(start, b) && b !in lh ==> d[b] == home[b]
    ensures var r := Recover(start, d);
            && DiskOk(start, r) && LogOf(start, r) == []
            && SameHome(start, Recover(start, r), Merged(home, lh, mem))
  {
    RecoverCommitted(start, d, lh, home, mem);
    RecoverIdle(start, Recover(start, d));
  }

  /** Commit is atomic: up to the header write a crash undoes the whole transaction,
      from the header write on it keeps every block of it. */
  lemma CommitAtomic(start: nat, d: seq<Block>, lh: seq<int>, mem: seq<Block>, step: nat)
    requires DiskOk(start, d) && LogOf(start, d) == [] && |d| == |mem|
    requires Loggable(start, |d|, lh) && step <= CommitWrites(lh)
    ensures var e := CommitDisk(start, d, lh, mem, step);
            && DiskOk(start, e)
            && SameHome(start, Recover(start, e), if step <= |lh| then d else Merged(d, lh, mem))
  {
    var n := |lh|;
    if step <= n {
      LogWrittenAt(start, d, lh, mem, step);
      RecoverIdle(start, LogWritten(start, d, lh, mem, step));
    } else {
      LogWrittenAt(start, d, lh, mem, n);
      var logged := LogWritten(start, d, lh, mem, n);
      var headed := logged[start := PutHeader(logged[start], lh)];
      if step <= 2 * n + 1 {
        RecoverInstalling(start, headed, lh, d, mem, step - n - 1);
      } else {
        RecoverCleared(start, headed, lh, d, mem);
      }
    }
  }

  // One interrupted recovery changes nothing about what the next recovery yields.
  lemma RecoveryRestart(start: nat, d: seq<Block>, step: nat)
    requires DiskOk(start, d)
    ensures var e := RecoveryDisk(start, d, step);
            DiskOk(start, e) && SameHome(start, Recover(start, e), Recover(start, d))
  {
    var lh := LogOf(start, d);
    var mem := Install(start, d, lh, |lh|);
    InstallAt(start, d, lh, |lh|);
    RecoverCommitted(start, d, lh, d, mem);
    if step <= |lh| {
      RecoverInstalling(start, d, lh, d, mem, step);
    } else {
      RecoverCleared(start, d, lh, d, mem);
    }
  }

  // Recoveries cut short one after the other, after crashes[0], crashes[1], ... block writes.
  function AfterCrashes(start: nat, d: seq<Block>, crashes: seq<nat>): (r: seq<Block>)
    requires DiskOk(start, d)
    ensures |r| == |d| && DiskOk(start, r)
    decreases |crashes|
  {
    if crashes == [] then d
    else
      RecoveryRestart(start, d, crashes[0]);
      AfterCrashes(start, RecoveryDisk(start, d, crashes[0]), crashes[1..])
  }

  lemma {:induction false} RecoveryRestarts(start: nat, d: seq<Block>, crashes: seq<nat>)
    requires DiskOk(start, d)
    ensures SameHome(start, Recover(start, AfterCrashes(start, d, crashes)), Recover(start, d))
    decreases |crashes|
  {
    if crashes != [] {
      RecoveryRestart(start, d, crashes[0]);
      RecoveryRestarts(start, RecoveryDisk(start, d, crashes[0]), crashes[1..]);
    }
  }

  /** Crash atomicity: cut commit after any block write, cut any number of recoveries after
      any block write; the recovery that completes leaves the old home blocks or all the new
      ones, and a disk that is ready for the next transaction. */
  lemma CrashAtomicity(start: nat, d: seq<Block>, lh: seq<int>, mem: seq<Block>, step: nat, crashes: seq<nat>)
    requires DiskOk(start, d) && LogOf(start, d) == [] && |d| == |mem|
    requires Loggable(start, |d|, lh) && step <= CommitWrites(lh)
    ensures var e := CommitDisk(start, d, lh, mem, step);
            && DiskOk(start, e)
            && var r := Recover(start, AfterCrashes(start, e, crashes));
               && DiskOk(start, r) && LogOf(start, r) == []
               && SameHome(start, r, if step <= |lh| then d else Merged(d, lh, mem))
  {
    CommitAtomic(start, d, lh, mem, step);
    RecoveryRestarts(start, CommitDisk(start, d, lh, mem, step), crashes);
  }

  /** The same for the disks that the running code passes through: every disk written during a
      commit recovers to the old home blocks up to the header write and to the new ones after. */
  lemma CommitTraceAtomic(start: nat, d: seq<Block>, lh: seq<int>, mem: seq<Block>, j: nat)
    requires DiskOk(start, d) && LogOf(start, d) == [] && |d| == |mem|
    requires Loggable(start, |d|, lh) && j < CommitWrites(lh)
    ensures var e := CommitTrace(start, d, lh, mem)[j];
            && DiskOk(start, e)
            && SameHome(start, Recover(start, e), if j < |lh| then d else Merged(d, lh, mem))
  {
    CommitAtomic(start, d, lh, mem, j + 1);
    assert CommitTrace(start, d, lh, mem)[j] == CommitDisk(start, d, lh, mem, j + 1);
  }

  lemma RecoveryTraceSafe(start: nat, d: seq<Block>, j: nat)
    requires DiskOk(start, d) && j < |RecoveryTrace(start, d)|
    ensures var e := RecoveryTrace(start, d)[j];
            DiskOk(start, e) && SameHome(start, Recover(start, e), Recover(start, d))
  {
    RecoveryRestart(start, d, j + 1);
  }
}
