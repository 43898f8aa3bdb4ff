/** Whole runs of the storage layer: system calls, readers, the group commit and the buffer cache,
    interleaved in any order (kernel/log.c, kernel/bio.c).  A step of a system call is one critical section.  A step
    of the committer is one turn of write_log or install_trans, whose bread, bwrite and brelse are taken together:
    between them it alone uses the log's blocks, and others may only read or wait for the home block it holds. */
module LogRuns {
  import opened Blocks
  import opened Recovery
  import opened Bio
  import opened Common
  import L = Log

  // A process: the operation it is in, how many blocks that operation added to the log, and
  // the buffer pointers that bget gave it.
  datatype Proc = Proc(op: Option<nat>, added: nat, ptr: map<int, nat>)

  // Where the committing process is in end_op.
  datatype Phase = Idle | Logging(k: nat) | Installing(k: nat) | Done

  // One log_write: which operation wrote what to which block.
  datatype Write = Write(op: nat, block: int, data: Block)

  datatype Sys = Sys(
    start: nat,
    disk: seq<Block>,
    bufs: seq<Buf>,
    held: map<int, nat>,           // sleep-locked blocks and who holds them
    lh: seq<int>,
    outstanding: nat,
    committing: bool,
    ncommit: nat,
    phase: Phase,
    procs: seq<Proc>,
    // History.
    mem: seq<Block>,               // a plain memory: what the writes so far make of every block
    unlogged: set<int>,            // blocks modified by their holder and not yet given to log_write
    base: seq<Block>,              // the disk at boot
    groups: seq<seq<Write>>,       // the committed groups, in order
    current: seq<Write>,           // the writes of the group being built
    groupOf: seq<nat>,             // for each operation, the group it belongs to
    ended: set<nat>)               // the operations whose end_op has taken effect

  // ----- Steps -----

  datatype Step =
    | BeginOp(p: nat)
    | Bget(p: nat, b: int, i: nat)
    | Lock(p: nat, b: int)
    | Fill(p: nat, b: int)
    | Modify(p: nat, b: int, data: Block)
    | LogWrite(p: nat, b: int)
    | Brelse(p: nat, b: int)
    | EndOp(p: nat)
    | CopyToLog(to: nat, from: nat)
    | WriteHead(h: nat)
    | InstallOne(l: nat, d: nat)
    | ClearHead(h: nat)
    | FinishCommit

  // Buffer i is what bget(b) returns: the one tagged b, or a free one if there is none.
  predicate Gets(bufs: seq<Buf>, b: int, i: nat) {
    && i < |bufs|
    && (Tagged(bufs[i], b) || (bufs[i].refcnt == 0 && forall j :: 0 <= j < |bufs| ==> !Tagged(bufs[j], b)))
  }

  predicate Home(s: Sys, b: int) {
    0 <= b < |s.disk| && !InLog(s.start, b)
  }

  predicate Holds(s: Sys, p: nat, b: int) {
    && p < |s.procs| && b in s.procs[p].ptr && s.procs[p].ptr[b] < |s.bufs|
    && b in s.held && s.held[b] == p && Home(s, b)
  }

  // The buffers after bget(b) has returned i.
  function Got(bufs: seq<Buf>, b: nat, i: nat): seq<Buf>
    requires i < |bufs|
  {
    if Tagged(bufs[i], b) then bufs[i := Ref(bufs[i])] else bufs[i := Bio.Buf(ROOTDEV, b, false, 1, bufs[i].data)]
  }

  // The buffers after bread(b) = i and, later, brelse(i).
  function Loaded(disk: seq<Block>, bufs: seq<Buf>, b: nat, i: nat): seq<Buf>
    requires i < |bufs| && b < |disk|
  {
    if Caches(bufs[i], b) then bufs
    else bufs[i := Bio.Buf(ROOTDEV, b, true, if Tagged(bufs[i], b) then bufs[i].refcnt else 0, disk[b])]
  }

  predicate Enabled(s: Sys, step: Step) {
    match step
    case BeginOp(p) =>
      p < |s.procs| && s.procs[p].op.None? && L.MayBegin(s.committing, |s.lh|, s.outstanding)
    case Bget(p, b, i) =>
      p < |s.procs| && Home(s, b) && b !in s.procs[p].ptr && Gets(s.bufs, b, i)
    case Lock(p, b) =>
      p < |s.procs| && b in s.procs[p].ptr && b !in s.held
    case Fill(p, b) =>
      Holds(s, p, b) && !s.bufs[s.procs[p].ptr[b]].valid
    case Modify(p, b, data) =>
      Holds(s, p, b) && s.bufs[s.procs[p].ptr[b]].valid && s.procs[p].op.Some?
    case LogWrite(p, b) =>
      // the caller's duty: fewer than MAXOPBLOCKS blocks added so far
      && Holds(s, p, b) && s.bufs[s.procs[p].ptr[b]].valid && s.procs[p].op.Some?
      && s.procs[p].added < MAXOPBLOCKS
    case Brelse(p, b) =>
      Holds(s, p, b) && b !in s.unlogged && s.bufs[s.procs[p].ptr[b]].refcnt > 0
    case EndOp(p) =>
      && p < |s.procs| && s.procs[p].op.Some? && s.outstanding > 0 && !s.committing
      && (forall b :: b in s.unlogged && b in s.held ==> s.held[b] != p)
    case CopyToLog(to, from) =>
      && s.phase.Logging? && s.phase.k < |s.lh| && s.lh[s.phase.k] !in s.held
      && s.start + 1 + s.phase.k < |s.disk| && Gets(s.bufs, s.start + 1 + s.phase.k, to)
      && from < |s.bufs| && Tagged(s.bufs[from], s.lh[s.phase.k]) && 0 <= s.lh[s.phase.k] < |s.disk|
    case WriteHead(h) =>
      s.phase == Logging(|s.lh|) && s.start < |s.disk| && Gets(s.bufs, s.start, h) && |s.lh| <= LOGBLOCKS
    case InstallOne(l, d) =>
      && s.phase.Installing? && s.phase.k < |s.lh| && s.lh[s.phase.k] !in s.held
      && s.start + 1 + s.phase.k < |s.disk| && Gets(s.bufs, s.start + 1 + s.phase.k, l)
      && d < |s.bufs| && Tagged(s.bufs[d], s.lh[s.phase.k]) && s.bufs[d].refcnt > 0 && 0 <= s.lh[s.phase.k] < |s.disk|
    case ClearHead(h) =>
      s.phase == Installing(|s.lh|) && s.start < |s.disk| && Gets(s.bufs, s.start, h)
    case FinishCommit =>
      s.phase == Done
  }

  function Put(s: seq<Block>, b: int, x: Block): seq<Block> {
    if 0 <= b < |s| then s[b := x] else s
  }

  function DoBeginOp(s: Sys, p: nat): Sys
    requires Enabled(s, BeginOp(p))
  {
    s.(outstanding := s.outstanding + 1,
       procs := s.procs[p := s.procs[p].(op := Some(|s.groupOf|), added := 0)],
       groupOf := s.groupOf + [|s.groups|])
  }

  function DoBget(s: Sys, p: nat, b: int, i: nat): Sys
    requires Enabled(s, Bget(p, b, i))
  {
    s.(bufs := Got(s.bufs, b, i), procs := s.procs[p := s.procs[p].(ptr := s.procs[p].ptr[b := i])])
  }

  function DoFill(s: Sys, p: nat, b: int): Sys
    requires Enabled(s, Fill(p, b))
  {
    var i := s.procs[p].ptr[b];
    s.(bufs := s.bufs[i := s.bufs[i].(valid := true, data := s.disk[b])])
  }

  function DoModify(s: Sys, p: nat, b: int, data: Block): Sys
    requires Enabled(s, Modify(p, b, data))
  {
    var i := s.procs[p].ptr[b];
    s.(bufs := s.bufs[i := s.bufs[i].(data := data)], mem := Put(s.mem, b, data), unlogged := s.unlogged + {b})
  }

  // log_write: the source's two panic tests are LogNeverFull's business.
  function DoLogWrite(s: Sys, p: nat, b: int): Sys
    requires Enabled(s, LogWrite(p, b))
  {
    var i := s.procs[p].ptr[b];
    var t := s.(lh := L.Absorb(s.lh, b), unlogged := s.unlogged - {b},
                current := s.current + [Write(s.procs[p].op.value, b, s.bufs[i].data)]);
    if b in s.lh then t
    else t.(bufs := s.bufs[i := Ref(s.bufs[i])],
            procs := s.procs[p := s.procs[p].(added := s.procs[p].added + 1)])
  }

  function DoBrelse(s: Sys, p: nat, b: int): Sys
    requires Enabled(s, Brelse(p, b))
  {
    var i := s.procs[p].ptr[b];
    s.(bufs := s.bufs[i := s.bufs[i].(refcnt := s.bufs[i].refcnt - 1)],
       procs := s.procs[p := s.procs[p].(ptr := s.procs[p].ptr - {b})],
       held := s.held - {b})
  }

  // end_op up to the call of commit(); commit() does nothing when the header is empty.
  function DoEndOp(s: Sys, p: nat): Sys
    requires Enabled(s, EndOp(p))
  {
    var t := s.(outstanding := s.outstanding - 1, procs := s.procs[p := s.procs[p].(op := None)],
                ended := s.ended + {s.procs[p].op.value});
    if s.outstanding > 1 then t
    else if s.lh == [] then t.(committing := true, phase := Done, groups := s.groups + [s.current], current := [])
    else t.(committing := true, phase := Logging(0))
  }

  function DoCopyToLog(s: Sys, to: nat, from: nat): Sys
    requires Enabled(s, CopyToLog(to, from))
  {
    var k := s.phase.k;
    var l := s.start + 1 + k;
    var x := if s.bufs[from].valid then s.bufs[from].data else s.disk[s.lh[k]];
    var bufs := Loaded(s.disk, s.bufs, l, to);
    s.(bufs := bufs[to := bufs[to].(data := x)], disk := Put(s.disk, l, x), mem := Put(s.mem, l, x),
       phase := Logging(k + 1))
  }

  // write_head, as the commit point and as the clearing write.
  function Head(s: Sys, h: nat, lh: seq<int>): Sys
    requires s.start < |s.disk| && h < |s.bufs| && |lh| <= LOGBLOCKS
  {
    var bufs := Loaded(s.disk, s.bufs, s.start, h);
    var x := PutHeader(bufs[h].data, lh);
    s.(bufs := bufs[h := bufs[h].(data := x)], disk := Put(s.disk, s.start, x), mem := Put(s.mem, s.start, x))
  }

  function DoWriteHead(s: Sys, h: nat): Sys
    requires Enabled(s, WriteHead(h))
  {
    Head(s, h, s.lh).(phase := Installing(0), groups := s.groups + [s.current], current := [])
  }

  function DoInstallOne(s: Sys, l: nat, d: nat): Sys
    requires Enabled(s, InstallOne(l, d))
  {
    var k := s.phase.k;
    var b := s.lh[k];
    var bufs := Loaded(s.disk, s.bufs, s.start + 1 + k, l);
    var x := bufs[l].data;
    // bunpin takes the pin away; bread and brelse of dbuf cancel out
    s.(bufs := bufs[d := Bio.Buf(ROOTDEV, b, true, s.bufs[d].refcnt - 1, x)],
       disk := Put(s.disk, b, x), mem := Put(s.mem, b, x), phase := Installing(k + 1))
  }

  function Do(s: Sys, step: Step): Sys
    requires Enabled(s, step)
  {
    match step
    case BeginOp(p) => DoBeginOp(s, p)
    case Bget(p, b, i) => DoBget(s, p, b, i)
    case Lock(p, b) => s.(held := s.held[b := p])
    case Fill(p, b) => DoFill(s, p, b)
    case Modify(p, b, data) => DoModify(s, p, b, data)
    case LogWrite(p, b) => DoLogWrite(s, p, b)
    case Brelse(p, b) => DoBrelse(s, p, b)
    case EndOp(p) => DoEndOp(s, p)
    case CopyToLog(to, from) => DoCopyToLog(s, to, from)
    case WriteHead(h) => DoWriteHead(s, h)
    case InstallOne(l, d) => DoInstallOne(s, l, d)
    case ClearHead(h) => Head(s.(lh := []), h, []).(phase := Done)
    case FinishCommit => s.(committing := false, phase := Idle, ncommit := s.ncommit + 1)
  }

  // Boot: a recovered disk, an empty cache, nobody in an operation.
  predicate Init(s: Sys) {
    && DiskOk(s.start, s.disk) && LogOf(s.start, s.disk) == []
    && |s.bufs| == NBUF && (forall i :: 0 <= i < NBUF ==> s.bufs[i].dev == 0 && !s.bufs[i].valid
                                                          && s.bufs[i].refcnt == 0)
    && s.held == map[] && s.lh == [] && s.outstanding == 0 && !s.committing && s.ncommit == 0 && s.phase == Idle
    && (forall p :: 0 <= p < |s.procs| ==> s.procs[p] == Proc(None, 0, map[]))
    && s.mem == s.disk && s.base == s.disk && s.unlogged == {} && s.groups == [] && s.current == []
    && s.groupOf == [] && s.ended == {}
  }

  ghost predicate Next(s: Sys, t: Sys) {
    exists step :: Enabled(s, step) && t == Do(s, step)
  }

  ghost predicate IsRun(run: seq<Sys>) {
    && |run| > 0 && Init(run[0])
    && forall i :: 0 <= i < |run| - 1 ==> Next(run[i], run[i + 1])
  }

  // ----- The invariant -----

  function Total(procs: seq<Proc>, f: Proc -> int): int {
    if procs == [] then 0 else Total(procs[..|procs| - 1], f) + f(procs[|procs| - 1])
  }

  lemma {:induction false} TotalUpdate(procs: seq<Proc>, f: Proc -> int, p: nat, x: Proc)
    requires p < |procs|
    ensures Total(procs[p := x], f) == Total(procs, f) - f(procs[p]) + f(x)
  {
    var n := |procs| - 1;
    if p < n {
      TotalUpdate(procs[..n], f, p, x);
      assert procs[p := x][..n] == procs[..n][p := x];
    } else {
      assert procs[p := x][..n] == procs[..n];
    }
  }

  lemma {:induction false} TotalBounds(procs: seq<Proc>, f: Proc -> int)
    requires forall x: Proc :: f(x) >= 0
    ensures Total(procs, f) >= 0
    ensures forall p :: 0 <= p < |procs| ==> f(procs[p]) <= Total(procs, f)
  {
    if procs != [] {
      TotalBounds(procs[..|procs| - 1], f);
    }
  }

  function PointsTo(b: int): Proc -> int {
    (x: Proc) => if b in x.ptr then 1 else 0
  }

  function Active(): Proc -> int {
    (x: Proc) => if x.op.Some? then 1 else 0
  }

  // What an active operation may still add to the log.
  function Budget(): Proc -> int {
    (x: Proc) => if x.op.Some? && x.added < MAXOPBLOCKS then MAXOPBLOCKS - x.added else 0
  }

  // The blocks whose buffers are pinned.
  function Pins(s: Sys): seq<int> {
    if s.phase.Installing? && s.phase.k <= |s.lh| then s.lh[s.phase.k..] else s.lh
  }

  // The buffer cache: one buffer per block, every pointer still good, every reference counted.
  ghost predicate CacheInv(s: Sys) {
    && |s.bufs| == NBUF && Unique(s.bufs) && OnlyRootUsed(s.bufs)
    && (forall i :: 0 <= i < NBUF && s.bufs[i].dev == ROOTDEV ==> s.bufs[i].blockno < |s.disk|)
    && (forall b {:trigger RefCount(s.bufs, b)} ::
          RefCount(s.bufs, b) == Total(s.procs, PointsTo(b)) + if b in Pins(s) then 1 else 0)
  }

  predicate PtrOk(s: Sys, i: nat, b: int) {
    i < |s.bufs| && Tagged(s.bufs[i], b) && Home(s, b)
  }

  ghost predicate PtrInv(s: Sys) {
    && (forall p, b :: 0 <= p < |s.procs| && b in s.procs[p].ptr ==> PtrOk(s, s.procs[p].ptr[b], b))
    && (forall b :: b in s.held ==> s.held[b] < |s.procs| && b in s.procs[s.held[b]].ptr)
  }

  ghost predicate UnloggedInv(s: Sys) {
    forall b :: b in s.unlogged ==> b in s.held && s.held[b] < |s.procs| && s.procs[s.held[b]].op.Some?
  }

  // Transparency: the cache over the disk reads like the plain memory; and whatever the disk
  // lacks is pinned, or held by the process that is changing it.
  ghost predicate MemInv(s: Sys) {
    && |s.mem| == |s.disk|
    && (forall b {:trigger Content(s.disk, s.bufs, b)} :: 0 <= b < |s.disk| ==> s.mem[b] == Content(s.disk, s.bufs, b))
    && (forall b :: 0 <= b < |s.disk| && s.mem[b] != s.disk[b] ==> b in Pins(s) || b in s.unlogged)
  }

  // The header, the counters and what the log blocks on disk hold.
  ghost predicate LogInv(s: Sys) {
    && |s.mem| == |s.disk| && DiskOk(s.start, s.disk) && Loggable(s.start, |s.disk|, s.lh)
    && s.outstanding == Total(s.procs, Active())
    && (s.committing <==> !s.phase.Idle?) && (s.committing ==> s.outstanding == 0)
    && (s.outstanding == 0 && !s.committing ==> s.lh == [])
    && |s.lh| + Total(s.procs, Budget()) <= LOGBLOCKS
    && match s.phase
       case Idle => LogOf(s.start, s.disk) == []
       case Logging(k) =>
         && LogOf(s.start, s.disk) == [] && k <= |s.lh| && s.lh != []
         && (forall i {:trigger s.lh[i]} :: 0 <= i < k ==> s.disk[s.start + 1 + i] == s.mem[s.lh[i]])
       case Installing(k) =>
         && LogOf(s.start, s.disk) == s.lh && k <= |s.lh| && s.current == []
         && LogHolds(s.start, s.disk, s.lh, s.mem)
       case Done => LogOf(s.start, s.disk) == [] && s.lh == [] && s.current == []
  }

  // The effect of log_writes on the blocks.
  function Apply(d: seq<Block>, ws: seq<Write>): (r: seq<Block>)
    ensures |r| == |d|
  {
    if ws == [] then d else Put(Apply(d, ws[..|ws| - 1]), ws[|ws| - 1].block, ws[|ws| - 1].data)
  }

  function ApplyGroups(d: seq<Block>, gs: seq<seq<Write>>): (r: seq<Block>)
    ensures |r| == |d|
  {
    if gs == [] then d else Apply(ApplyGroups(d, gs[..|gs| - 1]), gs[|gs| - 1])
  }

  // The home blocks that the committed groups make, and those with the current group as well.
  function Durable(s: Sys): seq<Block> {
    ApplyGroups(s.base, s.groups)
  }

  function Latest(s: Sys): seq<Block> {
    Apply(Durable(s), s.current)
  }

  ghost predicate HistInv(s: Sys) {
    && |s.base| == |s.disk| == |s.mem|
    && (forall b :: Home(s, b) && b !in s.unlogged ==> s.mem[b] == Latest(s)[b])
    && (forall w :: w in s.current ==> w.block in s.lh)
    && (forall b :: Home(s, b) && (s.phase.Installing? ==> b !in s.lh) ==> s.disk[b] == Durable(s)[b])
  }

  // Operations and groups.
  ghost predicate OpInv(s: Sys) {
    && |s.groups| == s.ncommit + (if s.phase.Installing? || s.phase.Done? then 1 else 0)
    && (forall o :: 0 <= o < |s.groupOf| ==> s.groupOf[o] <= s.ncommit)
    && (forall j, w :: 0 <= j < |s.groups| && w in s.groups[j] ==> w.op < |s.groupOf| && s.groupOf[w.op] == j)
    && (forall w :: w in s.current ==> w.op < |s.groupOf| && s.groupOf[w.op] == |s.groups|)
    && (forall p :: 0 <= p < |s.procs| && s.procs[p].op.Some? ==>
          s.procs[p].op.value < |s.groupOf| && s.groupOf[s.procs[p].op.value] == |s.groups|)
    && (forall o :: o in s.ended ==>
          o < |s.groupOf| && (s.groupOf[o] == s.ncommit ==> s.committing || s.outstanding > 0))
  }

  ghost predicate Inv(s: Sys) {
    StoreInv(s) && LogInv(s) && HistInv(s) && OpInv(s)
  }

  // Everything about the cache.
  ghost predicate StoreInv(s: Sys) {
    CacheInv(s) && PtrInv(s) && UnloggedInv(s) && MemInv(s)
  }

  lemma NoPointer(s: Sys, b: int, p: nat)
    requires CacheInv(s) && RefCount(s.bufs, b) == 0 && p < |s.procs|
    ensures b !in s.procs[p].ptr && b !in Pins(s)
  {
    TotalBounds(s.procs, PointsTo(b));
  }

  // What recycling relies on: an unreferenced buffer holds nothing that the disk lacks.
  lemma IdleIsClean(s: Sys)
    requires StoreInv(s)
    ensures IdleClean(s.disk, s.bufs)
  {
    forall i | 0 <= i < NBUF && s.bufs[i].dev == ROOTDEV && s.bufs[i].valid && s.bufs[i].refcnt == 0
      ensures s.bufs[i].data == s.disk[s.bufs[i].blockno]
    {
      var b := s.bufs[i].blockno;
      ContentOf(s.disk, s.bufs, i);
      if s.mem[b] != s.disk[b] {
        TotalBounds(s.procs, PointsTo(b));
        assert b in s.unlogged;
        NoPointer(s, b, s.held[b]);
      }
    }
  }

  // bread of block b into buffer i, once released again.
  lemma LoadedKeeps(disk: seq<Block>, bufs: seq<Buf>, bufs': seq<Buf>, b: nat, i: nat)
    requires Unique(bufs) && IdleClean(disk, bufs) && OnlyRootUsed(bufs) && b < |disk| && Gets(bufs, b, i)
    requires bufs' == Loaded(disk, bufs, b, i)
    ensures |bufs'| == |bufs| && Unique(bufs') && IdleClean(disk, bufs') && OnlyRootUsed(bufs') && Caches(bufs'[i], b)
    ensures forall c :: 0 <= c < |disk| ==> Content(disk, bufs', c) == Content(disk, bufs, c)
    ensures forall c :: RefCount(bufs', c) == RefCount(bufs, c)
    ensures bufs' == bufs[i := bufs'[i]]
    ensures bufs'[i].refcnt == bufs[i].refcnt && bufs'[i].data == Content(disk, bufs, b)
    ensures bufs[i].refcnt > 0 ==> Tagged(bufs[i], b)
  {
    if Tagged(bufs[i], b) {
      ContentOf(disk, bufs, i);
      UpdateContent(disk, bufs, bufs', i);
    } else {
      var mid := bufs[i := Bio.Buf(ROOTDEV, b, false, 1, bufs[i].data)];
      RecycleContent(disk, bufs, mid, i, b);
      UpdateContent(disk, mid, bufs', i);
    }
    ContentOf(disk, bufs', i);
  }

  // A buffer and its disk block change together.
  lemma WriteThrough(disk: seq<Block>, disk': seq<Block>, bufs: seq<Buf>, bufs': seq<Buf>, i: nat)
    requires Unique(bufs) && i < |bufs| == |bufs'| && bufs' == bufs[i := bufs'[i]] && bufs'[i].valid
    requires bufs'[i].dev == bufs[i].dev == ROOTDEV && bufs'[i].blockno == bufs[i].blockno < |disk|
    requires disk' == disk[bufs'[i].blockno := bufs'[i].data]
    ensures Unique(bufs')
    ensures forall c :: 0 <= c < |disk| ==>
              Content(disk', bufs', c) == if c == bufs'[i].blockno then bufs'[i].data else Content(disk, bufs, c)
    ensures forall c :: RefCount(bufs', c) == if c == bufs'[i].blockno then bufs'[i].refcnt else RefCount(bufs, c)
  {
    UpdateContent(disk, bufs, bufs', i);
    ContentOf(disk', bufs', i);
    forall c | 0 <= c < |disk| && c != bufs'[i].blockno ensures Content(disk', bufs', c) == Content(disk, bufs', c) {}
  }

  // The effect of bget on the counts and contents.
  lemma GotKeeps(s: Sys, bufs': seq<Buf>, b: int, i: nat)
    requires StoreInv(s) && Home(s, b) && Gets(s.bufs, b, i) && bufs' == Got(s.bufs, b, i)
    ensures |bufs'| == NBUF && Unique(bufs') && OnlyRootUsed(bufs')
    ensures forall c :: 0 <= c < |s.disk| ==> Content(s.disk, bufs', c) == Content(s.disk, s.bufs, c)
    ensures forall c :: RefCount(bufs', c) == RefCount(s.bufs, c) + if c == b then 1 else 0
  {
    if Tagged(s.bufs[i], b) {
      ContentOf(s.disk, s.bufs, i);
      UpdateContent(s.disk, s.bufs, bufs', i);
    } else {
      IdleIsClean(s);
      RecycleContent(s.disk, s.bufs, bufs', i, b);
    }
  }

  lemma StoreBget(s: Sys, p: nat, b: int, i: nat)
    requires StoreInv(s) && Enabled(s, Bget(p, b, i))
    ensures StoreInv(DoBget(s, p, b, i))
  {
    var t := DoBget(s, p, b, i);
    GotKeeps(s, t.bufs, b, i);
    forall c ensures Total(t.procs, PointsTo(c)) == Total(s.procs, PointsTo(c)) + if c == b then 1 else 0 {
      TotalUpdate(s.procs, PointsTo(c), p, t.procs[p]);
    }
    StoreBgetPtr(s, p, b, i);
  }

  // A recycled buffer had no pointer to it.
  lemma StoreBgetPtr(s: Sys, p: nat, b: int, i: nat)
    requires StoreInv(s) && Enabled(s, Bget(p, b, i))
    ensures PtrInv(DoBget(s, p, b, i))
  {
    var t := DoBget(s, p, b, i);
    forall q, c | 0 <= q < |t.procs| && c in t.procs[q].ptr ensures PtrOk(t, t.procs[q].ptr[c], c) {
      if q != p || c != b {
        assert c in s.procs[q].ptr && t.procs[q].ptr[c] == s.procs[q].ptr[c];
        assert PtrOk(s, s.procs[q].ptr[c], c);
        if s.procs[q].ptr[c] == i && !Tagged(s.bufs[i], b) {
          OnlyTagged(s.bufs, i);
          NoPointer(s, c, q);
        }
      } else {
        assert PtrOk(t, i, b);
      }
    }
  }

  // ----- The other steps, cache part -----

  // A process changes nothing but its operation: every count of pointers stays.
  lemma SamePointers(s: Sys, p: nat, x: Proc)
    requires p < |s.procs| && x.ptr == s.procs[p].ptr
    ensures forall b :: Total(s.procs[p := x], PointsTo(b)) == Total(s.procs, PointsTo(b))
  {
    forall b ensures Total(s.procs[p := x], PointsTo(b)) == Total(s.procs, PointsTo(b)) {
      TotalUpdate(s.procs, PointsTo(b), p, x);
    }
  }

  // Pointers stay good when buffers keep their tags.
  lemma PtrKept(s: Sys, t: Sys)
    requires PtrInv(s) && t.start == s.start && |t.disk| == |s.disk| && t.held == s.held
    requires |t.bufs| == |s.bufs| && |t.procs| == |s.procs|
    requires forall i :: 0 <= i < |s.bufs| && s.bufs[i].dev == ROOTDEV && s.bufs[i].refcnt > 0 ==>
               t.bufs[i].dev == ROOTDEV && t.bufs[i].blockno == s.bufs[i].blockno
    requires forall p :: 0 <= p < |s.procs| ==> t.procs[p].ptr == s.procs[p].ptr
    requires CacheInv(s)
    ensures PtrInv(t)
  {
    forall p, b | 0 <= p < |t.procs| && b in t.procs[p].ptr ensures PtrOk(t, t.procs[p].ptr[b], b) {
      assert b in s.procs[p].ptr && PtrOk(s, s.procs[p].ptr[b], b);
      OnlyTagged(s.bufs, s.procs[p].ptr[b]);
      TotalBounds(s.procs, PointsTo(b));
    }
  }

  // One process uses its pointer to change its buffer: what becomes of counts and contents.
  lemma BufferStep(s: Sys, t: Sys, p: nat, b: int)
    requires StoreInv(s) && p < |s.procs| && b in s.procs[p].ptr
    requires var i := s.procs[p].ptr[b];
             && |t.bufs| == |s.bufs| && (i < |s.bufs| ==> t.bufs == s.bufs[i := t.bufs[i]])
             && (i < |s.bufs| ==> t.bufs[i].dev == s.bufs[i].dev && t.bufs[i].blockno == s.bufs[i].blockno)
    ensures var i := s.procs[p].ptr[b];
            && PtrOk(s, i, b) && Unique(t.bufs) && OnlyRootUsed(t.bufs)
            && s.mem[b] == (if s.bufs[i].valid then s.bufs[i].data else s.disk[b])
            && RefCount(s.bufs, b) == s.bufs[i].refcnt
            && (forall c :: 0 <= c < |s.disk| ==>
                  Content(s.disk, t.bufs, c) ==
                  if c != b then s.mem[c] else if t.bufs[i].valid then t.bufs[i].data else s.disk[b])
            && (forall c :: RefCount(t.bufs, c) == if c == b then t.bufs[i].refcnt else RefCount(s.bufs, c))
  {
    var i := s.procs[p].ptr[b];
    assert PtrOk(s, i, b);
    ContentOf(s.disk, s.bufs, i);
    UpdateContent(s.disk, s.bufs, t.bufs, i);
  }

  lemma StoreFill(s: Sys, p: nat, b: int)
    requires StoreInv(s) && Enabled(s, Fill(p, b))
    ensures StoreInv(DoFill(s, p, b))
  {
    BufferStep(s, DoFill(s, p, b), p, b);
    PtrKept(s, DoFill(s, p, b));
  }

  lemma StoreModify(s: Sys, p: nat, b: int, data: Block)
    requires StoreInv(s) && Enabled(s, Modify(p, b, data))
    ensures StoreInv(DoModify(s, p, b, data))
  {
    BufferStep(s, DoModify(s, p, b, data), p, b);
    PtrKept(s, DoModify(s, p, b, data));
  }

  // log_write of a block that the header has already.
  lemma StoreAbsorb(s: Sys, p: nat, b: int)
    requires StoreInv(s) && Enabled(s, LogWrite(p, b)) && !s.phase.Installing? && b in s.lh
    ensures StoreInv(DoLogWrite(s, p, b))
  {
    PtrKept(s, DoLogWrite(s, p, b));
  }

  // log_write of a new block pins its buffer.
  lemma StoreAppend(s: Sys, p: nat, b: int)
    requires StoreInv(s) && Enabled(s, LogWrite(p, b)) && !s.phase.Installing? && b !in s.lh
    ensures StoreInv(DoLogWrite(s, p, b))
  {
    var t := DoLogWrite(s, p, b);
    BufferStep(s, t, p, b);
    PtrKept(s, t);
    SamePointers(s, p, t.procs[p]);
    assert forall c :: c in Pins(t) <==> c == b || c in Pins(s);
  }

  lemma StoreBrelse(s: Sys, p: nat, b: int)
    requires StoreInv(s) && Enabled(s, Brelse(p, b))
    ensures StoreInv(DoBrelse(s, p, b))
  {
    var t := DoBrelse(s, p, b);
    BufferStep(s, t, p, b);
    forall c ensures Total(t.procs, PointsTo(c)) == Total(s.procs, PointsTo(c)) - if c == b then 1 else 0 {
      TotalUpdate(s.procs, PointsTo(c), p, t.procs[p]);
    }
    assert CacheInv(t) && MemInv(t);
    BrelsePtrs(s, p, b);
  }

  lemma BrelsePtrs(s: Sys, p: nat, b: int)
    requires StoreInv(s) && Enabled(s, Brelse(p, b))
    ensures PtrInv(DoBrelse(s, p, b))
  {
    var t := DoBrelse(s, p, b);
    forall q, c | 0 <= q < |t.procs| && c in t.procs[q].ptr ensures PtrOk(t, t.procs[q].ptr[c], c) {
      assert c in s.procs[q].ptr && PtrOk(s, s.procs[q].ptr[c], c);
    }
  }

  lemma StoreBeginOp(s: Sys, p: nat)
    requires StoreInv(s) && Enabled(s, BeginOp(p))
    ensures StoreInv(DoBeginOp(s, p))
  {
    SamePointers(s, p, DoBeginOp(s, p).procs[p]);
  }

  lemma StoreEndOp(s: Sys, p: nat)
    requires StoreInv(s) && Enabled(s, EndOp(p)) && s.phase.Idle?
    ensures StoreInv(DoEndOp(s, p))
  {
    var t := DoEndOp(s, p);
    SamePointers(s, p, t.procs[p]);
    PtrKept(s, t);
    assert t.procs == s.procs[p := t.procs[p]] && Pins(t) == Pins(s);
  }

  // ----- The committing process, cache part -----

  // A write by the committer through buffer i: block b gets u's data in the cache, on disk and in memory.
  lemma CommitterStep(s: Sys, t: Sys, mid: seq<Buf>, i: nat, u: Buf, b: nat)
    requires StoreInv(s) && |mid| == NBUF && Unique(mid) && OnlyRootUsed(mid)
    requires forall j :: 0 <= j < NBUF && mid[j].dev == ROOTDEV ==> mid[j].blockno < |s.disk|
    requires forall c :: 0 <= c < |s.disk| ==> Content(s.disk, mid, c) == Content(s.disk, s.bufs, c)
    requires forall c :: RefCount(mid, c) == RefCount(s.bufs, c)
    requires b < |s.disk| && i < NBUF && Tagged(mid[i], b) && Caches(u, b) && t.bufs == mid[i := u]
    requires t.disk == s.disk[b := u.data] && t.mem == s.mem[b := u.data]
    requires t.procs == s.procs && t.unlogged == s.unlogged
    requires forall c :: c in Pins(s) && c !in Pins(t) ==> c == b
    requires forall c :: c in Pins(t) ==> c in Pins(s)
    requires u.refcnt == Total(s.procs, PointsTo(b)) + if b in Pins(t) then 1 else 0
    ensures CacheInv(t) && MemInv(t)
  {
    WriteThrough(s.disk, t.disk, mid, t.bufs, i);
    forall c ensures RefCount(t.bufs, c) == Total(t.procs, PointsTo(c)) + if c in Pins(t) then 1 else 0 {
      assert c != b ==> RefCount(mid, c) == RefCount(s.bufs, c);
    }
    assert OnlyRootUsed(t.bufs);
    forall c | 0 <= c < |t.disk| ensures t.mem[c] == Content(t.disk, t.bufs, c) {
      assert c != b ==> Content(s.disk, mid, c) == Content(s.disk, s.bufs, c);
    }
  }

  // Writing a log block or the header.
  lemma StoreLogBlock(s: Sys, t: Sys, i: nat, b: nat, x: Block)
    requires StoreInv(s) && b < |s.disk| && InLog(s.start, b) && Gets(s.bufs, b, i)
    requires Loggable(s.start, |s.disk|, s.lh)
    requires var mid := Loaded(s.disk, s.bufs, b, i); t.bufs == mid[i := mid[i].(data := x)]
    requires t.disk == s.disk[b := x] && t.mem == s.mem[b := x] && t.start == s.start
    requires t.procs == s.procs && t.held == s.held && t.unlogged == s.unlogged
    requires forall c :: c in Pins(t) <==> c in Pins(s)
    ensures StoreInv(t)
  {
    var mid := Loaded(s.disk, s.bufs, b, i);
    IdleIsClean(s);
    LoadedKeeps(s.disk, s.bufs, mid, b, i);
    OnlyTagged(mid, i);
    assert RefCount(s.bufs, b) == mid[i].refcnt;
    CommitterStep(s, t, mid, i, mid[i].(data := x), b);
    PtrKept(s, t);
  }

  // Reading the log block does not disturb the pinned buffer that is to be installed.
  lemma InstallRead(s: Sys, mid: seq<Buf>, l: nat, d: nat)
    requires StoreInv(s) && LogInv(s) && Enabled(s, InstallOne(l, d))
    requires mid == Loaded(s.disk, s.bufs, s.start + 1 + s.phase.k, l)
    ensures |mid| == NBUF && Unique(mid) && OnlyRootUsed(mid) && mid[d] == s.bufs[d]
    ensures forall j :: 0 <= j < NBUF && mid[j].dev == ROOTDEV ==> mid[j].blockno < |s.disk|
    ensures forall c :: 0 <= c < |s.disk| ==> Content(s.disk, mid, c) == Content(s.disk, s.bufs, c)
    ensures forall c :: RefCount(mid, c) == RefCount(s.bufs, c)
    ensures forall j :: 0 <= j < NBUF && s.bufs[j].dev == ROOTDEV && s.bufs[j].refcnt > 0 ==>
              mid[j].dev == ROOTDEV && mid[j].blockno == s.bufs[j].blockno
    ensures mid[l].data == s.mem[s.start + 1 + s.phase.k]
  {
    var lb := s.start + 1 + s.phase.k;
    assert InLog(s.start, lb);
    IdleIsClean(s);
    LoadedKeeps(s.disk, s.bufs, mid, lb, l);
  }

  lemma InstallEffect(s: Sys, mid: seq<Buf>, l: nat, d: nat)
    requires Enabled(s, InstallOne(l, d)) && |s.mem| == |s.disk|
    requires mid == Loaded(s.disk, s.bufs, s.start + 1 + s.phase.k, l)
    ensures var t, b := DoInstallOne(s, l, d), s.lh[s.phase.k];
            && t.bufs == mid[d := Bio.Buf(ROOTDEV, b, true, s.bufs[d].refcnt - 1, mid[l].data)]
            && t.disk == s.disk[b := mid[l].data] && t.mem == s.mem[b := mid[l].data]
  {
  }

  // Installing block k of the header and dropping its pin.
  lemma StoreInstallOne(s: Sys, l: nat, d: nat)
    requires StoreInv(s) && LogInv(s) && Enabled(s, InstallOne(l, d))
    ensures StoreInv(DoInstallOne(s, l, d))
  {
    var t := DoInstallOne(s, l, d);
    var k := s.phase.k;
    var mid := Loaded(s.disk, s.bufs, s.start + 1 + k, l);
    InstallEffect(s, mid, l, d);
    InstallRead(s, mid, l, d);
    PtrKept(s, t);
    OnlyTagged(s.bufs, d);
    InstallPins(s, t);
    CommitterStep(s, t, mid, d, Bio.Buf(ROOTDEV, s.lh[k], true, s.bufs[d].refcnt - 1, mid[l].data), s.lh[k]);
  }

  lemma InstallPins(s: Sys, t: Sys)
    requires s.phase.Installing? && s.phase.k < |s.lh| && Loggable(s.start, |s.disk|, s.lh)
    requires t.phase == Installing(s.phase.k + 1) && t.lh == s.lh
    ensures s.lh[s.phase.k] in Pins(s) && s.lh[s.phase.k] !in Pins(t)
    ensures forall c :: c in Pins(s) && c !in Pins(t) ==> c == s.lh[s.phase.k]
    ensures forall c :: c in Pins(t) ==> c in Pins(s)
  {
    TailStep(s.lh, s.phase.k);
  }

  lemma TailStep(lh: seq<int>, k: nat)
    requires k < |lh| && forall i, j :: 0 <= i < j < |lh| ==> lh[i] != lh[j]
    ensures lh[k] in lh[k..] && lh[k] !in lh[k + 1..]
    ensures forall c :: c in lh[k..] <==> c == lh[k] || c in lh[k + 1..]
  {
    assert lh[k..] == [lh[k]] + lh[k + 1..];
  }

  lemma StoreStep(s: Sys, step: Step)
    requires StoreInv(s) && LogInv(s) && Enabled(s, step)
    ensures StoreInv(Do(s, step))
  {
    match step
    case BeginOp(p) => StoreBeginOp(s, p);
    case Bget(p, b, i) => StoreBget(s, p, b, i);
    case Lock(p, b) => StoreLock(s, p, b);
    case Fill(p, b) => StoreFill(s, p, b);
    case Modify(p, b, data) => StoreModify(s, p, b, data);
    case LogWrite(p, b) =>
      ActiveMeansIdle(s, p);
      if b in s.lh { StoreAbsorb(s, p, b); } else { StoreAppend(s, p, b); }
    case Brelse(p, b) => StoreBrelse(s, p, b);
    case EndOp(p) => StoreEndOp(s, p);
    case _ => StoreCommitStep(s, step);
  }

  predicate OfCommit(step: Step) {
    step.CopyToLog? || step.WriteHead? || step.InstallOne? || step.ClearHead? || step.FinishCommit?
  }

  lemma StoreCommitStep(s: Sys, step: Step)
    requires StoreInv(s) && LogInv(s) && Enabled(s, step) && OfCommit(step)
    ensures StoreInv(Do(s, step))
  {
    match step
    case CopyToLog(to, from) => StoreCopy(s, to, from);
    case WriteHead(h) => StoreHead(s, Do(s, step), h, s.lh);
    case InstallOne(l, d) => StoreInstallOne(s, l, d);
    case ClearHead(h) => StoreHead(s, Do(s, step), h, []);
    case FinishCommit => PtrKept(s, Do(s, step));
  }

  lemma StoreLock(s: Sys, p: nat, b: int)
    requires StoreInv(s) && Enabled(s, Lock(p, b))
    ensures StoreInv(Do(s, Lock(p, b)))
  {
    var t := Do(s, Lock(p, b));
    forall q, c | 0 <= q < |t.procs| && c in t.procs[q].ptr ensures PtrOk(t, t.procs[q].ptr[c], c) {
      assert PtrOk(s, s.procs[q].ptr[c], c);
    }
  }

  lemma StoreCopy(s: Sys, to: nat, from: nat)
    requires StoreInv(s) && LogInv(s) && Enabled(s, CopyToLog(to, from))
    ensures StoreInv(DoCopyToLog(s, to, from))
  {
    var t := DoCopyToLog(s, to, from);
    var l := s.start + 1 + s.phase.k;
    assert InLog(s.start, l);
    StoreLogBlock(s, t, to, l, t.disk[l]);
  }

  // write_head by the committer.
  lemma StoreHead(s: Sys, t: Sys, h: nat, lh: seq<int>)
    requires StoreInv(s) && LogInv(s) && Gets(s.bufs, s.start, h) && |lh| <= LOGBLOCKS
    requires var u := Head(s, h, lh);
             t.bufs == u.bufs && t.disk == u.disk && t.mem == u.mem && t.start == s.start
    requires t.procs == s.procs && t.held == s.held && t.unlogged == s.unlogged
    requires forall c :: c in Pins(t) <==> c in Pins(s)
    ensures StoreInv(t)
  {
    assert InLog(s.start, s.start);
    StoreLogBlock(s, t, h, s.start, t.disk[s.start]);
  }

  // Nobody is in an operation while a commit runs.
  lemma ActiveMeansIdle(s: Sys, p: nat)
    requires LogInv(s) && p < |s.procs| && s.procs[p].op.Some?
    ensures s.phase.Idle? && s.outstanding > 0 && !s.committing
  {
    TotalBounds(s.procs, Active());
  }

  // ----- Header, counters and log blocks -----

  // Steps that leave all of that alone.
  lemma LogKept(s: Sys, t: Sys)
    requires LogInv(s) && t.start == s.start && t.disk == s.disk && t.lh == s.lh && t.phase == s.phase
    requires t.outstanding == s.outstanding && t.committing == s.committing && t.current == s.current
    requires |t.mem| == |s.mem| && (!s.phase.Idle? ==> t.mem == s.mem)
    requires Total(t.procs, Active()) == Total(s.procs, Active())
    requires Total(t.procs, Budget()) == Total(s.procs, Budget())
    ensures LogInv(t)
  {
  }

  // What one process contributes to the two totals.
  lemma Totals(s: Sys, p: nat, x: Proc)
    requires p < |s.procs|
    ensures Total(s.procs[p := x], Active()) == Total(s.procs, Active()) - Active()(s.procs[p]) + Active()(x)
    ensures Total(s.procs[p := x], Budget()) == Total(s.procs, Budget()) - Budget()(s.procs[p]) + Budget()(x)
  {
    TotalUpdate(s.procs, Active(), p, x);
    TotalUpdate(s.procs, Budget(), p, x);
  }

  lemma {:induction false} BudgetBound(procs: seq<Proc>)
    ensures 0 <= Total(procs, Budget()) <= MAXOPBLOCKS * Total(procs, Active())
  {
    if procs != [] {
      BudgetBound(procs[..|procs| - 1]);
    }
  }

  lemma LogBeginOp(s: Sys, p: nat)
    requires LogInv(s) && Enabled(s, BeginOp(p))
    ensures LogInv(DoBeginOp(s, p))
  {
    Totals(s, p, DoBeginOp(s, p).procs[p]);
    BudgetBound(s.procs);
  }

  lemma LogLogWrite(s: Sys, p: nat, b: int)
    requires LogInv(s) && Enabled(s, LogWrite(p, b))
    ensures LogInv(DoLogWrite(s, p, b))
    ensures |s.lh| < LOGBLOCKS && s.outstanding >= 1
  {
    var t := DoLogWrite(s, p, b);
    ActiveMeansIdle(s, p);
    TotalBounds(s.procs, Budget());
    if b !in s.lh {
      Totals(s, p, t.procs[p]);
    }
  }

  lemma LogEndOp(s: Sys, p: nat)
    requires LogInv(s) && HistInv(s) && Enabled(s, EndOp(p))
    ensures LogInv(DoEndOp(s, p))
  {
    Totals(s, p, DoEndOp(s, p).procs[p]);
  }

  // The block copied to the log is the one in memory.
  lemma CopyEffect(s: Sys, to: nat, from: nat)
    requires StoreInv(s) && Enabled(s, CopyToLog(to, from))
    ensures var t, l, x := DoCopyToLog(s, to, from), s.start + 1 + s.phase.k, s.mem[s.lh[s.phase.k]];
            t.disk == s.disk[l := x] && t.mem == s.mem[l := x]
  {
    ContentOf(s.disk, s.bufs, from);
  }

  lemma LogCopy(s: Sys, to: nat, from: nat)
    requires StoreInv(s) && LogInv(s) && Enabled(s, CopyToLog(to, from))
    ensures LogInv(DoCopyToLog(s, to, from))
  {
    CopyEffect(s, to, from);
    LogCopied(s, DoCopyToLog(s, to, from));
  }

  lemma LogCopied(s: Sys, t: Sys)
    requires LogInv(s) && s.phase.Logging? && s.phase.k < |s.lh|
    requires var k := s.phase.k;
             && t == s.(bufs := t.bufs, disk := s.disk[s.start + 1 + k := s.mem[s.lh[k]]],
                        mem := s.mem[s.start + 1 + k := s.mem[s.lh[k]]], phase := Logging(k + 1))
    ensures LogInv(t)
  {
    var k := s.phase.k;
    assert InLog(s.start, s.start + 1 + k);
    forall i {:trigger t.lh[i]} | 0 <= i < k + 1 ensures t.disk[s.start + 1 + i] == t.mem[t.lh[i]] {
      assert !InLog(s.start, s.lh[i]);
    }
  }

  // The header on disk is what write_head makes of the header that was there.
  lemma HeadEffect(s: Sys, h: nat, lh: seq<int>)
    requires StoreInv(s) && LogInv(s) && Gets(s.bufs, s.start, h) && |lh| <= LOGBLOCKS && s.start !in Pins(s)
    ensures var t, x := Head(s, h, lh), PutHeader(s.disk[s.start], lh);
            t.disk == s.disk[s.start := x] && t.mem == s.mem[s.start := x]
  {
    var mid := Loaded(s.disk, s.bufs, s.start, h);
    IdleIsClean(s);
    LoadedKeeps(s.disk, s.bufs, mid, s.start, h);
    UnloggedHome(s);
    assert InLog(s.start, s.start);
    assert s.mem[s.start] == s.disk[s.start] && mid[h].data == s.disk[s.start];
  }

  lemma UnloggedHome(s: Sys)
    requires PtrInv(s) && UnloggedInv(s)
    ensures forall b :: b in s.unlogged ==> Home(s, b)
  {
    forall b | b in s.unlogged ensures Home(s, b) {
      assert PtrOk(s, s.procs[s.held[b]].ptr[b], b);
    }
  }

  // The commit point.
  lemma LogWriteHead(s: Sys, h: nat)
    requires StoreInv(s) && LogInv(s) && Enabled(s, WriteHead(h))
    ensures LogInv(DoWriteHead(s, h))
  {
    assert InLog(s.start, s.start);
    HeadEffect(s, h, s.lh);
    LogHeaded(s, DoWriteHead(s, h));
  }

  lemma LogHeaded(s: Sys, t: Sys)
    requires LogInv(s) && s.phase == Logging(|s.lh|)
    requires var x := PutHeader(s.disk[s.start], s.lh);
             && t == s.(bufs := t.bufs, disk := s.disk[s.start := x], mem := s.mem[s.start := x],
                        phase := Installing(0), groups := t.groups, current := [])
    ensures LogInv(t)
  {
    assert InLog(s.start, s.start);
    forall i {:trigger t.lh[i]} | 0 <= i < |t.lh| ensures t.disk[t.start + 1 + i] == t.mem[t.lh[i]] {
      assert !InLog(s.start, s.lh[i]);
    }
  }

  lemma LogClearHead(s: Sys, h: nat)
    requires StoreInv(s) && LogInv(s) && Enabled(s, ClearHead(h))
    ensures LogInv(Do(s, ClearHead(h)))
  {
    HeadEffect(s, h, []);
    var t := Do(s, ClearHead(h));
    assert t.disk == s.disk[s.start := PutHeader(s.disk[s.start], [])];
  }

  // An installed block is the one in memory, so memory does not change.
  lemma InstallSame(s: Sys, l: nat, d: nat)
    requires StoreInv(s) && LogInv(s) && Enabled(s, InstallOne(l, d))
    ensures var t, b := DoInstallOne(s, l, d), s.lh[s.phase.k];
            t.mem == s.mem && t.disk == s.disk[b := s.mem[b]]
  {
    var k := s.phase.k;
    var mid := Loaded(s.disk, s.bufs, s.start + 1 + k, l);
    InstallEffect(s, mid, l, d);
    InstallRead(s, mid, l, d);
    LogBlockClean(s, k);
  }

  // The log blocks read the same in the cache and on disk.
  lemma LogBlockClean(s: Sys, k: nat)
    requires StoreInv(s) && LogInv(s) && k < LOGBLOCKS
    ensures s.mem[s.start + 1 + k] == s.disk[s.start + 1 + k]
  {
    UnloggedHome(s);
    assert InLog(s.start, s.start + 1 + k);
  }

  lemma LogInstallOne(s: Sys, l: nat, d: nat)
    requires StoreInv(s) && LogInv(s) && Enabled(s, InstallOne(l, d))
    ensures LogInv(DoInstallOne(s, l, d))
  {
    InstallSame(s, l, d);
    LogInstalled(s, DoInstallOne(s, l, d));
  }

  lemma LogInstalled(s: Sys, t: Sys)
    requires LogInv(s) && s.phase.Installing? && s.phase.k < |s.lh|
    requires var b := s.lh[s.phase.k];
             t == s.(bufs := t.bufs, disk := s.disk[b := s.mem[b]], phase := Installing(s.phase.k + 1))
    ensures LogInv(t)
  {
    var b := s.lh[s.phase.k];
    assert InLog(s.start, s.start) && !InLog(s.start, b);
    forall i {:trigger t.lh[i]} | 0 <= i < |t.lh| ensures t.disk[t.start + 1 + i] == t.mem[t.lh[i]] {
      assert InLog(s.start, s.start + 1 + i);
    }
  }

  lemma LogBget(s: Sys, p: nat, b: int, i: nat)
    requires LogInv(s) && Enabled(s, Bget(p, b, i))
    ensures LogInv(DoBget(s, p, b, i))
  {
    Totals(s, p, DoBget(s, p, b, i).procs[p]);
    LogKept(s, DoBget(s, p, b, i));
  }

  lemma LogBrelse(s: Sys, p: nat, b: int)
    requires LogInv(s) && Enabled(s, Brelse(p, b))
    ensures LogInv(DoBrelse(s, p, b))
  {
    Totals(s, p, DoBrelse(s, p, b).procs[p]);
    LogKept(s, DoBrelse(s, p, b));
  }

  lemma LogModify(s: Sys, p: nat, b: int, data: Block)
    requires LogInv(s) && Enabled(s, Modify(p, b, data))
    ensures LogInv(DoModify(s, p, b, data))
  {
    ActiveMeansIdle(s, p);
    LogKept(s, DoModify(s, p, b, data));
  }

  lemma LogStep(s: Sys, step: Step)
    requires StoreInv(s) && LogInv(s) && HistInv(s) && Enabled(s, step)
    ensures LogInv(Do(s, step))
  {
    match step
    case BeginOp(p) => LogBeginOp(s, p);
    case Bget(p, b, i) => LogBget(s, p, b, i);
    case Lock(p, b) => LogKept(s, Do(s, step));
    case Fill(p, b) => LogKept(s, DoFill(s, p, b));
    case Modify(p, b, data) => LogModify(s, p, b, data);
    case LogWrite(p, b) => LogLogWrite(s, p, b);
    case Brelse(p, b) => LogBrelse(s, p, b);
    case EndOp(p) => LogEndOp(s, p);
    case CopyToLog(to, from) => LogCopy(s, to, from);
    case WriteHead(h) => LogWriteHead(s, h);
    case InstallOne(l, d) => LogInstallOne(s, l, d);
    case ClearHead(h) => LogClearHead(s, h);
    case FinishCommit =>
  }

  // ----- History -----

  lemma ApplyOne(d: seq<Block>, ws: seq<Write>, w: Write)
    ensures Apply(d, ws + [w]) == Put(Apply(d, ws), w.block, w.data)
  {
    assert (ws + [w])[..|ws|] == ws;
  }

  lemma {:induction false} ApplyElsewhere(d: seq<Block>, ws: seq<Write>, b: nat)
    requires b < |d| && forall w :: w in ws ==> w.block != b
    ensures Apply(d, ws)[b] == d[b]
  {
    if ws != [] {
      assert forall w :: w in ws[..|ws| - 1] ==> w in ws;
      assert ws[|ws| - 1] in ws;
      ApplyElsewhere(d, ws[..|ws| - 1], b);
    }
  }

  lemma ApplyGroup(d: seq<Block>, gs: seq<seq<Write>>, ws: seq<Write>)
    ensures ApplyGroups(d, gs + [ws]) == Apply(ApplyGroups(d, gs), ws)
  {
    assert (gs + [ws])[..|gs|] == gs;
  }

  // Outside an operation nothing is half-written.
  lemma QuietUnlogged(s: Sys)
    requires UnloggedInv(s) && LogInv(s) && s.outstanding == 0
    ensures s.unlogged == {}
  {
    forall b ensures b !in s.unlogged {
      if b in s.unlogged {
        assert Active()(s.procs[s.held[b]]) == 1;
        TotalBounds(s.procs, Active());
      }
    }
  }

  lemma HistLogWrite(s: Sys, p: nat, b: int)
    requires StoreInv(s) && LogInv(s) && HistInv(s) && Enabled(s, LogWrite(p, b))
    ensures HistInv(DoLogWrite(s, p, b))
  {
    var t := DoLogWrite(s, p, b);
    var w := Write(s.procs[p].op.value, b, s.bufs[s.procs[p].ptr[b]].data);
    ActiveMeansIdle(s, p);
    assert PtrOk(s, s.procs[p].ptr[b], b);
    ContentOf(s.disk, s.bufs, s.procs[p].ptr[b]);
    assert Durable(t) == Durable(s);
    ApplyOne(Durable(s), s.current, w);
    assert Latest(t) == Put(Latest(s), b, s.mem[b]);
  }

  // Closing a group: the current writes join the durable ones.
  lemma HistClose(s: Sys, t: Sys)
    requires StoreInv(s) && LogInv(s) && HistInv(s) && !s.phase.Installing?
    requires t.start == s.start && t.base == s.base && t.lh == s.lh && t.unlogged == s.unlogged
    requires t.groups == s.groups + [s.current] && t.current == []
    requires SameHome(s.start, t.disk, s.disk) && SameHome(s.start, t.mem, s.mem)
    requires t.phase.Installing? || s.lh == []
    ensures HistInv(t)
  {
    ApplyGroup(s.base, s.groups, s.current);
    assert Durable(t) == Latest(s) && Latest(t) == Durable(t);
    forall b | Home(t, b) && b !in t.lh ensures t.disk[b] == Durable(t)[b] {
      assert Home(s, b);
      ApplyElsewhere(Durable(s), s.current, b);
    }
  }

  // Writes by the committer outside the home blocks.
  lemma HistLogBlock(s: Sys, t: Sys)
    requires HistInv(s) && t.start == s.start && t.base == s.base && t.lh == s.lh && t.unlogged == s.unlogged
    requires t.groups == s.groups && t.current == s.current && t.phase.Installing? == s.phase.Installing?
    requires SameHome(s.start, t.disk, s.disk) && SameHome(s.start, t.mem, s.mem)
    ensures HistInv(t)
  {
    assert Latest(t) == Latest(s) && Durable(t) == Durable(s);
    forall b | Home(t, b) ensures t.mem[b] == s.mem[b] && t.disk[b] == s.disk[b] {
      assert Home(s, b);
    }
  }

  lemma HistWriteHead(s: Sys, h: nat)
    requires StoreInv(s) && LogInv(s) && HistInv(s) && Enabled(s, WriteHead(h))
    ensures HistInv(DoWriteHead(s, h))
  {
    assert InLog(s.start, s.start);
    HeadEffect(s, h, s.lh);
    HistClose(s, DoWriteHead(s, h));
  }

  lemma HistCopy(s: Sys, to: nat, from: nat)
    requires StoreInv(s) && LogInv(s) && HistInv(s) && Enabled(s, CopyToLog(to, from))
    ensures HistInv(DoCopyToLog(s, to, from))
  {
    assert InLog(s.start, s.start + 1 + s.phase.k);
    CopyEffect(s, to, from);
    HistLogBlock(s, DoCopyToLog(s, to, from));
  }

  lemma HistInstallOne(s: Sys, l: nat, d: nat)
    requires StoreInv(s) && LogInv(s) && HistInv(s) && Enabled(s, InstallOne(l, d))
    ensures HistInv(DoInstallOne(s, l, d))
  {
    InstallSame(s, l, d);
    var t := DoInstallOne(s, l, d);
    assert Latest(t) == Latest(s) && Durable(t) == Durable(s);
    assert s.lh[s.phase.k] in s.lh;
  }

  lemma HistClearHead(s: Sys, h: nat)
    requires StoreInv(s) && LogInv(s) && HistInv(s) && Enabled(s, ClearHead(h))
    ensures HistInv(Do(s, ClearHead(h)))
  {
    var t := Do(s, ClearHead(h));
    HeadEffect(s, h, []);
    QuietUnlogged(s);
    assert InLog(s.start, s.start);
    assert Latest(t) == Latest(s) && Durable(t) == Durable(s);
    assert t.disk == s.disk[s.start := PutHeader(s.disk[s.start], [])];
    forall b | Home(t, b) ensures t.disk[b] == Durable(t)[b] {
      assert Home(s, b) && b !in Pins(s);
      assert s.mem[b] == s.disk[b];
    }
  }

  lemma HistEndOp(s: Sys, p: nat)
    requires StoreInv(s) && LogInv(s) && HistInv(s) && Enabled(s, EndOp(p))
    ensures HistInv(DoEndOp(s, p))
  {
    ActiveMeansIdle(s, p);
    var t := DoEndOp(s, p);
    if s.outstanding == 1 && s.lh == [] {
      HistClose(s, t);
    } else {
      HistLogBlock(s, t);
    }
  }

  lemma HistModify(s: Sys, p: nat, b: int, data: Block)
    requires StoreInv(s) && LogInv(s) && HistInv(s) && Enabled(s, Modify(p, b, data))
    ensures HistInv(DoModify(s, p, b, data))
  {
    var t := DoModify(s, p, b, data);
    assert Latest(t) == Latest(s) && Durable(t) == Durable(s);
  }

  lemma HistStep(s: Sys, step: Step)
    requires StoreInv(s) && LogInv(s) && HistInv(s) && Enabled(s, step)
    ensures HistInv(Do(s, step))
  {
    match step
    case Modify(p, b, data) => HistModify(s, p, b, data);
    case LogWrite(p, b) => HistLogWrite(s, p, b);
    case EndOp(p) => HistEndOp(s, p);
    case CopyToLog(to, from) => HistCopy(s, to, from);
    case WriteHead(h) => HistWriteHead(s, h);
    case InstallOne(l, d) => HistInstallOne(s, l, d);
    case ClearHead(h) => HistClearHead(s, h);
    case _ => HistLogBlock(s, Do(s, step));
  }

  // ----- Operations and groups -----

  lemma OpLogWrite(s: Sys, p: nat, b: int)
    requires OpInv(s) && Enabled(s, LogWrite(p, b))
    ensures OpInv(DoLogWrite(s, p, b))
  {
  }

  lemma OpEndOp(s: Sys, p: nat)
    requires LogInv(s) && OpInv(s) && Enabled(s, EndOp(p))
    ensures OpInv(DoEndOp(s, p))
  {
    ActiveMeansIdle(s, p);
    if s.outstanding == 1 {
      NobodyElse(s, p);
    }
  }

  // With one operation outstanding, only its process is in an operation.
  lemma NobodyElse(s: Sys, p: nat)
    requires LogInv(s) && p < |s.procs| && s.procs[p].op.Some? && s.outstanding == 1
    ensures forall q :: 0 <= q < |s.procs| && q != p ==> s.procs[q].op.None?
  {
    var procs := s.procs[p := s.procs[p].(op := None)];
    Totals(s, p, procs[p]);
    TotalBounds(procs, Active());
    forall q | 0 <= q < |s.procs| && q != p ensures s.procs[q].op.None? {
      assert procs[q] == s.procs[q];
    }
  }

  lemma NobodyActive(s: Sys)
    requires LogInv(s) && s.committing
    ensures forall q :: 0 <= q < |s.procs| ==> s.procs[q].op.None?
  {
    TotalBounds(s.procs, Active());
  }

  lemma OpBeginOp(s: Sys, p: nat)
    requires LogInv(s) && OpInv(s) && Enabled(s, BeginOp(p))
    ensures OpInv(DoBeginOp(s, p))
  {
  }

  lemma OpStep(s: Sys, step: Step)
    requires LogInv(s) && OpInv(s) && Enabled(s, step)
    ensures OpInv(Do(s, step))
  {
    match step
    case BeginOp(p) => OpBeginOp(s, p);
    case LogWrite(p, b) => OpLogWrite(s, p, b);
    case EndOp(p) => OpEndOp(s, p);
    case WriteHead(h) => NobodyActive(s);
    case FinishCommit => NobodyActive(s);
    case _ =>
  }

  // ----- Main results -----

  lemma InitInv(s: Sys)
    requires Init(s)
    ensures Inv(s)
  {
    forall b ensures Total(s.procs, PointsTo(b)) == 0 {
      TotalZero(s.procs, PointsTo(b));
    }
    TotalZero(s.procs, Active());
    TotalZero(s.procs, Budget());
    forall i | 0 <= i < NBUF ensures forall b :: !Tagged(s.bufs[i], b) {}
  }

  lemma {:induction false} TotalZero(procs: seq<Proc>, f: Proc -> int)
    requires forall p :: 0 <= p < |procs| ==> f(procs[p]) == 0
    ensures Total(procs, f) == 0
  {
    if procs != [] {
      TotalZero(procs[..|procs| - 1], f);
    }
  }

  lemma InvStep(s: Sys, step: Step)
    requires Inv(s) && Enabled(s, step)
    ensures Inv(Do(s, step))
  {
    StoreStep(s, step);
    LogStep(s, step);
    HistStep(s, step);
    OpStep(s, step);
  }

  lemma {:induction false} RunInv(run: seq<Sys>, n: nat)
    requires IsRun(run) && n < |run|
    ensures Inv(run[n])
    decreases n
  {
    if n == 0 {
      InitInv(run[0]);
    } else {
      RunInv(run, n - 1);
      assert Next(run[n - 1], run[n]);
      var step :| Enabled(run[n - 1], step) && run[n] == Do(run[n - 1], step);
      InvStep(run[n - 1], step);
    }
  }

  /** Group commit: cut the power in any state of any run.  Recovery, however often it is itself
      cut short, leaves exactly the effect of a prefix of the commit groups: all whose commit has
      finished, and the one being committed if and only if its header has reached the disk. */
  lemma CrashRecoversGroups(run: seq<Sys>, n: nat, crashes: seq<nat>)
    requires IsRun(run) && n < |run|
    ensures var s := run[n];
            && DiskOk(s.start, s.disk)
            && s.ncommit <= |s.groups| <= s.ncommit + 1
            && (|s.groups| == s.ncommit + 1 ==> s.committing)
            && var r := Recover(s.start, AfterCrashes(s.start, s.disk, crashes));
            && SameHome(s.start, r, ApplyGroups(s.base, s.groups))
            && DiskOk(s.start, r) && LogOf(s.start, r) == []
  {
    var s := run[n];
    RunInv(run, n);
    RecoverDurable(s);
    RecoveryRestarts(s.start, s.disk, crashes);
  }

  lemma RecoverDurable(s: Sys)
    requires Inv(s)
    ensures SameHome(s.start, Recover(s.start, s.disk), Durable(s))
  {
    if s.phase.Installing? {
      RecoverCommitted(s.start, s.disk, s.lh, Durable(s), s.mem);
      QuietUnlogged(s);
      forall b | 0 <= b < |s.disk| && !InLog(s.start, b)
        ensures Merged(Durable(s), s.lh, s.mem)[b] == Durable(s)[b]
      {
        assert Home(s, b) && s.mem[b] == Latest(s)[b] && Latest(s) == Durable(s);
      }
    } else {
      RecoverIdle(s.start, s.disk);
      forall b | 0 <= b < |s.disk| && !InLog(s.start, b) ensures s.disk[b] == Durable(s)[b] {
        assert Home(s, b);
      }
    }
  }

  /** No operation is ever split: all its writes are in the one group it joined at begin_op,
      so every recovered disk has all of them or none. */
  lemma OperationsAreWhole(run: seq<Sys>, n: nat, j: nat, k: nat, w: Write, v: Write)
    requires IsRun(run) && n < |run|
    requires j < |run[n].groups| && w in run[n].groups[j]
    requires (k < |run[n].groups| && v in run[n].groups[k]) || (k == |run[n].groups| && v in run[n].current)
    requires w.op == v.op
    ensures j == k
  {
    RunInv(run, n);
  }

  // Over a run, groups and operations only accumulate.
  ghost predicate Extends(s: Sys, t: Sys) {
    && t.base == s.base && t.start == s.start && s.ncommit <= t.ncommit
    && s.groups <= t.groups && s.groupOf <= t.groupOf && s.ended <= t.ended
  }

  lemma StepExtends(s: Sys, step: Step)
    requires Enabled(s, step)
    ensures Extends(s, Do(s, step))
  {
  }

  lemma {:induction false} RunExtends(run: seq<Sys>, m: nat, n: nat)
    requires IsRun(run) && m <= n < |run|
    ensures Extends(run[m], run[n])
    decreases n
  {
    if m < n {
      RunExtends(run, m, n - 1);
      assert Next(run[n - 1], run[n]);
      var step :| Enabled(run[n - 1], step) && run[n] == Do(run[n - 1], step);
      StepExtends(run[n - 1], step);
    }
  }

  // sys_sync notes this number under log.lock and returns once ncommit has reached it.
  function SyncTarget(s: Sys): nat {
    if s.committing || s.outstanding > 0 then s.ncommit + 1 else s.ncommit
  }

  /** sys_sync: when a call made in state m returns in state n, every operation that had ended by
      state m is in a group whose commit has finished, so it survives every later crash. */
  lemma SyncMakesDurable(run: seq<Sys>, m: nat, n: nat, o: nat)
    requires IsRun(run) && m <= n < |run|
    requires run[n].ncommit >= SyncTarget(run[m])
    requires o in run[m].ended
    ensures o < |run[m].groupOf| <= |run[n].groupOf|
    ensures run[n].groupOf[o] == run[m].groupOf[o] < run[n].ncommit <= |run[n].groups|
  {
    RunInv(run, m);
    RunInv(run, n);
    RunExtends(run, m, n);
  }

  /** Log space: an operation that has added fewer than MAXOPBLOCKS blocks passes both tests of
      log_write, whatever the other operations do. */
  lemma LogNeverFull(run: seq<Sys>, n: nat, p: nat, b: int)
    requires IsRun(run) && n < |run| && Enabled(run[n], LogWrite(p, b))
    ensures |run[n].lh| < LOGBLOCKS && run[n].outstanding >= 1
  {
    RunInv(run, n);
    LogLogWrite(run[n], p, b);
  }

  /** Cache transparency: in every state the cache over the disk reads like a plain memory to which
      each write was applied at once. */
  lemma CacheIsTransparent(run: seq<Sys>, n: nat, b: nat)
    requires IsRun(run) && n < |run| && b < |run[n].disk|
    ensures |run[n].mem| == |run[n].disk| && Content(run[n].disk, run[n].bufs, b) == run[n].mem[b]
    ensures Unique(run[n].bufs)
  {
    RunInv(run, n);
  }

  /** A buffer that differs from the disk is referenced, and is pinned or held by the process that
      is changing it: recycling, which takes unreferenced buffers, never loses a write. */
  lemma DirtyIsPinnedOrHeld(run: seq<Sys>, n: nat, i: nat)
    requires IsRun(run) && n < |run| && i < |run[n].bufs|
    requires run[n].bufs[i].dev == ROOTDEV && run[n].bufs[i].valid
    requires run[n].bufs[i].blockno < |run[n].disk|
    requires run[n].bufs[i].data != run[n].disk[run[n].bufs[i].blockno]
    ensures run[n].bufs[i].refcnt > 0
    ensures run[n].bufs[i].blockno in Pins(run[n]) || run[n].bufs[i].blockno in run[n].held
  {
    RunInv(run, n);
    IdleIsClean(run[n]);
    ContentOf(run[n].disk, run[n].bufs, i);
  }

  /** A pointer that a process got from bget keeps naming its block until brelse. */
  lemma PointersStayGood(run: seq<Sys>, n: nat, p: nat, b: int)
    requires IsRun(run) && n < |run| && p < |run[n].procs| && b in run[n].procs[p].ptr
    ensures PtrOk(run[n], run[n].procs[p].ptr[b], b) && run[n].bufs[run[n].procs[p].ptr[b]].refcnt > 0
  {
    RunInv(run, n);
    var s := run[n];
    assert PtrOk(s, s.procs[p].ptr[b], b);
    OnlyTagged(s.bufs, s.procs[p].ptr[b]);
    TotalBounds(s.procs, PointsTo(b));
  }
}
