/** Sleep locks (kernel/sleeplock.c) as a user of the sleep protocol. */
module SleepLocks {
  import opened Common
  import opened Monitor

  // The channel: the address of the lock.
  const LK := 1

  datatype Lock = Lock(owner: Option<nat>)   // locked and pid; None is locked == 0

  ghost function Blocked(): (Lock, int, nat) -> bool {
    (d: Lock, c: int, q: nat) => c == LK && d.owner.Some?
  }

  // What acquiresleep and releasesleep do with lk->locked.
  predicate Lawful(s: Sys<Lock>, step: Step<Lock>)
    requires Enabled(s, step)
  {
    match step
    case Prepare(p, c) => c == LK && s.data.owner.Some?
    case Update(p, data) => s.data.owner == None && data == Lock(Some(p))
    case StartWake(p, data, c) => c == LK && s.data.owner == Some(p) && data == Lock(None)
    case Background(data) => false
    case _ => true
  }

  ghost predicate IsLockRun(ss: seq<Sys<Lock>>, steps: seq<Step<Lock>>) {
    && |ss| == |steps| + 1 && Init(ss[0])
    && forall i :: 0 <= i < |steps| ==>
         Enabled(ss[i], steps[i]) && Lawful(ss[i], steps[i]) && ss[i + 1] == Do(ss[i], steps[i])
  }

  lemma LockRun(ss: seq<Sys<Lock>>, steps: seq<Step<Lock>>)
    requires IsLockRun(ss, steps)
    ensures IsRun(Blocked(), ss, steps)
  {
    forall i | 0 <= i < |steps| ensures Rule(Blocked(), ss[i], steps[i]) {
      assert Enabled(ss[i], steps[i]) && Lawful(ss[i], steps[i]);
    }
  }

  /** No process is asleep on a free sleep lock. */
  lemma NoSleeperOnFreeLock(ss: seq<Sys<Lock>>, steps: seq<Step<Lock>>, n: nat, q: nat)
    requires IsLockRun(ss, steps) && n < |ss|
    requires ss[n].spin == None && q < |ss[n].procs| && ss[n].procs[q].phase == Asleep
    ensures ss[n].procs[q].chan == LK && ss[n].data.owner.Some?
  {
    LockRun(ss, steps);
    NoLostWakeup(Blocked(), ss, steps, n, q);
  }

  // acquiresleep takes the lock; releasesleep gives it up.
  predicate Takes(step: Step<Lock>, p: nat) {
    step.Update? && step.p == p
  }

  predicate Drops(step: Step<Lock>, p: nat) {
    step.StartWake? && step.p == p
  }

  lemma {:induction false} StillHeld(ss: seq<Sys<Lock>>, steps: seq<Step<Lock>>, i: nat, j: nat, p: nat)
    requires IsLockRun(ss, steps) && i < j <= |steps| && Takes(steps[i], p)
    requires forall k :: i < k < j ==> !Drops(steps[k], p)
    ensures ss[j].data.owner == Some(p)
    decreases j
  {
    var k := j - 1;
    assert Enabled(ss[k], steps[k]) && Lawful(ss[k], steps[k]) && ss[j] == Do(ss[k], steps[k]);
    if k > i {
      StillHeld(ss, steps, i, k, p);
      assert !Drops(steps[k], p);
    }
  }

  /** Mutual exclusion: whoever takes the lock after p took it does so after p has dropped it. */
  lemma MutualExclusion(ss: seq<Sys<Lock>>, steps: seq<Step<Lock>>, i: nat, j: nat, p: nat, q: nat)
    requires IsLockRun(ss, steps) && i < j < |steps| && Takes(steps[i], p) && Takes(steps[j], q)
    ensures exists k :: i < k < j && Drops(steps[k], p)
  {
    assert Lawful(ss[j], steps[j]);
    if forall k :: i < k < j ==> !Drops(steps[k], p) {
      StillHeld(ss, steps, i, j, p);
    }
  }
}

/** begin_op, end_op and sys_sync (kernel/log.c) as users of the sleep protocol. */
module LogWaiters {
  import opened Common
  import opened Monitor
  import L = Log
  import opened Blocks

  // The channel: the address of the log.
  const LOG := 1

  // What a caller of the log waits for.
  datatype Want = Begin | Sync(target: nat)

  datatype Data = Data(n: nat, outstanding: nat, committing: bool, ncommit: nat, want: map<nat, Want>)

  predicate Refused(d: Data, w: Want) {
    match w
    case Begin => !L.MayBegin(d.committing, d.n, d.outstanding)
    case Sync(target) => d.ncommit < target
  }

  ghost function Blocked(): (Data, int, nat) -> bool {
    (d: Data, c: int, q: nat) => c == LOG && q in d.want && Refused(d, d.want[q])
  }

  // The critical sections under log.lock, and commit's clearing of log.lh.n without it.
  predicate Lawful(s: Sys<Data>, step: Step<Data>)
    requires Enabled(s, step)
  {
    var d := s.data;
    match step
    case Prepare(p, c) => c == LOG && p in d.want && Refused(d, d.want[p])
    case Update(p, e) =>
      || e == d.(want := d.want[p := Begin])
      || (e == d.(want := d.want[p := Sync(d.ncommit + 1)]) && (d.committing || d.outstanding > 0))
      || (e == d.(outstanding := d.outstanding + 1) && L.MayBegin(d.committing, d.n, d.outstanding))
      || (e == d.(n := d.n + 1) && d.outstanding > 0 && !d.committing)                                   // log_write
      || (e == d.(outstanding := 0, committing := true) && d.outstanding == 1 && !d.committing)          // last end_op
    case StartWake(p, e, c) =>
      && c == LOG
      && (|| (d.outstanding > 1 && !d.committing && e == d.(outstanding := d.outstanding - 1))           // end_op
          || (e == d.(committing := false, ncommit := d.ncommit + 1) && d.committing
              && d.n == 0))       // after commit()
    case Background(e) => e == d.(n := 0) && d.committing
    case _ => true
  }

  // A log that is neither committing nor in use is empty, and a pending sync has work to wait for.
  predicate DataOk(d: Data) {
    && (d.committing ==> d.outstanding == 0)
    && (!d.committing && d.outstanding == 0 ==> d.n == 0)
    && (forall q :: q in d.want && d.want[q].Sync? && d.ncommit < d.want[q].target ==>
          d.want[q].target == d.ncommit + 1 && (d.committing || d.outstanding > 0))
  }

  ghost predicate IsLogRun(ss: seq<Sys<Data>>, steps: seq<Step<Data>>) {
    && |ss| == |steps| + 1 && Init(ss[0]) && ss[0].data == Data(0, 0, false, 0, map[])
    && forall i :: 0 <= i < |steps| ==>
         Enabled(ss[i], steps[i]) && Lawful(ss[i], steps[i]) && ss[i + 1] == Do(ss[i], steps[i])
  }

  lemma LawfulKeeps(s: Sys<Data>, step: Step<Data>)
    requires Enabled(s, step) && Lawful(s, step) && DataOk(s.data)
    ensures Rule(Blocked(), s, step) && DataOk(Do(s, step).data)
  {
  }

  lemma {:induction false} LogRun(ss: seq<Sys<Data>>, steps: seq<Step<Data>>, n: nat)
    requires IsLogRun(ss, steps) && n < |ss|
    ensures DataOk(ss[n].data) && forall i :: 0 <= i < n ==> Rule(Blocked(), ss[i], steps[i])
    decreases n
  {
    if n > 0 {
      LogRun(ss, steps, n - 1);
      LawfulKeeps(ss[n - 1], steps[n - 1]);
    }
  }

  /** Whenever log.lock is free, a process asleep in begin_op faces a commit or a reservation test
      that fails, a process asleep in sys_sync waits for the very next commit, and in both cases
      the log is not idle: a commit runs or an operation is active. */
  lemma SleepersFaceBusyLog(ss: seq<Sys<Data>>, steps: seq<Step<Data>>, n: nat, q: nat)
    requires IsLogRun(ss, steps) && n < |ss|
    requires ss[n].spin == None && q < |ss[n].procs| && ss[n].procs[q].phase == Asleep
    ensures q in ss[n].data.want
    ensures var d := ss[n].data;
            match d.want[q]
            case Begin => d.committing || d.n + (d.outstanding + 1) * MAXOPBLOCKS > LOGBLOCKS
            case Sync(target) => target == d.ncommit + 1
    ensures ss[n].data.committing || ss[n].data.outstanding > 0
  {
    LogRun(ss, steps, |steps|);
    LogRun(ss, steps, n);
    NoLostWakeup(Blocked(), ss, steps, n, q);
  }
}

/** pipewrite, piperead and pipeclose (kernel/pipe.c) under pi->lock, as users of the sleep protocol. */
module PipeWaiters {
  import opened Common
  import opened Monitor
  import P = Pipe

  // The channels: the addresses of pi->nread, on which readers sleep, and of pi->nwrite.
  const NREAD := 1
  const NWRITE := 2

  // The bytes in transit and the open ends.  `owes` is a writer that has put bytes and not yet woken the readers,
  // `drew` a reader that has taken bytes and not yet woken the writers, both inside their critical section; `cut`
  // says that a writer was killed while it owed a wakeup, and that nobody has woken the readers since.
  datatype Data = Data(count: nat, readopen: bool, writeopen: bool, owes: Option<nat>, drew: Option<nat>, cut: bool)

  predicate Empty(d: Data) {
    d.count == 0 && d.writeopen
  }

  predicate Full(d: Data) {
    d.count == P.PIPESIZE && d.readopen
  }

  ghost function Blocked(): (Data, int, nat) -> bool {
    (d: Data, c: int, q: nat) =>
      (c == NREAD && (Empty(d) || d.owes.Some? || d.cut)) || (c == NWRITE && (Full(d) || d.drew.Some?))
  }

  // pipewrite puts a byte
  predicate Puts(d: Data, d': Data, p: nat) {
    d.readopen && d.count < P.PIPESIZE && d' == d.(count := d.count + 1, owes := Some(p))
  }

  // pipewrite finds that it was killed after it put bytes, and leaves
  predicate Quits(d: Data, d': Data, p: nat) {
    d.owes == Some(p) && d' == d.(owes := None, cut := true)
  }

  // piperead takes a byte
  predicate Takes(d: Data, d': Data, p: nat) {
    d.count > 0 && d' == d.(count := d.count - 1, drew := Some(p))
  }

  // wakeup(&pi->nread), in pipewrite and in pipeclose
  predicate WakesReaders(d: Data, d': Data) {
    d' == d.(owes := None, cut := false) || d' == d.(owes := None, cut := false, writeopen := false)
  }

  // wakeup(&pi->nwrite), in piperead and in pipeclose
  predicate WakesWriters(d: Data, d': Data) {
    d' == d.(drew := None) || d' == d.(drew := None, readopen := false)
  }

  predicate Settled(d: Data, p: nat) {
    d.owes != Some(p) && d.drew != Some(p)
  }

  predicate Lawful(s: Sys<Data>, step: Step<Data>)
    requires Enabled(s, step)
  {
    var d := s.data;
    match step
    case Prepare(p, c) => Settled(d, p) && ((c == NREAD && Empty(d)) || (c == NWRITE && Full(d)))
    case Update(p, d') => Puts(d, d', p) || Quits(d, d', p) || Takes(d, d', p)
    case StartWake(p, d', c) => (c == NREAD && WakesReaders(d, d')) || (c == NWRITE && WakesWriters(d, d'))
    case Leave(p) => Settled(d, p)
    case Background(d') => false
    case _ => true
  }

  ghost predicate IsPipeRun(ss: seq<Sys<Data>>, steps: seq<Step<Data>>) {
    && |ss| == |steps| + 1 && Init(ss[0]) && ss[0].data == Data(0, true, true, None, None, false)
    && forall i :: 0 <= i < |steps| ==>
         Enabled(ss[i], steps[i]) && Lawful(ss[i], steps[i]) && ss[i + 1] == Do(ss[i], steps[i])
  }

  // Debts are of processes that hold the lock and have not registered to sleep.
  predicate InDebt(s: Sys<Data>, p: Option<nat>) {
    p.Some? ==> p.value < |s.procs| && (s.procs[p.value].phase.Inside? || s.procs[p.value].phase.Waking?)
  }

  ghost predicate DebtInv(s: Sys<Data>) {
    SpinInv(s) && InDebt(s, s.data.owes) && InDebt(s, s.data.drew) && s.data.count <= P.PIPESIZE
  }

  lemma LawfulKeeps(s: Sys<Data>, step: Step<Data>)
    requires Enabled(s, step) && Lawful(s, step) && DebtInv(s)
    ensures Rule(Blocked(), s, step) && DebtInv(Do(s, step))
  {
    LawfulRule(s, step);
    SpinStep(s, step);
    OwesStep(s, step);
    DrewStep(s, step);
  }

  // It is enough to look at the two channels.
  lemma KeepsIf(d: Data, d': Data, p: int, free: set<int>)
    requires NREAD in free || (Empty(d) || d.owes.Some? || d.cut ==> Empty(d') || d'.owes.Some? || d'.cut)
    requires NWRITE in free || (Full(d) || d.drew.Some? ==> Full(d') || d'.drew.Some?)
    ensures Keeps(Blocked(), d, d', p, free)
  {
  }

  lemma LawfulRule(s: Sys<Data>, step: Step<Data>)
    requires Enabled(s, step) && Lawful(s, step)
    ensures Rule(Blocked(), s, step)
  {
    match step
    case Update(p, d') => KeepsIf(s.data, d', p, s.procs[p].phase.woken);
    case StartWake(p, d', c) => KeepsIf(s.data, d', p, s.procs[p].phase.woken + {c});
    case _ =>
  }

  lemma OwesStep(s: Sys<Data>, step: Step<Data>)
    requires Enabled(s, step) && Lawful(s, step) && SpinInv(s) && InDebt(s, s.data.owes)
    ensures InDebt(Do(s, step), Do(s, step).data.owes)
  {
  }

  lemma DrewStep(s: Sys<Data>, step: Step<Data>)
    requires Enabled(s, step) && Lawful(s, step) && SpinInv(s) && InDebt(s, s.data.drew)
    ensures InDebt(Do(s, step), Do(s, step).data.drew)
  {
  }

  lemma {:induction false} PipeRun(ss: seq<Sys<Data>>, steps: seq<Step<Data>>, n: nat)
    requires IsPipeRun(ss, steps) && n < |ss|
    ensures DebtInv(ss[n]) && forall i :: 0 <= i < n ==> Rule(Blocked(), ss[i], steps[i])
    decreases n
  {
    if n > 0 {
      PipeRun(ss, steps, n - 1);
      LawfulKeeps(ss[n - 1], steps[n - 1]);
    }
  }

  /** Whenever pi->lock is free, a writer asleep faces a full pipe with a reader; a reader asleep faces an empty
      pipe with a writer, or a writer was killed between a byte it put and its wakeup. */
  lemma SleepersOnPipe(ss: seq<Sys<Data>>, steps: seq<Step<Data>>, n: nat, q: nat)
    requires IsPipeRun(ss, steps) && n < |ss|
    requires ss[n].spin == None && q < |ss[n].procs| && ss[n].procs[q].phase == Asleep
    ensures var d, c := ss[n].data, ss[n].procs[q].chan;
            (c == NREAD && (Empty(d) || d.cut)) || (c == NWRITE && Full(d))
  {
    PipeRun(ss, steps, |steps|);
    PipeRun(ss, steps, n);
    NoLostWakeup(Blocked(), ss, steps, n, q);
  }

  // In step i a writer that owes a wakeup finds itself killed.
  predicate KilledAt(ss: seq<Sys<Data>>, steps: seq<Step<Data>>, i: nat)
    requires i < |steps| && i < |ss|
  {
    steps[i].Update? && Quits(ss[i].data, steps[i].data, steps[i].p)
  }

  predicate WakeAt(steps: seq<Step<Data>>, i: nat)
    requires i < |steps|
  {
    steps[i].StartWake? && steps[i].c == NREAD
  }

  // Some writer was killed between a byte it put and its wakeup, and nobody has woken the readers since.
  ghost predicate CutOff(ss: seq<Sys<Data>>, steps: seq<Step<Data>>, n: nat)
    requires n <= |steps| && n <= |ss|
  {
    exists i :: 0 <= i < n && KilledAt(ss, steps, i) && forall j :: i < j < n ==> !WakeAt(steps, j)
  }

  lemma {:induction false} CutIs(ss: seq<Sys<Data>>, steps: seq<Step<Data>>, n: nat)
    requires IsPipeRun(ss, steps) && n < |ss|
    ensures ss[n].data.cut <==> CutOff(ss, steps, n)
    decreases n
  {
    if n > 0 {
      var m := n - 1;
      CutIs(ss, steps, m);
      assert Enabled(ss[m], steps[m]) && Lawful(ss[m], steps[m]) && ss[n] == Do(ss[m], steps[m]);
      if KilledAt(ss, steps, m) {
        assert CutOff(ss, steps, n);
      } else if WakeAt(steps, m) {
        assert !ss[n].data.cut;
      } else if CutOff(ss, steps, m) {
        var i :| 0 <= i < m && KilledAt(ss, steps, i) && forall j :: i < j < m ==> !WakeAt(steps, j);
        assert forall j :: i < j < n ==> !WakeAt(steps, j);
      }
    }
  }

  /** A reader asleep while the lock is free and the pipe holds bytes: only after such a kill. */
  lemma ReaderMissesBytes(ss: seq<Sys<Data>>, steps: seq<Step<Data>>, n: nat, q: nat)
    requires IsPipeRun(ss, steps) && n < |ss| && n <= |steps| && ss[n].data.count > 0
    requires ss[n].spin == None && q < |ss[n].procs| && ss[n].procs[q] == Proc(Asleep, NREAD)
    ensures CutOff(ss, steps, n)
  {
    SleepersOnPipe(ss, steps, n, q);
    CutIs(ss, steps, n);
  }

  /** And after every such kill: each reader asleep when a writer is killed between a byte and its wakeup stays
      asleep, with the lock free and the byte in the pipe. */
  lemma KillLosesWakeup(s: Sys<Data>, p: nat, q: nat)
    requires DebtInv(s) && s.data.owes == Some(p) && s.data.drew != Some(p) && s.procs[p].phase.Inside?
    requires q < |s.procs| && s.procs[q] == Proc(Asleep, NREAD) && s.data.count > 0
    ensures var quit := Update(p, s.data.(owes := None, cut := true));
            && Enabled(s, quit) && Lawful(s, quit) && var t := Do(s, quit);
            && Enabled(t, Leave(p)) && Lawful(t, Leave(p)) && var u := Do(t, Leave(p));
               u.spin == None && u.procs[q] == Proc(Asleep, NREAD) && u.data.count > 0
                 && u.data.writeopen == s.data.writeopen
  {
  }

  lemma Extend(ss: seq<Sys<Data>>, steps: seq<Step<Data>>, step: Step<Data>)
    returns (ss': seq<Sys<Data>>, steps': seq<Step<Data>>)
    requires IsPipeRun(ss, steps) && Enabled(ss[|steps|], step) && Lawful(ss[|steps|], step)
    ensures steps' == steps + [step] && ss' == ss + [Do(ss[|steps|], step)] && IsPipeRun(ss', steps')
  {
    ss', steps' := ss + [Do(ss[|steps|], step)], steps + [step];
  }

  // Process 1 goes to sleep on an empty pipe.
  lemma ReaderSleeps() returns (ss: seq<Sys<Data>>, steps: seq<Step<Data>>)
    ensures IsPipeRun(ss, steps)
    ensures ss[|steps|] == Sys(Data(0, true, true, None, None, false), None, [Proc(Out, 0), Proc(Asleep, NREAD)])
  {
    ss, steps := [Sys(Data(0, true, true, None, None, false), None, [Proc(Out, 0), Proc(Out, 0)])], [];
    ss, steps := Extend(ss, steps, Arrive(1));
    ss, steps := Extend(ss, steps, Acquire(1));
    ss, steps := Extend(ss, steps, Prepare(1, NREAD));
    ss, steps := Extend(ss, steps, Part(1));
    ss, steps := Extend(ss, steps, Sleep(1));
  }

  /** It happens: a run that ends with the lock free, a byte in the pipe, and a reader asleep. */
  lemma ByteWithoutWakeup() returns (ss: seq<Sys<Data>>, steps: seq<Step<Data>>)
    ensures IsPipeRun(ss, steps) && CutOff(ss, steps, |steps|)
    ensures var s := ss[|steps|]; s.spin == None && s.data.count == 1 && |s.procs| == 2
                                  && s.procs[1] == Proc(Asleep, NREAD)
  {
    ss, steps := ReaderSleeps();
    ss, steps := Extend(ss, steps, Arrive(0));
    ss, steps := Extend(ss, steps, Acquire(0));
    ss, steps := Extend(ss, steps, Update(0, Data(1, true, true, Some(0), None, false)));
    ss, steps := Extend(ss, steps, Update(0, Data(1, true, true, None, None, true)));
    ss, steps := Extend(ss, steps, Leave(0));
    CutIs(ss, steps, |steps|);
  }
}

/** kexit, reparent, kwait and kfork (kernel/proc.c) under wait_lock, as users of the sleep
    protocol.  Process p waits in kwait on the channel of its own table entry. */
module ExitWait {
  import opened Common
  import opened Monitor

  function Chan(p: int): int {
    p + 1
  }

  datatype Life = Unused | Fresh | Alive | Zombie

  // How far a process is in kexit.
  datatype Prog = Running | Reparenting(i: nat) | ParentWoken | Dead

  // parent is -1 for none.  exits and reaps count the zombies made of this entry and reaped;
  // forker remembers who set the parent.
  datatype Entry = Entry(parent: int, life: Life, prog: Prog, forker: int, exits: nat, reaps: nat)

  datatype Table = Table(init: nat, e: seq<Entry>)

  predicate NoZombieChild(d: Table, q: int) {
    forall i :: 0 <= i < |d.e| && d.e[i].parent == q ==> d.e[i].life != Zombie
  }

  ghost function Blocked(): (Table, int, nat) -> bool {
    (d: Table, c: int, q: nat) => c == Chan(q) && NoZombieChild(d, q)
  }

  function Set(d: Table, i: nat, x: Entry): Table
    requires i < |d.e|
  {
    d.(e := d.e[i := x])
  }

  // kfork: np->parent = p
  predicate Adopts(d: Table, d': Table, p: nat, i: nat)
    requires p < |d.e|
  {
    && i < |d.e| && d.e[i].life == Fresh && d.e[p].prog == Running && d.e[p].life == Alive
    && d' == Set(d, i, d.e[i].(parent := p, life := Alive, prog := Running, forker := p))
  }

  // kwait: a zombie child is freed
  predicate Reaps(d: Table, d': Table, p: nat, i: nat)
    requires p < |d.e|
  {
    && i < |d.e| && d.e[i].parent == p && d.e[i].life == Zombie && d.e[p].prog == Running
    && d' == Set(d, i, d.e[i].(parent := -1, life := Unused, reaps := d.e[i].reaps + 1))
  }

  // kexit takes wait_lock
  predicate BeginsExit(d: Table, d': Table, p: nat)
    requires p < |d.e|
  {
    d.e[p].prog == Running && d.e[p].life == Alive && p != d.init && d' == Set(d, p, d.e[p].(prog := Reparenting(0)))
  }

  // reparent's loop passes over an entry that is not a child of p
  predicate SkipsEntry(d: Table, d': Table, p: nat)
    requires p < |d.e|
  {
    && d.e[p].prog.Reparenting? && d.e[p].prog.i < |d.e| && d.e[d.e[p].prog.i].parent != p
    && d' == Set(d, p, d.e[p].(prog := Reparenting(d.e[p].prog.i + 1)))
  }

  // p->state = ZOMBIE
  predicate BecomesZombie(d: Table, d': Table, p: nat)
    requires p < |d.e|
  {
    d.e[p].prog == ParentWoken && d' == Set(d, p, d.e[p].(life := Zombie, prog := Dead, exits := d.e[p].exits + 1))
  }

  // reparent: pp->parent = initproc, to be followed by wakeup(initproc)
  predicate GivesToInit(d: Table, d': Table, p: nat)
    requires p < |d.e|
  {
    && d.e[p].prog.Reparenting? && d.e[p].prog.i < |d.e| && d.e[d.e[p].prog.i].parent == p
    && var u := Set(d, d.e[p].prog.i, d.e[d.e[p].prog.i].(parent := d.init));
       d' == Set(u, p, u.e[p].(prog := Reparenting(d.e[p].prog.i + 1)))
  }

  // wakeup(p->parent) begins
  predicate WakesParent(d: Table, d': Table, p: nat)
    requires p < |d.e|
  {
    d.e[p].prog == Reparenting(|d.e|) && d' == Set(d, p, d.e[p].(prog := ParentWoken))
  }

  // allocproc, and freeproc of a fork that failed
  predicate Allocates(d: Table, d': Table, i: nat) {
    && i < |d.e|
    && (|| (d.e[i].life == Unused && d' == Set(d, i, d.e[i].(life := Fresh)))
        || (d.e[i].life == Fresh && d' == Set(d, i, d.e[i].(life := Unused))))
  }

  ghost predicate Lawful(s: Sys<Table>, step: Step<Table>)
    requires Enabled(s, step) && |s.procs| == |s.data.e|
  {
    var d := s.data;
    match step
    case Arrive(p) => d.e[p].prog == Running
    case Prepare(p, c) => c == Chan(p) && d.e[p].prog == Running && NoZombieChild(d, p)
    case Update(p, d') =>
      || (exists i :: Adopts(d, d', p, i)) || (exists i :: Reaps(d, d', p, i))
      || BeginsExit(d, d', p) || SkipsEntry(d, d', p) || BecomesZombie(d, d', p)
    case StartWake(p, d', c) =>
      || (GivesToInit(d, d', p) && c == Chan(d.init))
      || (WakesParent(d, d', p) && c == Chan(d.e[p].parent))
    case Leave(p) => d.e[p].prog == Running || d.e[p].prog == Dead
    case Background(d') => exists i :: Allocates(d, d', i)
    case _ => true
  }

  // ----- The invariant -----

  // Everyone but init has a parent, parents are alive, and each zombie has one reap to come.
  predicate EntryOk(d: Table, i: int)
    requires 0 <= i < |d.e|
  {
    var x := d.e[i];
    && -1 <= x.parent < |d.e|
    && (x.parent >= 0 ==> d.e[x.parent].life == Alive && (x.parent == d.init || x.parent == x.forker))
    && (x.life == Unused || x.life == Fresh ==> x.parent == -1)
    && ((x.life == Alive || x.life == Zombie) && i != d.init ==> x.parent >= 0)
    && (x.prog.Reparenting? || x.prog.ParentWoken? ==> x.life == Alive)
    && (x.prog.Dead? ==> x.life != Alive)
    && x.exits == x.reaps + if x.life == Zombie then 1 else 0
  }

  // reparent has passed entry i, so it is not a child of the exiting p.
  predicate Passed(d: Table, p: int, i: int)
    requires 0 <= p < |d.e| && 0 <= i < |d.e|
  {
    (d.e[p].prog.Reparenting? && i < d.e[p].prog.i) || d.e[p].prog.ParentWoken? ==> d.e[i].parent != p
  }

  ghost predicate FamilyInv(d: Table) {
    && d.init < |d.e| && d.e[d.init].life == Alive && d.e[d.init].prog == Running
    && (forall i :: 0 <= i < |d.e| ==> EntryOk(d, i))
    && (forall p, i :: 0 <= p < |d.e| && 0 <= i < |d.e| ==> Passed(d, p, i))
  }

  // An exiting process holds wait_lock until it is a zombie.
  predicate ExitingAt(x: Entry, p: Proc) {
    && (x.prog.Reparenting? || x.prog.ParentWoken? ==> p.phase.Inside? || p.phase.Waking?)
    && (x.prog.ParentWoken? && p.phase.Inside? ==> Chan(x.parent) in p.phase.woken)
    && (x.prog.ParentWoken? && p.phase.Waking? ==> Chan(x.parent) == p.phase.c)
  }

  ghost predicate ExitingInv(s: Sys<Table>) {
    |s.procs| == |s.data.e| && forall p :: 0 <= p < |s.procs| ==> ExitingAt(s.data.e[p], s.procs[p])
  }

  ghost predicate ExitInv(s: Sys<Table>) {
    FamilyInv(s.data) && ExitingInv(s)
  }

  // It is enough to look at the sleeping conditions one by one.
  lemma KeepsIf(d: Table, d': Table, p: int, free: set<int>)
    requires forall q :: q != p && Chan(q) !in free && NoZombieChild(d, q) ==> NoZombieChild(d', q)
    ensures Keeps(Blocked(), d, d', p, free)
  {
  }

  // A step that changes entry i only.
  lemma FamilySet(d: Table, d': Table, i: nat)
    requires FamilyInv(d) && i < |d.e| && d'.init == d.init && |d'.e| == |d.e| && d' == Set(d, i, d'.e[i])
    requires EntryOk(d', i) && forall j :: 0 <= j < |d.e| ==> Passed(d', i, j)
    requires d.e[i].life == Alive && d'.e[i].life != Alive ==> forall j :: 0 <= j < |d.e| ==> d.e[j].parent != i
    requires d'.e[i].parent >= 0 && d'.e[i].parent != d.e[i].parent ==> d.e[d'.e[i].parent].prog == Running
    requires i == d.init ==> d'.e[i].life == Alive && d'.e[i].prog == Running
    ensures FamilyInv(d')
  {
    forall j | 0 <= j < |d.e| ensures EntryOk(d', j) {
      assert EntryOk(d, j);
    }
    forall r, j | 0 <= r < |d.e| && 0 <= j < |d.e| ensures Passed(d', r, j) {
      assert Passed(d, r, j);
    }
  }

  lemma AdoptsKeeps(d: Table, d': Table, p: nat, i: nat)
    requires FamilyInv(d) && p < |d.e| && Adopts(d, d', p, i)
    ensures FamilyInv(d') && Keeps(Blocked(), d, d', p, {})
  {
    assert EntryOk(d, i) && EntryOk(d, p);
    FamilySet(d, d', i);
    KeepsIf(d, d', p, {});
  }

  lemma ReapsKeeps(d: Table, d': Table, p: nat, i: nat)
    requires FamilyInv(d) && p < |d.e| && Reaps(d, d', p, i)
    ensures FamilyInv(d') && Keeps(Blocked(), d, d', p, {})
  {
    assert EntryOk(d, i);
    FamilySet(d, d', i);
    KeepsIf(d, d', p, {});
  }

  lemma ExitKeeps(d: Table, d': Table, p: nat)
    requires FamilyInv(d) && p < |d.e|
    requires BeginsExit(d, d', p) || SkipsEntry(d, d', p) || WakesParent(d, d', p)
    ensures FamilyInv(d') && forall free :: Keeps(Blocked(), d, d', p, free)
  {
    assert EntryOk(d, p);
    forall j | 0 <= j < |d.e| ensures Passed(d', p, j) {
      assert Passed(d, p, j);
    }
    FamilySet(d, d', p);
    forall free ensures Keeps(Blocked(), d, d', p, free) {
      KeepsIf(d, d', p, free);
    }
  }

  // The parent has been woken, so the new zombie ends nobody's registered wait.
  lemma ZombieKeeps(d: Table, d': Table, p: nat, woken: set<int>)
    requires FamilyInv(d) && p < |d.e| && BecomesZombie(d, d', p) && Chan(d.e[p].parent) in woken
    ensures FamilyInv(d') && Keeps(Blocked(), d, d', p, woken)
  {
    assert EntryOk(d, p);
    forall j | 0 <= j < |d.e| ensures Passed(d', p, j) && d.e[j].parent != p {
      assert Passed(d, p, j);
    }
    FamilySet(d, d', p);
    KeepsIf(d, d', p, woken);
  }

  // A child given to init may be a zombie already; init is about to be woken.
  lemma GivesKeeps(d: Table, d': Table, p: nat, woken: set<int>)
    requires FamilyInv(d) && p < |d.e| && GivesToInit(d, d', p)
    ensures FamilyInv(d') && Keeps(Blocked(), d, d', p, woken + {Chan(d.init)})
  {
    var i := d.e[p].prog.i;
    var u := Set(d, i, d.e[i].(parent := d.init));
    assert EntryOk(d, i) && EntryOk(d, p);
    forall j | 0 <= j < |d.e| ensures Passed(u, i, j) {
      assert Passed(d, i, j);
    }
    FamilySet(d, u, i);
    assert EntryOk(u, p);
    forall j | 0 <= j < |d.e| ensures Passed(d', p, j) {
      assert Passed(u, p, j);
    }
    FamilySet(u, d', p);
    KeepsIf(d, d', p, woken + {Chan(d.init)});
  }

  lemma AllocatesKeeps(d: Table, d': Table, i: nat)
    requires FamilyInv(d) && Allocates(d, d', i)
    ensures FamilyInv(d') && Keeps(Blocked(), d, d', -1, {})
  {
    assert EntryOk(d, i);
    forall j | 0 <= j < |d.e| ensures Passed(d', i, j) {
      assert Passed(d, i, j);
    }
    FamilySet(d, d', i);
    KeepsIf(d, d', -1, {});
  }

  lemma LawfulUpdate(s: Sys<Table>, step: Step<Table>)
    requires ExitInv(s) && Enabled(s, step) && Lawful(s, step) && step.Update?
    ensures Rule(Blocked(), s, step) && FamilyInv(step.data)
  {
    var d, d', p := s.data, step.data, step.p;
    if i :| Adopts(d, d', p, i) {
      AdoptsKeeps(d, d', p, i);
    } else if i :| Reaps(d, d', p, i) {
      ReapsKeeps(d, d', p, i);
    } else if BecomesZombie(d, d', p) {
      ZombieKeeps(d, d', p, s.procs[p].phase.woken);
    } else {
      ExitKeeps(d, d', p);
      assert Keeps(Blocked(), d, d', p, s.procs[p].phase.woken);
    }
  }

  lemma LawfulRule(s: Sys<Table>, step: Step<Table>)
    requires ExitInv(s) && Enabled(s, step) && Lawful(s, step)
    ensures Rule(Blocked(), s, step) && FamilyInv(Do(s, step).data)
  {
    match step
    case Update(p, d') => LawfulUpdate(s, step);
    case StartWake(p, d', c) =>
      var woken := s.procs[p].phase.woken;
      if GivesToInit(s.data, d', p) && c == Chan(s.data.init) {
        GivesKeeps(s.data, d', p, woken);
      } else {
        ExitKeeps(s.data, d', p);
        assert Keeps(Blocked(), s.data, d', p, woken + {c});
      }
    case Background(d') =>
      var i :| Allocates(s.data, d', i);
      AllocatesKeeps(s.data, d', i);
    case _ =>
  }

  lemma ExitingStep(s: Sys<Table>, step: Step<Table>)
    requires SpinInv(s) && ExitInv(s) && Enabled(s, step) && Lawful(s, step)
    ensures ExitingInv(Do(s, step))
  {
    var t := Do(s, step);
    forall q | 0 <= q < |t.procs| ensures ExitingAt(t.data.e[q], t.procs[q]) {
      ExitingStepAt(s, step, q);
    }
  }

  lemma ExitingStepAt(s: Sys<Table>, step: Step<Table>, q: nat)
    requires SpinInv(s) && ExitInv(s) && Enabled(s, step) && Lawful(s, step) && q < |s.procs|
    ensures var t := Do(s, step); q < |t.procs| == |t.data.e| && ExitingAt(t.data.e[q], t.procs[q])
  {
    assert ExitingAt(s.data.e[q], s.procs[q]);
  }

  ghost predicate IsExitRun(ss: seq<Sys<Table>>, steps: seq<Step<Table>>) {
    && |ss| == |steps| + 1 && Init(ss[0]) && ExitInv(ss[0])
    && forall i :: 0 <= i < |steps| ==>
         && Enabled(ss[i], steps[i]) && |ss[i].procs| == |ss[i].data.e| && Lawful(ss[i], steps[i])
         && ss[i + 1] == Do(ss[i], steps[i])
  }

  lemma {:induction false} ExitRun(ss: seq<Sys<Table>>, steps: seq<Step<Table>>, n: nat)
    requires IsExitRun(ss, steps) && n < |ss|
    ensures ExitInv(ss[n]) && Inv(Blocked(), ss[n]) && forall i :: 0 <= i < n ==> Rule(Blocked(), ss[i], steps[i])
    decreases n
  {
    if n > 0 {
      ExitRun(ss, steps, n - 1);
      LawfulRule(ss[n - 1], steps[n - 1]);
      InvStep(Blocked(), ss[n - 1], steps[n - 1]);
      ExitingStep(ss[n - 1], steps[n - 1]);
    }
  }

  /** Whenever wait_lock is free, a process asleep in kwait has no zombie child. */
  lemma NoZombieOfSleeper(ss: seq<Sys<Table>>, steps: seq<Step<Table>>, n: nat, q: nat, i: nat)
    requires IsExitRun(ss, steps) && n < |ss| && i < |ss[n].data.e|
    requires ss[n].spin == None && q < |ss[n].procs| && ss[n].procs[q].phase == Asleep
    requires ss[n].data.e[i].parent == q
    ensures ss[n].data.e[i].life != Zombie
  {
    ExitRun(ss, steps, |steps|);
    NoLostWakeup(Blocked(), ss, steps, n, q);
    assert NoZombieChild(ss[n].data, q);
  }

  /** At any time, wait_lock free or not, every parent is alive: no orphan is left behind by an
      exit; and nobody but the forker or init is a parent. */
  lemma ParentsAreAlive(ss: seq<Sys<Table>>, steps: seq<Step<Table>>, n: nat, i: nat)
    requires IsExitRun(ss, steps) && n < |ss| && i < |ss[n].data.e|
    ensures var d := ss[n].data;
            && (d.e[i].parent >= 0 ==> d.e[i].parent < |d.e| && d.e[d.e[i].parent].life == Alive)
            && (d.e[i].parent >= 0 ==> d.e[i].parent == d.init || d.e[i].parent == d.e[i].forker)
            && ((d.e[i].life == Alive || d.e[i].life == Zombie) && i != d.init ==> d.e[i].parent >= 0)
  {
    ExitRun(ss, steps, n);
    assert EntryOk(ss[n].data, i);
  }

  /** Each exit is reaped at most once: the reaps of an entry are its exits, less the zombie that
      is still there. */
  lemma ReapedOnce(ss: seq<Sys<Table>>, steps: seq<Step<Table>>, n: nat, i: nat)
    requires IsExitRun(ss, steps) && n < |ss| && i < |ss[n].data.e|
    ensures var x := ss[n].data.e[i]; x.reaps + (if x.life == Zombie then 1 else 0) == x.exits
  {
    ExitRun(ss, steps, n);
    assert EntryOk(ss[n].data, i);
  }
}
