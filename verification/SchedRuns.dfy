/** All CPUs scheduling one process table, at the granularity of p->lock critical sections
    (kernel/proc.c).  A dispatch or a process giving up its CPU is one step. */
module SchedRuns {
  import opened Common
  import opened Sched

  // Where a CPU is in scheduler(): the first scan, the second scan, or running process k.
  datatype Phase = Scan(i: nat, best: int, found: bool) | Pick(offset: nat, best: int) | Busy(k: nat)

  datatype Core = Core(next: nat, phase: Phase)

  datatype Sys = Sys(procs: seq<Proc>, cores: seq<Core>)

  const FRESH := Scan(0, PRIORITY_MAX + 1, false)

  datatype Step =
    | Visit(c: nat)                        // first scan, one process
    | EndScan(c: nat)
    | Try(c: nat)                          // second scan, one process; dispatches it if it fits
    | EndPick(c: nat)
    | GiveUp(c: nat, state: State)         // yield, sleep or exit of the running process
    | Wakeup(i: nat)                       // wakeup or kkill of a sleeper
    | Alloc(i: nat, pid: int)              // allocproc
    | Inherit(i: nat, parent: nat)         // kfork's child gets the priority of the process that forks
    | Start(i: nat)                        // kfork's child becomes runnable, in a critical section of its own
    | Free(i: nat)                         // freeproc
    | SetPriority(i: nat, priority: int)   // ksetpriority

  predicate Enabled(s: Sys, step: Step) {
    match step
    case Visit(c) => c < |s.cores| && s.cores[c].phase.Scan? && s.cores[c].phase.i < |s.procs|
    case EndScan(c) => c < |s.cores| && s.cores[c].phase.Scan? && s.cores[c].phase.i == |s.procs|
    case Try(c) =>
      c < |s.cores| && s.cores[c].phase.Pick? && s.cores[c].phase.offset < NPROC && |s.procs| == NPROC
    case EndPick(c) => c < |s.cores| && s.cores[c].phase.Pick? && s.cores[c].phase.offset == NPROC
    case GiveUp(c, state) =>
      c < |s.cores| && s.cores[c].phase.Busy? && s.cores[c].phase.k < |s.procs|
      && state in {RUNNABLE, SLEEPING, ZOMBIE}
    case Wakeup(i) => i < |s.procs| && s.procs[i].state == SLEEPING
    case Alloc(i, pid) => i < |s.procs| && s.procs[i].state == UNUSED
    case Inherit(i, parent) =>
      i < |s.procs| && s.procs[i].state == USED && parent < |s.procs| && s.procs[parent].state == RUNNING
    case Start(i) => i < |s.procs| && s.procs[i].state == USED
    case Free(i) => i < |s.procs| && (s.procs[i].state == USED || s.procs[i].state == ZOMBIE)
    case SetPriority(i, priority) => i < |s.procs| && s.procs[i].state != UNUSED && PriorityValid(priority)
  }

  function Move(s: Sys, c: nat, phase: Phase): Sys
    requires c < |s.cores|
  {
    s.(cores := s.cores[c := s.cores[c].(phase := phase)])
  }

  function Put(s: Sys, i: nat, p: Proc): Sys
    requires i < |s.procs|
  {
    s.(procs := s.procs[i := p])
  }

  function DoVisit(s: Sys, c: nat): Sys
    requires Enabled(s, Visit(c))
  {
    var Scan(i, best, found) := s.cores[c].phase;
    var p := Visited(s.procs[i]);
    var better := p.state == RUNNABLE && p.priority < best;
    Move(Put(s, i, p), c, Scan(i + 1, if better then p.priority else best, found || better))
  }

  // The index that the second scan looks at.
  function Target(s: Sys, c: nat): nat
    requires c < |s.cores| && s.cores[c].phase.Pick?
  {
    (s.cores[c].next + s.cores[c].phase.offset) % NPROC
  }

  function DoTry(s: Sys, c: nat): Sys
    requires Enabled(s, Try(c))
  {
    var Pick(offset, best) := s.cores[c].phase;
    var k := Target(s, c);
    if CanRun(s.procs[k], best)
    then Move(Put(s, k, s.procs[k].(state := RUNNING, waitTicks := 0)), c, Busy(k))
    else Move(s, c, Pick(offset + 1, best))
  }

  function DoGiveUp(s: Sys, c: nat, state: State): Sys
    requires Enabled(s, GiveUp(c, state))
  {
    var k := s.cores[c].phase.k;
    var t := Put(s, k, s.procs[k].(state := state));
    t.(cores := s.cores[c := Core((k + 1) % NPROC, FRESH)])
  }

  function Do(s: Sys, step: Step): Sys
    requires Enabled(s, step)
  {
    match step
    case Visit(c) => DoVisit(s, c)
    case EndScan(c) =>
      var phase := s.cores[c].phase;
      Move(s, c, if phase.found then Pick(0, phase.best) else FRESH)
    case Try(c) => DoTry(s, c)
    case EndPick(c) => Move(s, c, FRESH)
    case GiveUp(c, state) => DoGiveUp(s, c, state)
    case Wakeup(i) => Put(s, i, s.procs[i].(state := RUNNABLE))
    case Alloc(i, pid) => Put(s, i, Proc(USED, pid, PRIORITY_DEFAULT, 0))
    case Inherit(i, parent) =>
      var priority := s.procs[parent].priority;
      Put(s, i, s.procs[i].(priority := if PriorityValid(priority) then priority else PRIORITY_DEFAULT, waitTicks := 0))
    case Start(i) => Put(s, i, s.procs[i].(state := RUNNABLE))
    case Free(i) => Put(s, i, Proc(UNUSED, 0, PRIORITY_DEFAULT, 0))
    case SetPriority(i, priority) => Put(s, i, s.procs[i].(priority := priority, waitTicks := 0))
  }

  predicate Init(s: Sys) {
    && |s.procs| == NPROC && (forall i :: 0 <= i < NPROC ==> s.procs[i] == Proc(UNUSED, 0, PRIORITY_DEFAULT, 0))
    && (forall c :: 0 <= c < |s.cores| ==> s.cores[c] == Core(c % NPROC, FRESH))
  }

  // ----- What every step keeps -----

  // Priorities stay in range and only a runnable process has waited.
  predicate ProcOk(p: Proc) {
    PriorityValid(p.priority) && (p.state != RUNNABLE ==> p.waitTicks == 0)
  }

  predicate CoreOk(core: Core) {
    && core.next < NPROC
    && match core.phase
       case Scan(i, best, found) => i <= NPROC && (if found then PriorityValid(best) else best == PRIORITY_MAX + 1)
       case Pick(offset, best) => offset <= NPROC && PriorityValid(best)
       case Busy(k) => k < NPROC
  }

  // Each running process is on one CPU, and each busy CPU runs a running process.
  ghost predicate Inv(s: Sys) {
    && |s.procs| == NPROC
    && (forall i :: 0 <= i < NPROC ==> ProcOk(s.procs[i]))
    && (forall c :: 0 <= c < |s.cores| ==> CoreOk(s.cores[c]))
    && (forall c :: 0 <= c < |s.cores| && s.cores[c].phase.Busy? ==> s.procs[s.cores[c].phase.k].state == RUNNING)
    && (forall c, d :: 0 <= c < d < |s.cores| && s.cores[c].phase.Busy? && s.cores[d].phase.Busy? ==>
          s.cores[c].phase.k != s.cores[d].phase.k)
    && (forall i :: 0 <= i < NPROC && s.procs[i].state == RUNNING ==>
          exists c :: 0 <= c < |s.cores| && s.cores[c].phase == Busy(i))
  }

  lemma InvVisit(s: Sys, c: nat)
    requires Inv(s) && Enabled(s, Visit(c))
    ensures Inv(DoVisit(s, c))
  {
    var t := DoVisit(s, c);
    assert CoreOk(s.cores[c]) && ProcOk(s.procs[s.cores[c].phase.i]);
    forall i | 0 <= i < NPROC && t.procs[i].state == RUNNING
      ensures exists d :: 0 <= d < |t.cores| && t.cores[d].phase == Busy(i)
    {
      var d :| 0 <= d < |s.cores| && s.cores[d].phase == Busy(i);
      assert t.cores[d].phase == Busy(i);
    }
  }

  lemma InvTry(s: Sys, c: nat)
    requires Inv(s) && Enabled(s, Try(c))
    ensures Inv(DoTry(s, c))
  {
    var t, k := DoTry(s, c), Target(s, c);
    assert CoreOk(s.cores[c]) && ProcOk(s.procs[k]);
    forall i | 0 <= i < NPROC && t.procs[i].state == RUNNING
      ensures exists d :: 0 <= d < |t.cores| && t.cores[d].phase == Busy(i)
    {
      if s.procs[i].state == RUNNING {
        var d :| 0 <= d < |s.cores| && s.cores[d].phase == Busy(i);
        assert t.cores[d].phase == Busy(i);
      } else {
        assert t.cores[c].phase == Busy(i);
      }
    }
  }

  lemma InvGiveUp(s: Sys, c: nat, state: State)
    requires Inv(s) && Enabled(s, GiveUp(c, state))
    ensures Inv(DoGiveUp(s, c, state))
  {
    var t, k := DoGiveUp(s, c, state), s.cores[c].phase.k;
    assert CoreOk(s.cores[c]) && ProcOk(s.procs[k]);
    forall i | 0 <= i < NPROC && t.procs[i].state == RUNNING
      ensures exists d :: 0 <= d < |t.cores| && t.cores[d].phase == Busy(i)
    {
      var d :| 0 <= d < |s.cores| && s.cores[d].phase == Busy(i);
      assert t.cores[d].phase == Busy(i);
    }
  }

  lemma InvMove(s: Sys, c: nat, phase: Phase)
    requires Inv(s) && c < |s.cores| && !s.cores[c].phase.Busy? && !phase.Busy? && CoreOk(Core(0, phase))
    ensures Inv(Move(s, c, phase))
  {
    var t := Move(s, c, phase);
    assert CoreOk(s.cores[c]);
    forall i | 0 <= i < NPROC && t.procs[i].state == RUNNING
      ensures exists d :: 0 <= d < |t.cores| && t.cores[d].phase == Busy(i)
    {
      var d :| 0 <= d < |s.cores| && s.cores[d].phase == Busy(i);
      assert t.cores[d].phase == Busy(i);
    }
  }

  lemma InvPut(s: Sys, i: nat, p: Proc)
    requires Inv(s) && i < NPROC && ProcOk(p) && (p.state == RUNNING <==> s.procs[i].state == RUNNING)
    ensures Inv(Put(s, i, p))
  {
  }

  lemma InvStep(s: Sys, step: Step)
    requires Inv(s) && Enabled(s, step)
    ensures Inv(Do(s, step))
  {
    match step
    case Visit(c) => InvVisit(s, c);
    case EndScan(c) => assert CoreOk(s.cores[c]); InvMove(s, c, Do(s, step).cores[c].phase);
    case Try(c) => InvTry(s, c);
    case EndPick(c) => InvMove(s, c, FRESH);
    case GiveUp(c, state) => InvGiveUp(s, c, state);
    case Wakeup(i) => InvPut(s, i, Do(s, step).procs[i]);
    case Alloc(i, pid) => InvPut(s, i, Do(s, step).procs[i]);
    case Inherit(i, parent) => InvPut(s, i, Do(s, step).procs[i]);
    case Start(i) => InvPut(s, i, Do(s, step).procs[i]);
    case Free(i) => InvPut(s, i, Do(s, step).procs[i]);
    case SetPriority(i, priority) => InvPut(s, i, Do(s, step).procs[i]);
  }

  ghost predicate IsRun(ss: seq<Sys>, steps: seq<Step>) {
    && |ss| == |steps| + 1 && Inv(ss[0])
    && forall i :: 0 <= i < |steps| ==> Enabled(ss[i], steps[i]) && ss[i + 1] == Do(ss[i], steps[i])
  }

  /** In every run, from boot or from any good state: priorities stay in 0..31, only a runnable
      process has a nonzero waiting time, and no process runs on two CPUs. */
  lemma {:induction false} RunInv(ss: seq<Sys>, steps: seq<Step>, n: nat)
    requires IsRun(ss, steps) && n < |ss|
    ensures Inv(ss[n])
    decreases n
  {
    if n > 0 {
      RunInv(ss, steps, n - 1);
      InvStep(ss[n - 1], steps[n - 1]);
    }
  }

  lemma InitInv(s: Sys)
    requires Init(s)
    ensures Inv(s)
  {
  }

  // ----- Who changes what -----

  predicate VisitsT(s: Sys, step: Step, t: nat) {
    step.Visit? && step.c < |s.cores| && s.cores[step.c].phase.Scan? && s.cores[step.c].phase.i == t
  }

  /** A process's state moves along the edges of the process life cycle, each by one kind of step. */
  lemma StateGraph(s: Sys, step: Step, i: nat)
    requires Inv(s) && Enabled(s, step) && i < NPROC
    ensures var a, b := s.procs[i].state, Do(s, step).procs[i].state;
            match step
            case Alloc(j, _) => j == i ==> a == UNUSED && b == USED
            case Start(j) => j == i ==> a == USED && b == RUNNABLE
            case Wakeup(j) => j == i ==> a == SLEEPING && b == RUNNABLE
            case Free(j) => j == i ==> (a == USED || a == ZOMBIE) && b == UNUSED
            case Try(c) => a != b ==> a == RUNNABLE && b == RUNNING && Do(s, step).cores[c].phase == Busy(i)
            case GiveUp(c, state) => s.cores[c].phase == Busy(i) ==> a == RUNNING && b == state
            case _ => a == b
    ensures s.procs[i] == Do(s, step).procs[i] || VisitsT(s, step, i) || OnProc(s, step, i)
  {
    assert Do(s, step).procs[i] != s.procs[i] ==> VisitsT(s, step, i) || OnProc(s, step, i);
  }

  // The step is about process i: it names i, or i is what its CPU runs or looks at.
  predicate OnProc(s: Sys, step: Step, i: nat) {
    match step
    case Try(c) => Enabled(s, step) && Target(s, c) == i
    case GiveUp(c, _) => Enabled(s, step) && s.cores[c].phase == Busy(i)
    case Wakeup(j) => j == i
    case Alloc(j, _) => j == i
    case Inherit(j, _) => j == i
    case Start(j) => j == i
    case Free(j) => j == i
    case SetPriority(j, _) => j == i
    case _ => false
  }

  /** A priority changes only by allocation, fork, ksetpriority and aging, and to what each of them promises. */
  lemma PriorityChanges(s: Sys, step: Step, i: nat)
    requires Inv(s) && Enabled(s, step) && i < NPROC
    ensures var p, p' := s.procs[i], Do(s, step).procs[i];
            match step
            case Alloc(j, pid) => if j == i then p'.priority == PRIORITY_DEFAULT && p'.pid == pid else p' == p
            case Inherit(j, k) =>
              if j == i then p'.priority == s.procs[k].priority && p'.pid == p.pid else p' == p
            case SetPriority(j, priority) => if j == i then p'.priority == priority && p'.pid == p.pid else p' == p
            case Free(j) => if j == i then p'.pid == 0 else p' == p
            case Visit(c) =>
              p'.pid == p.pid && p'.priority == p.priority -
              if VisitsT(s, step, i) && p.state == RUNNABLE && p.waitTicks >= AGING_INTERVAL && p.priority > 0
              then 1 else 0
            case _ => p'.priority == p.priority && p'.pid == p.pid
  {
    assert ProcOk(s.procs[i]);
    if step.Inherit? {
      assert ProcOk(s.procs[step.parent]);
    } else if step.Visit? {
      OneLevel(s.procs[i]);
    }
  }

  // From state m to state n the new process i is not yet started, freed or given another priority.
  ghost predicate Unborn(steps: seq<Step>, i: nat, m: nat, n: nat) {
    m <= n <= |steps|
    && forall k :: m <= k < n ==> !((steps[k].SetPriority? || steps[k].Free? || steps[k].Start? || steps[k].Inherit?)
                                    && steps[k].i == i)
  }

  /** A child becomes runnable with the priority its parent had when it forked, unless it was given another. */
  lemma {:induction false} ForkInherits(ss: seq<Sys>, steps: seq<Step>, i: nat, m: nat, n: nat)
    requires IsRun(ss, steps) && i < NPROC && m < n <= |steps| && steps[m].Inherit? && steps[m].i == i
    requires Unborn(steps, i, m + 1, n)
    ensures Inv(ss[n]) && Inv(ss[m]) && ss[n].procs[i].state == USED
    ensures Enabled(ss[m], steps[m]) && ss[m].procs[steps[m].parent].state == RUNNING
    ensures ss[n].procs[i].priority == ss[m].procs[steps[m].parent].priority
    decreases n
  {
    var k := n - 1;
    RunInv(ss, steps, m);
    RunInv(ss, steps, k);
    RunInv(ss, steps, n);
    PriorityChanges(ss[k], steps[k], i);
    StateGraph(ss[k], steps[k], i);
    if m < k {
      ForkInherits(ss, steps, i, m, k);
    }
  }

  // ----- One CPU's loop is Sched's round -----

  // A stretch of steps of CPU c from s to t.
  ghost predicate Stretch(ss: seq<Sys>, steps: seq<Step>, s: Sys, t: Sys, c: nat) {
    && |ss| == |steps| + 1 && ss[0] == s && ss[|steps|] == t
    && forall i :: 0 <= i < |steps| ==>
         && Enabled(ss[i], steps[i]) && ss[i + 1] == Do(ss[i], steps[i])
         && (steps[i] == Visit(c) || steps[i] == EndScan(c) || steps[i] == Try(c))
  }

  lemma Longer(ss: seq<Sys>, steps: seq<Step>, s: Sys, t: Sys, c: nat, step: Step)
    returns (ss': seq<Sys>, steps': seq<Step>)
    requires Stretch(ss, steps, s, t, c) && Enabled(t, step) && step in {Visit(c), EndScan(c), Try(c)}
    ensures Stretch(ss', steps', s, Do(t, step), c)
  {
    ss', steps' := ss + [Do(t, step)], steps + [step];
  }

  // CPU c, alone, is at process i of the first scan.
  ghost predicate ScannedTo(s: Sys, c: nat, i: nat, t: Sys) {
    && c < |s.cores| && i <= NPROC == |s.procs| == |t.procs|
    && (forall j :: 0 <= j < NPROC ==> t.procs[j] == if j < i then Visited(s.procs[j]) else s.procs[j])
    && c < |t.cores| && t.cores[c].phase.Scan? && t.cores[c].phase.i == i
    && t.cores == s.cores[c := Core(s.cores[c].next, t.cores[c].phase)]
    && BestSoFar(t.procs, i, t.cores[c].phase.best, t.cores[c].phase.found)
  }

  ghost predicate BestSoFar(procs: seq<Proc>, i: nat, best: int, found: bool) {
    && i <= |procs| && (found ==> exists j :: 0 <= j < i && CanRun(procs[j], best))
    && (!found ==> best == PRIORITY_MAX + 1)
    && forall j :: 0 <= j < i && procs[j].state == RUNNABLE ==> found && best <= procs[j].priority
  }

  lemma BestOn(procs: seq<Proc>, i: nat, best: int, found: bool, p: Proc, best': int, found': bool)
    requires BestSoFar(procs, i, best, found) && i < |procs| && PriorityValid(p.priority)
    requires found' == (found || (p.state == RUNNABLE && p.priority < best))
    requires best' == if p.state == RUNNABLE && p.priority < best then p.priority else best
    ensures BestSoFar(procs[i := p], i + 1, best', found')
  {
    var procs' := procs[i := p];
    if p.state == RUNNABLE && p.priority < best {
      assert CanRun(procs'[i], best');
    } else if found {
      var j :| 0 <= j < i && CanRun(procs[j], best);
      assert CanRun(procs'[j], best');
    }
  }

  lemma ScanOn(s: Sys, c: nat, i: nat, t: Sys)
    requires Inv(s) && ScannedTo(s, c, i, t) && i < NPROC
    ensures Enabled(t, Visit(c)) && ScannedTo(s, c, i + 1, Do(t, Visit(c)))
  {
    var p := Visited(t.procs[i]);
    assert ProcOk(s.procs[i]);
    OneLevel(s.procs[i]);
    var phase, phase' := t.cores[c].phase, Do(t, Visit(c)).cores[c].phase;
    BestOn(t.procs, i, phase.best, phase.found, p, phase'.best, phase'.found);
  }

  lemma ScanAll(s: Sys, c: nat) returns (ss: seq<Sys>, steps: seq<Step>, t: Sys)
    requires Inv(s) && c < |s.cores| && s.cores[c].phase == FRESH
    ensures Stretch(ss, steps, s, t, c) && ScannedTo(s, c, NPROC, t) && t.procs == VisitedAll(s.procs)
  {
    ss, steps, t := [s], [], s;
    var i := 0;
    while i < NPROC
      invariant 0 <= i <= NPROC && Stretch(ss, steps, s, t, c) && ScannedTo(s, c, i, t)
    {
      ScanOn(s, c, i, t);
      ss, steps := Longer(ss, steps, s, t, c, Visit(c));
      t := Do(t, Visit(c));
      i := i + 1;
    }
    assert t.procs == VisitedAll(s.procs);
  }

  // CPU c, alone, has tried `offset` processes of the second scan in vain.
  ghost predicate TriedTo(t: Sys, next: nat, offset: nat, best: int) {
    && |t.procs| == NPROC && next < NPROC && offset <= NPROC
    && forall j :: 0 <= j < NPROC && CanRun(t.procs[j], best) ==> Distance(next, j) >= offset
  }

  lemma TryOn(t: Sys, next: nat, offset: nat, best: int, k: nat)
    requires TriedTo(t, next, offset, best) && offset < NPROC && k == (next + offset) % NPROC
    ensures Distance(next, k) == offset && k < NPROC
    ensures !CanRun(t.procs[k], best) ==> TriedTo(t, next, offset + 1, best)
  {
    CyclicIndex(next, offset);
    forall j | 0 <= j < NPROC && Distance(next, j) == offset ensures j == k {
      DistanceInjective(next, j, k);
    }
  }

  // From the start of the second scan to the dispatch.
  lemma PickStretch(s: Sys, c: nat, best: int) returns (ss: seq<Sys>, steps: seq<Step>, t: Sys, k: nat)
    requires c < |s.cores| && s.cores[c].next < NPROC && s.cores[c].phase == Pick(0, best) && |s.procs| == NPROC
    requires IsBest(s.procs, best)
    ensures Stretch(ss, steps, s, t, c) && IsPick(s.procs, s.cores[c].next, k)
    ensures t == Sys(s.procs[k := s.procs[k].(state := RUNNING, waitTicks := 0)],
                     s.cores[c := Core(s.cores[c].next, Busy(k))])
  {
    var next, offset := s.cores[c].next, 0;
    ss, steps, t := [s], [], s;
    k := next;
    var w :| 0 <= w < NPROC && CanRun(s.procs[w], best);
    while !CanRun(s.procs[k], best)
      invariant 0 <= offset < NPROC && k == (next + offset) % NPROC && TriedTo(s, next, offset, best)
      invariant Stretch(ss, steps, s, t, c) && t == Move(s, c, Pick(offset, best))
      decreases NPROC - offset
    {
      TryOn(s, next, offset, best, k);
      assert Distance(next, w) < NPROC;
      ss, steps := Longer(ss, steps, s, t, c, Try(c));
      t := Do(t, Try(c));
      offset := offset + 1;
      k := (next + offset) % NPROC;
    }
    TryOn(s, next, offset, best, k);
    ss, steps := Longer(ss, steps, s, t, c, Try(c));
    t := Do(t, Try(c));
  }

  /** With nobody else at work, the steps of a CPU add up to Sched's round: it dispatches what Sched dispatches, or
      finds nothing runnable and is where it began. */
  lemma RoundIsStretch(s: Sys, c: nat) returns (ss: seq<Sys>, steps: seq<Step>, t: Sys, k: int)
    requires Inv(s) && c < |s.cores| && s.cores[c].phase == FRESH
    ensures Stretch(ss, steps, s, t, c)
    ensures k == -1 ==> t == s.(procs := VisitedAll(s.procs))
                        && forall i :: 0 <= i < NPROC ==> t.procs[i].state != RUNNABLE
    ensures k != -1 ==> 0 <= k < NPROC && t.cores == s.cores[c := Core(s.cores[c].next, Busy(k))]
                        && Dispatches(s.procs, s.cores[c].next, t.procs, (k + 1) % NPROC, k)
  {
    ss, steps, t := ScanAll(s, c);
    assert CoreOk(s.cores[c]);
    var scanned := t;
    ss, steps := Longer(ss, steps, s, t, c, EndScan(c));
    t := Do(t, EndScan(c));
    k := -1;
    if scanned.cores[c].phase.found {
      var ss', steps';
      var best := scanned.cores[c].phase.best;
      var picking := t;
      assert IsBest(t.procs, best);
      ss', steps', t, k := PickStretch(t, c, best);
      ss, steps := Join(ss, steps, s, picking, ss', steps', t, c);
    } else {
      assert t.cores == s.cores;
    }
  }

  lemma Join(ss: seq<Sys>, steps: seq<Step>, s: Sys, u: Sys, ss': seq<Sys>, steps': seq<Step>, t: Sys, c: nat)
    returns (xs: seq<Sys>, ys: seq<Step>)
    requires Stretch(ss, steps, s, u, c) && Stretch(ss', steps', u, t, c)
    ensures Stretch(xs, ys, s, t, c)
  {
    xs, ys := ss[..|steps|] + ss', steps + steps';
  }

  // ----- Waiting on any number of CPUs -----

  // t is runnable all along and nobody re-prioritises it.
  ghost predicate Waiting(ss: seq<Sys>, steps: seq<Step>, t: nat) {
    && IsRun(ss, steps) && t < NPROC
    && (forall i :: 0 <= i < |ss| ==> t < |ss[i].procs| && ss[i].procs[t].state == RUNNABLE)
    && (forall i :: 0 <= i < |steps| ==> !(steps[i].SetPriority? && steps[i].i == t))
  }

  ghost function Visits(ss: seq<Sys>, steps: seq<Step>, t: nat, n: nat): nat
    requires n <= |steps| && n <= |ss|
  {
    if n == 0 then 0 else Visits(ss, steps, t, n - 1) + if VisitsT(ss[n - 1], steps[n - 1], t) then 1 else 0
  }

  lemma OnlyVisitsChange(s: Sys, step: Step, t: nat)
    requires Inv(s) && Enabled(s, step) && t < NPROC && s.procs[t].state == RUNNABLE
    requires Do(s, step).procs[t].state == RUNNABLE && !(step.SetPriority? && step.i == t)
    ensures Do(s, step).procs[t] == if VisitsT(s, step, t) then Visited(s.procs[t]) else s.procs[t]
  {
  }

  lemma StepChanges(ss: seq<Sys>, steps: seq<Step>, t: nat, i: nat)
    requires Waiting(ss, steps, t) && i < |steps|
    ensures var p, p' := ss[i].procs[t], ss[i + 1].procs[t];
            p' == (if VisitsT(ss[i], steps[i], t) then Visited(p) else p) && p.state == RUNNABLE
              && PriorityValid(p.priority)
  {
    RunInv(ss, steps, i);
    assert ss[i + 1] == Do(ss[i], steps[i]) && ss[i + 1].procs[t].state == RUNNABLE;
    assert ProcOk(ss[i].procs[t]);
    OnlyVisitsChange(ss[i], steps[i], t);
  }

  /** Aging on any number of CPUs is exact: the priority of a waiting process is a function of the scan visits. */
  lemma {:induction false} AgedExactly(ss: seq<Sys>, steps: seq<Step>, t: nat, n: nat)
    requires Waiting(ss, steps, t) && n <= |steps|
    ensures AgedBy(ss[0].procs[t], Visits(ss, steps, t, n), ss[n].procs[t])
    decreases n
  {
    RunInv(ss, steps, 0);
    assert ProcOk(ss[0].procs[t]);
    if n == 0 {
      AgedStart(ss[0].procs[t]);
    } else {
      AgedExactly(ss, steps, t, n - 1);
      StepChanges(ss, steps, t, n - 1);
      AgedStep(ss[0].procs[t], Visits(ss, steps, t, n - 1), ss[n - 1].procs[t]);
    }
  }

  /** A waiting process of priority p is at priority 0 exactly if it was there from the start or has waited 50*p + 1
      ticks. */
  lemma AgedToTop(ss: seq<Sys>, steps: seq<Step>, t: nat)
    requires Waiting(ss, steps, t)
    ensures ss[|steps|].procs[t].priority == 0 <==>
            ss[0].procs[t].priority == 0 ||
            Counted(ss[0].procs[t]) + Visits(ss, steps, t, |steps|) >= AGING_INTERVAL * ss[0].procs[t].priority + 1
  {
    AgedExactly(ss, steps, t, |steps|);
    RunInv(ss, steps, 0);
    assert ProcOk(ss[0].procs[t]);
  }

  // Step `step` of CPU c dispatches a process other than t.
  predicate DispatchesOther(s: Sys, step: Step, c: nat, t: nat) {
    step == Try(c) && Enabled(s, step) && CanRun(s.procs[Target(s, c)], s.cores[c].phase.best) && Target(s, c) != t
  }

  ghost function OtherDispatches(ss: seq<Sys>, steps: seq<Step>, c: nat, t: nat, n: nat): nat
    requires n <= |steps| && n <= |ss|
  {
    if n == 0 then 0
    else OtherDispatches(ss, steps, c, t, n - 1) + if DispatchesOther(ss[n - 1], steps[n - 1], c, t) then 1 else 0
  }

  // How many other processes CPU c can still dispatch before t, which waits at priority 0.  NPROC
  // covers a scan that began too early to see t at priority 0.
  function OthersLeft(core: Core, t: nat): int {
    match core.phase
    case Busy(k) => Distance((k + 1) % NPROC, t)
    case Scan(i, best, found) => if i > t && best != 0 then NPROC else Distance(core.next, t)
    case Pick(offset, best) => if best == 0 && offset <= Distance(core.next, t) then Distance(core.next, t) else NPROC
  }

  lemma LeftRange(core: Core, t: nat)
    requires CoreOk(core) && t < NPROC
    ensures 0 <= OthersLeft(core, t) <= NPROC
  {
  }

  // A turn of the second scan.
  lemma OthersTry(s: Sys, c: nat, t: nat)
    requires Inv(s) && Enabled(s, Try(c)) && t < NPROC && s.procs[t].state == RUNNABLE && s.procs[t].priority == 0
    requires Do(s, Try(c)).procs[t].state == RUNNABLE
    ensures OthersLeft(Do(s, Try(c)).cores[c], t)
            + (if DispatchesOther(s, Try(c), c, t) then 1 else 0) <= OthersLeft(s.cores[c], t)
  {
    assert CoreOk(s.cores[c]);
    CyclicIndex(s.cores[c].next, s.cores[c].phase.offset);
  }

  // A turn of the first scan.
  lemma OthersVisit(s: Sys, c: nat, t: nat)
    requires Inv(s) && Enabled(s, Visit(c)) && t < NPROC && s.procs[t].state == RUNNABLE && s.procs[t].priority == 0
    ensures OthersLeft(Do(s, Visit(c)).cores[c], t) <= OthersLeft(s.cores[c], t)
  {
    assert CoreOk(s.cores[c]) && ProcOk(s.procs[s.cores[c].phase.i]);
  }

  lemma OthersStep(s: Sys, step: Step, c: nat, t: nat)
    requires Inv(s) && Enabled(s, step) && t < NPROC && c < |s.cores|
    requires s.procs[t].state == RUNNABLE && s.procs[t].priority == 0
    requires Do(s, step).procs[t].state == RUNNABLE
    ensures OthersLeft(Do(s, step).cores[c], t)
            + (if DispatchesOther(s, step, c, t) then 1 else 0) <= OthersLeft(s.cores[c], t)
    ensures 0 <= OthersLeft(s.cores[c], t) <= NPROC
  {
    assert CoreOk(s.cores[c]);
    LeftRange(s.cores[c], t);
    if step == Try(c) {
      OthersTry(s, c, t);
    } else if step == Visit(c) {
      OthersVisit(s, c, t);
    }
  }

  lemma {:induction false} OthersBound(ss: seq<Sys>, steps: seq<Step>, c: nat, t: nat, n: nat)
    requires Waiting(ss, steps, t) && c < |ss[0].cores| && ss[0].procs[t].priority == 0 && n <= |steps|
    ensures |ss[n].cores| == |ss[0].cores| && ss[n].procs[t].priority == 0
    ensures OthersLeft(ss[n].cores[c], t) + OtherDispatches(ss, steps, c, t, n) <= OthersLeft(ss[0].cores[c], t)
    decreases n
  {
    if n > 0 {
      OthersBound(ss, steps, c, t, n - 1);
      RunInv(ss, steps, n - 1);
      assert ss[n] == Do(ss[n - 1], steps[n - 1]) && ss[n].procs[t].state == RUNNABLE;
      OnlyVisitsChange(ss[n - 1], steps[n - 1], t);
      OthersStep(ss[n - 1], steps[n - 1], c, t);
    }
  }

  /** Once a waiting process is at priority 0, each CPU dispatches at most NPROC other processes
      before that process runs. */
  lemma AtMostNprocOthers(ss: seq<Sys>, steps: seq<Step>, c: nat, t: nat)
    requires Waiting(ss, steps, t) && c < |ss[0].cores| && ss[0].procs[t].priority == 0
    ensures OtherDispatches(ss, steps, c, t, |steps|) <= NPROC
  {
    OthersBound(ss, steps, c, t, |steps|);
    RunInv(ss, steps, 0);
    RunInv(ss, steps, |steps|);
    assert CoreOk(ss[0].cores[c]) && CoreOk(ss[|steps|].cores[c]);
  }
}
