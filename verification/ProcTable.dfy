/** sleep_prepare, sleep, wakeup, kkill, allocproc and freeproc on the process table itself, and the steps of
    module Monitor that they are. */
module ProcTable {
  import Monitor
  import opened Sched

  datatype Slot = Slot(state: State, pid: int, chan: int, killed: bool)

  // What a wakeup on chan does to one process.
  function Wake(p: Slot, chan: int): Slot {
    if p.chan == chan then p.(chan := 0, state := if p.state == SLEEPING then RUNNABLE else p.state) else p
  }

  function Killed(p: Slot): Slot {
    p.(killed := true, state := if p.state == SLEEPING then RUNNABLE else p.state)
  }

  // A slot is in use or has pid 0; pids in use differ and are older than nextpid.
  ghost predicate Inv(procs: seq<Slot>, nextpid: int) {
    && nextpid > 0
    && (forall i :: 0 <= i < |procs| ==>
                    (if procs[i].state == UNUSED then procs[i].pid == 0 else 0 < procs[i].pid < nextpid))
    && (forall i, j :: 0 <= i < j < |procs| && procs[i].pid == procs[j].pid ==> procs[i].state == UNUSED)
  }

  class Processes {
    var procs: seq<Slot>
    var nextpid: int

    ghost predicate Valid()
      reads this
    {
      Inv(procs, nextpid)
    }

    constructor (nproc: nat)
      ensures Valid() && |procs| == nproc
    {
      procs := seq(nproc, _ => Slot(UNUSED, 0, 0, false));
      nextpid := 1;
    }

    // The first free slot gets a pid that no slot has; -1 if there is none.  The rest of allocproc may fail.
    method Allocproc(enoughMemory: bool) returns (i: int)
      requires Valid()
      modifies this
      ensures Valid() && |procs| == |old(procs)| && nextpid >= old(nextpid)
      ensures i == -1 ==> (forall j :: 0 <= j < |procs| && old(procs)[j].state != UNUSED ==> procs[j] == old(procs)[j])
      ensures i == -1 && enoughMemory ==>
              procs == old(procs) && forall j :: 0 <= j < |procs| ==> procs[j].state != UNUSED
      ensures i != -1 ==> 0 <= i < |procs| && old(procs)[i].state == UNUSED && procs == old(procs)[i := procs[i]]
      ensures i != -1 ==> enoughMemory && forall j :: 0 <= j < i ==> old(procs)[j].state != UNUSED
      ensures i != -1 ==> procs[i] == old(procs)[i].(state := USED, pid := old(nextpid))
      ensures i != -1 ==> forall j :: 0 <= j < |procs| && j != i ==> procs[j].pid != procs[i].pid
    {
      i := 0;
      while i < |procs|
        invariant 0 <= i <= |procs| && forall j :: 0 <= j < i ==> procs[j].state != UNUSED
      {
        if procs[i].state == UNUSED {
          procs, nextpid := procs[i := procs[i].(pid := nextpid, state := USED)], nextpid + 1;
          if !enoughMemory {
            Freeproc(i);
            i := -1;
          }
          return;
        }
        i := i + 1;
      }
      return -1;
    }

    method Freeproc(i: int)
      requires Valid() && 0 <= i < |procs|
      modifies `procs
      ensures Valid() && procs == old(procs)[i := Slot(UNUSED, 0, 0, false)]
    {
      procs := procs[i := procs[i].(pid := 0, chan := 0, killed := false, state := UNUSED)];
    }

    method SleepPrepare(me: int, chan: int)
      requires Valid() && 0 <= me < |procs| && chan != 0
      modifies `procs
      ensures Valid() && procs == Prepared(old(procs), me, chan)
      ensures procs == old(procs)[me := procs[me]] && procs[me].chan == chan && procs[me].state == old(procs)[me].state
              && procs[me].pid == old(procs)[me].pid && procs[me].killed == old(procs)[me].killed
    {
      procs := procs[me := procs[me].(chan := chan)];
    }

    // The process sleeps exactly if no wakeup took its registration away.
    method Sleep(me: int)
      requires Valid() && 0 <= me < |procs| && procs[me].state == RUNNING
      modifies `procs
      ensures Valid() && procs == Slept(old(procs), me)
      ensures procs == old(procs)[me := procs[me]] && SameButState(old(procs)[me], procs[me])
      ensures procs[me].state == if old(procs)[me].chan != 0 then SLEEPING else RUNNING
    {
      if procs[me].chan != 0 {
        procs := procs[me := procs[me].(state := SLEEPING)];
      }
    }

    method Wakeup(chan: int)
      requires Valid()
      modifies `procs
      ensures Valid() && procs == WokenTo(old(procs), chan, |old(procs)|)
      ensures |procs| == |old(procs)|
      ensures forall i :: 0 <= i < |procs| && old(procs)[i].chan != chan ==> procs[i] == old(procs)[i]
      ensures forall i :: 0 <= i < |procs| && old(procs)[i].chan == chan ==>
                procs[i].chan == 0 && procs[i].pid == old(procs)[i].pid && procs[i].killed == old(procs)[i].killed
                && procs[i].state == if old(procs)[i].state == SLEEPING then RUNNABLE else old(procs)[i].state
      ensures chan != 0 ==> forall i :: 0 <= i < |procs| ==> procs[i].chan != chan
    {
      var i := 0;
      while i < |procs|
        invariant 0 <= i <= |procs| == |old(procs)| && Valid()
        invariant forall j :: 0 <= j < |procs| ==>
                              procs[j] == if j < i then Wake(old(procs)[j], chan) else old(procs)[j]
      {
        if procs[i].chan == chan {
          var p := procs[i].(chan := 0);
          if p.state == SLEEPING {
            p := p.(state := RUNNABLE);
          }
          procs := procs[i := p];
        }
        i := i + 1;
      }
      assert procs == WokenTo(old(procs), chan, |old(procs)|);
    }

    // Mark the first slot with this pid.
    method Kkill(pid: int) returns (r: int, ghost at: int)
      requires Valid()
      modifies `procs
      ensures Valid() && (r == 0 || r == -1)
      ensures r == -1 ==> procs == old(procs) && forall i :: 0 <= i < |procs| ==> procs[i].pid != pid
      ensures r == 0 ==> FirstWith(old(procs), pid, at) && procs == KilledAt(old(procs), at)
      ensures r == 0 ==> procs == old(procs)[at := procs[at]] && procs[at].killed && procs[at].pid == pid
                         && procs[at].chan == old(procs)[at].chan
      ensures r == 0 ==> procs[at].state == if old(procs)[at].state == SLEEPING then RUNNABLE else old(procs)[at].state
    {
      var i := 0;
      while i < |procs|
        invariant 0 <= i <= |procs| && procs == old(procs) && forall j :: 0 <= j < i ==> procs[j].pid != pid
      {
        if procs[i].pid == pid {
          assert FirstWith(procs, pid, i);
          var p := procs[i].(killed := true);
          if p.state == SLEEPING {
            p := p.(state := RUNNABLE);
          }
          procs := procs[i := p];
          return 0, i;
        }
        i := i + 1;
      }
      return -1, -1;
    }
  }

  predicate SameButState(p: Slot, q: Slot) {
    q.chan == p.chan && q.pid == p.pid && q.killed == p.killed
  }

  ghost predicate FirstWith(procs: seq<Slot>, pid: int, i: int) {
    0 <= i < |procs| && procs[i].pid == pid && forall j :: 0 <= j < i ==> procs[j].pid != pid
  }

  /** kkill reaches a process in use, and the only one with that pid, unless it is called with pid 0 while a
      slot is free. */
  lemma KillReachesProcess(procs: seq<Slot>, nextpid: int, pid: int, i: int)
    requires Inv(procs, nextpid) && FirstWith(procs, pid, i)
    ensures procs[i].state != UNUSED <==> pid != 0
    ensures pid != 0 ==> forall j :: 0 <= j < |procs| && procs[j].pid == pid ==> j == i
  {
    if pid != 0 {
      forall j | 0 <= j < |procs| && procs[j].pid == pid ensures j == i {
        assert i <= j;
      }
    }
  }

  /** Process 0 does not exist, yet killing it succeeds: a free slot is marked, and the next process made in it
      starts out killed. */
  lemma KillZero(procs: seq<Slot>, nextpid: int, i: int)
    requires Inv(procs, nextpid) && FirstWith(procs, 0, i)
    ensures var marked := procs[i := Killed(procs[i])];
            Inv(marked, nextpid) && marked[i].(state := USED, pid := nextpid).killed
    ensures FirstWith([Slot(UNUSED, 0, 0, false)], 0, 0) && Inv([Slot(UNUSED, 0, 0, false)], 1)
  {
  }

  // ----- The steps of the sleep protocol -----

  // The slot shows what the protocol's process p is: asleep exactly if SLEEPING, on the same channel.  Anyone under way
  // in the protocol can run or is running.
  predicate Shows(s: Slot, p: Monitor.Proc) {
    && s.chan == p.chan && (s.state == SLEEPING <==> p.phase.Asleep?)
    && (!p.phase.Out? && !p.phase.Asleep? ==> s.state == RUNNABLE || s.state == RUNNING)
  }

  ghost predicate Shown<S>(procs: seq<Slot>, s: Monitor.Sys<S>) {
    |procs| == |s.procs| && forall i :: 0 <= i < |procs| ==> Shows(procs[i], s.procs[i])
  }

  // What the methods above do to the table.
  function Prepared(procs: seq<Slot>, me: nat, chan: int): seq<Slot> {
    if me < |procs| then procs[me := procs[me].(chan := chan)] else procs
  }

  function Slept(procs: seq<Slot>, me: nat): seq<Slot> {
    if me < |procs| && procs[me].chan != 0 then procs[me := procs[me].(state := SLEEPING)] else procs
  }

  function KilledAt(procs: seq<Slot>, i: nat): seq<Slot> {
    if i < |procs| then procs[i := Killed(procs[i])] else procs
  }

  // wakeup's loop after n turns.
  function WokenTo(procs: seq<Slot>, chan: int, n: nat): seq<Slot> {
    seq(|procs|, i requires 0 <= i < |procs| => if i < n then Wake(procs[i], chan) else procs[i])
  }

  /** SleepPrepare is the step Prepare, Sleep the step Sleep. */
  lemma SleepIsSteps<S>(procs: seq<Slot>, s: Monitor.Sys<S>, me: nat, chan: int)
    requires Shown(procs, s)
    ensures Monitor.Enabled(s, Monitor.Prepare(me, chan)) ==>
            Shown(Prepared(procs, me, chan), Monitor.Do(s, Monitor.Prepare(me, chan)))
    ensures Monitor.Enabled(s, Monitor.Sleep(me)) ==> Shown(Slept(procs, me), Monitor.Do(s, Monitor.Sleep(me)))
  {
  }

  /** Kkill of a sleeper is the step Kill; of anyone else it is no step of the protocol. */
  lemma KillIsStep<S>(procs: seq<Slot>, s: Monitor.Sys<S>, i: nat)
    requires Shown(procs, s) && i < |procs|
    ensures if procs[i].state == SLEEPING
            then Monitor.Enabled(s, Monitor.Kill(i)) && Shown(KilledAt(procs, i), Monitor.Do(s, Monitor.Kill(i)))
            else Shown(KilledAt(procs, i), s)
  {
  }

  // A stretch of a run of the protocol.
  ghost predicate Stretch<S>(ss: seq<Monitor.Sys<S>>, steps: seq<Monitor.Step<S>>) {
    && |ss| == |steps| + 1
    && forall i :: 0 <= i < |steps| ==> Monitor.Enabled(ss[i], steps[i]) && ss[i + 1] == Monitor.Do(ss[i], steps[i])
  }

  lemma Longer<S>(ss: seq<Monitor.Sys<S>>, steps: seq<Monitor.Step<S>>, step: Monitor.Step<S>)
    requires Stretch(ss, steps) && Monitor.Enabled(ss[|steps|], step)
    ensures Stretch(ss + [Monitor.Do(ss[|steps|], step)], steps + [step])
  {
  }

  lemma OneVisit<S>(procs: seq<Slot>, s: Monitor.Sys<S>, me: nat, chan: int, n: nat, woken: set<int>)
    requires n < |procs| && me < |procs| && Shown(WokenTo(procs, chan, n), s)
             && s.procs[me].phase == Monitor.Waking(chan, n, woken)
    ensures Monitor.Enabled(s, Monitor.Visit(me))
    ensures var t := Monitor.Do(s, Monitor.Visit(me));
            Shown(WokenTo(procs, chan, n + 1), t) && t.procs[me].phase == Monitor.Waking(chan, n + 1, woken)
  {
    var t := Monitor.Do(s, Monitor.Visit(me));
    var ps, ps' := WokenTo(procs, chan, n), WokenTo(procs, chan, n + 1);
    forall i | 0 <= i < |procs| ensures Shows(ps'[i], t.procs[i]) {
      assert Shows(ps[i], s.procs[i]);
    }
  }

  /** Wakeup's loop is a stretch of a run: StartWake, one Visit for each slot in turn, EndWake; at the end the table
      that Wakeup leaves shows the protocol's state. */
  lemma WakeupIsStretch<S>(procs: seq<Slot>, s: Monitor.Sys<S>, me: nat, data: S, chan: int)
    returns (ss: seq<Monitor.Sys<S>>, steps: seq<Monitor.Step<S>>)
    requires Shown(procs, s) && Monitor.Enabled(s, Monitor.StartWake(me, data, chan))
    ensures Stretch(ss, steps) && ss[0] == s && Shown(WokenTo(procs, chan, |procs|), ss[|steps|])
            && ss[|steps|].procs[me].phase.Inside?
    ensures steps == [Monitor.StartWake(me, data, chan)] + seq(|procs|, _ => Monitor.Visit(me)) + [Monitor.EndWake(me)]
  {
    var woken := s.procs[me].phase.woken;
    ss, steps := [s, Monitor.Do(s, Monitor.StartWake(me, data, chan))], [Monitor.StartWake(me, data, chan)];
    var n := 0;
    assert WokenTo(procs, chan, 0) == procs;
    while n < |procs|
      invariant 0 <= n <= |procs| && Stretch(ss, steps) && ss[0] == s && Shown(WokenTo(procs, chan, n), ss[|steps|])
      invariant ss[|steps|].procs[me].phase == Monitor.Waking(chan, n, woken)
      invariant steps == [Monitor.StartWake(me, data, chan)] + seq(n, _ => Monitor.Visit(me))
    {
      OneVisit(procs, ss[|steps|], me, chan, n, woken);
      Longer(ss, steps, Monitor.Visit(me));
      ss, steps := ss + [Monitor.Do(ss[|steps|], Monitor.Visit(me))], steps + [Monitor.Visit(me)];
      n := n + 1;
    }
    var last := ss[|steps|];
    Longer(ss, steps, Monitor.EndWake(me));
    ss, steps := ss + [Monitor.Do(last, Monitor.EndWake(me))], steps + [Monitor.EndWake(me)];
    forall i | 0 <= i < |procs| ensures Shows(WokenTo(procs, chan, |procs|)[i], ss[|steps|].procs[i]) {
      assert Shows(WokenTo(procs, chan, |procs|)[i], last.procs[i]);
    }
  }
}
