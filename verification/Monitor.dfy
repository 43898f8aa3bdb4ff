/** The split sleep protocol of kernel/proc.c: sleep_prepare registers on a channel while the
    caller holds the spinlock that guards its condition, the lock is released, and sleep() goes to
    sleep only if no wakeup has visited in between.

    Sys<S> is any number of processes using the protocol around one spinlock that guards data of
    type S.  `blocked(data, chan, q)` is the condition on which q waits on chan. */
module Monitor {
  import opened Common

  // Where a process is.  `woken` are the channels it has woken since it took the spinlock.
  datatype Phase =
    | Out                                            // not waiting and not holding the spinlock
    | Enter                                          // about to acquire the spinlock
    | Inside(woken: set<int>)                        // holding it
    | Registered                                     // holding it, sleep_prepare done
    | Parting                                        // released it, sleep() not yet called
    | Asleep                                         // SLEEPING
    | Waking(c: int, i: nat, woken: set<int>)        // holding it, in wakeup(c) at process i

  datatype Proc = Proc(phase: Phase, chan: int)

  datatype Sys<S> = Sys(data: S, spin: Option<nat>, procs: seq<Proc>)

  datatype Step<S> =
    | Arrive(p: nat)
    | Acquire(p: nat)
    | Update(p: nat, data: S)                  // a change of the data while holding the spinlock
    | Prepare(p: nat, c: int)                  // sleep_prepare(c)
    | Part(p: nat)                             // release before sleep()
    | Sleep(p: nat)                            // sleep()'s critical section
    | StartWake(p: nat, data: S, c: int)       // a change of the data, then wakeup(c) begins
    | Visit(p: nat)                            // wakeup's critical section for one process
    | EndWake(p: nat)
    | Leave(p: nat)                            // release
    | Kill(q: nat)                             // kkill makes a sleeper runnable and leaves its chan
    | Elsewhere(p: nat, c: int)                // sleep_prepare on some other business
    | Background(data: S)                      // a change of the data without the spinlock

  // What wakeup(c) does to one process.
  function Woken(p: Proc, c: int): Proc {
    if p.chan == c then Proc(if p.phase == Asleep then Enter else p.phase, 0) else p
  }

  predicate Enabled<S>(s: Sys<S>, step: Step<S>) {
    match step
    case Arrive(p) => p < |s.procs| && s.procs[p].phase == Out
    case Acquire(p) => p < |s.procs| && s.procs[p].phase == Enter && s.spin == None
    case Update(p, data) => p < |s.procs| && s.procs[p].phase.Inside?
    case Prepare(p, c) => p < |s.procs| && s.procs[p].phase.Inside? && c != 0
    case Part(p) => p < |s.procs| && s.procs[p].phase == Registered
    case Sleep(p) => p < |s.procs| && s.procs[p].phase == Parting
    case StartWake(p, data, c) => p < |s.procs| && s.procs[p].phase.Inside? && c != 0
    case Visit(p) => p < |s.procs| && s.procs[p].phase.Waking? && s.procs[p].phase.i < |s.procs|
    case EndWake(p) => p < |s.procs| && s.procs[p].phase.Waking? && s.procs[p].phase.i == |s.procs|
    case Leave(p) => p < |s.procs| && s.procs[p].phase.Inside?
    case Kill(q) => q < |s.procs| && s.procs[q].phase == Asleep
    case Elsewhere(p, c) => p < |s.procs| && s.procs[p].phase == Out
    case Background(data) => true
  }

  function Go<S>(s: Sys<S>, p: nat, phase: Phase): Sys<S>
    requires p < |s.procs|
  {
    s.(procs := s.procs[p := s.procs[p].(phase := phase)])
  }

  function DoVisit<S>(s: Sys<S>, p: nat): Sys<S>
    requires Enabled(s, Visit(p))
  {
    var Waking(c, i, woken) := s.procs[p].phase;
    Go(s.(procs := s.procs[i := Woken(s.procs[i], c)]), p, Waking(c, i + 1, woken))
  }

  function Do<S>(s: Sys<S>, step: Step<S>): Sys<S>
    requires Enabled(s, step)
  {
    match step
    case Arrive(p) => Go(s, p, Enter)
    case Acquire(p) => Go(s, p, Inside({})).(spin := Some(p))
    case Update(p, data) => s.(data := data)
    case Prepare(p, c) => s.(procs := s.procs[p := Proc(Registered, c)])
    case Part(p) => Go(s, p, Parting).(spin := None)
    case Sleep(p) => Go(s, p, if s.procs[p].chan != 0 then Asleep else Enter)
    case StartWake(p, data, c) => Go(s, p, Waking(c, 0, s.procs[p].phase.woken)).(data := data)
    case Visit(p) => DoVisit(s, p)
    case EndWake(p) => Go(s, p, Inside(s.procs[p].phase.woken + {s.procs[p].phase.c}))
    case Leave(p) => Go(s, p, Out).(spin := None)
    case Kill(q) => Go(s, q, Enter)
    case Elsewhere(p, c) => s.(procs := s.procs[p := s.procs[p].(chan := c)])
    case Background(data) => s.(data := data)
  }

  // The discipline that users of the protocol follow.  They go to sleep only when their condition
  // is false, and a change that ends someone's wait is made while the spinlock is held and before
  // or after a wakeup of that channel in the same critical section.
  ghost predicate Keeps<S>(blocked: (S, int, nat) -> bool, d: S, d': S, p: int, free: set<int>) {
    forall c, q :: q != p && c !in free && blocked(d, c, q) ==> blocked(d', c, q)
  }

  ghost predicate Rule<S>(blocked: (S, int, nat) -> bool, s: Sys<S>, step: Step<S>)
    requires Enabled(s, step)
  {
    match step
    case Prepare(p, c) => blocked(s.data, c, p)
    case Update(p, data) => Keeps(blocked, s.data, data, p, s.procs[p].phase.woken)
    case StartWake(p, data, c) => Keeps(blocked, s.data, data, p, s.procs[p].phase.woken + {c})
    case Background(data) => Keeps(blocked, s.data, data, -1, {})
    case _ => true
  }

  // ----- The invariant -----

  predicate Holding(p: Proc) {
    p.phase.Inside? || p.phase.Registered? || p.phase.Waking?
  }

  predicate Waits(p: Proc) {
    (p.phase.Registered? || p.phase.Parting? || p.phase.Asleep?) && p.chan != 0
  }

  // Process p is in wakeup(c) and has not come to process q yet.
  predicate WillVisit(p: Proc, c: int, q: int) {
    p.phase.Waking? && p.phase.c == c && p.phase.i <= q
  }

  ghost predicate SpinInv<S>(s: Sys<S>) {
    && (s.spin.Some? ==> s.spin.value < |s.procs| && Holding(s.procs[s.spin.value]))
    && (forall p :: 0 <= p < |s.procs| && Holding(s.procs[p]) ==> s.spin == Some(p))
    && (forall q :: 0 <= q < |s.procs| && s.procs[q].phase.Asleep? ==> s.procs[q].chan != 0)
  }

  // Nobody waits on a channel that the lock holder has woken, or already visited.
  predicate Apart(p: Proc, q: int, w: Proc) {
    Waits(w) ==>
      && (p.phase.Inside? || p.phase.Waking? ==> w.chan !in p.phase.woken)
      && (p.phase.Waking? && w.chan == p.phase.c ==> p.phase.i <= q)
  }

  ghost predicate WokenInv<S>(s: Sys<S>) {
    forall p, q :: 0 <= p < |s.procs| && 0 <= q < |s.procs| ==> Apart(s.procs[p], q, s.procs[q])
  }

  // Whoever waits has a reason to wait, or is about to be visited.
  ghost predicate WaitInv<S>(blocked: (S, int, nat) -> bool, s: Sys<S>) {
    forall q :: 0 <= q < |s.procs| && Waits(s.procs[q]) ==>
      || blocked(s.data, s.procs[q].chan, q)
      || exists p :: 0 <= p < |s.procs| && WillVisit(s.procs[p], s.procs[q].chan, q)
  }

  ghost predicate Inv<S>(blocked: (S, int, nat) -> bool, s: Sys<S>) {
    SpinInv(s) && WokenInv(s) && WaitInv(blocked, s)
  }

  lemma SpinStep<S>(s: Sys<S>, step: Step<S>)
    requires SpinInv(s) && Enabled(s, step)
    ensures SpinInv(Do(s, step))
  {
  }

  lemma ApartStep<S>(s: Sys<S>, step: Step<S>, p: nat, q: nat)
    requires SpinInv(s) && Enabled(s, step) && p < |s.procs| && q < |s.procs| && Apart(s.procs[p], q, s.procs[q])
    ensures Apart(Do(s, step).procs[p], q, Do(s, step).procs[q])
  {
  }

  lemma WokenStep<S>(s: Sys<S>, step: Step<S>)
    requires SpinInv(s) && WokenInv(s) && Enabled(s, step)
    ensures WokenInv(Do(s, step))
  {
    var t := Do(s, step);
    forall p, q | 0 <= p < |t.procs| && 0 <= q < |t.procs| ensures Apart(t.procs[p], q, t.procs[q]) {
      ApartStep(s, step, p, q);
    }
  }

  // The reason of one waiting process survives a step.
  lemma WaitStep<S>(blocked: (S, int, nat) -> bool, s: Sys<S>, step: Step<S>, q: nat)
    requires Inv(blocked, s) && Enabled(s, step) && Rule(blocked, s, step)
    requires var t := Do(s, step); q < |t.procs| && Waits(t.procs[q])
    ensures var t := Do(s, step);
            || blocked(t.data, t.procs[q].chan, q)
            || exists p :: 0 <= p < |t.procs| && WillVisit(t.procs[p], t.procs[q].chan, q)
  {
    var t := Do(s, step);
    if !(step.Prepare? && step.p == q) {
      var c := s.procs[q].chan;
      assert Waits(s.procs[q]) && t.procs[q].chan == c;
      if p :| 0 <= p < |s.procs| && WillVisit(s.procs[p], c, q) {
        assert s.spin == Some(p);
        assert WillVisit(t.procs[p], c, q);
      } else if step.StartWake? && step.c == c {
        assert WillVisit(t.procs[step.p], c, q);
      } else {
        assert blocked(s.data, c, q);
      }
    }
  }

  lemma InvStep<S>(blocked: (S, int, nat) -> bool, s: Sys<S>, step: Step<S>)
    requires Inv(blocked, s) && Enabled(s, step) && Rule(blocked, s, step)
    ensures Inv(blocked, Do(s, step))
  {
    SpinStep(s, step);
    WokenStep(s, step);
    var t := Do(s, step);
    forall q | 0 <= q < |t.procs| && Waits(t.procs[q])
      ensures || blocked(t.data, t.procs[q].chan, q)
              || exists p :: 0 <= p < |t.procs| && WillVisit(t.procs[p], t.procs[q].chan, q)
    {
      WaitStep(blocked, s, step, q);
    }
  }

  // ----- Main results -----

  predicate Init<S>(s: Sys<S>) {
    s.spin == None && forall p :: 0 <= p < |s.procs| ==> s.procs[p] == Proc(Out, 0)
  }

  ghost predicate IsRun<S>(blocked: (S, int, nat) -> bool, ss: seq<Sys<S>>, steps: seq<Step<S>>) {
    && |ss| == |steps| + 1 && Init(ss[0])
    && forall i :: 0 <= i < |steps| ==>
         Enabled(ss[i], steps[i]) && Rule(blocked, ss[i], steps[i]) && ss[i + 1] == Do(ss[i], steps[i])
  }

  lemma {:induction false} RunInv<S>(blocked: (S, int, nat) -> bool, ss: seq<Sys<S>>, steps: seq<Step<S>>, n: nat)
    requires IsRun(blocked, ss, steps) && n < |ss|
    ensures Inv(blocked, ss[n])
    decreases n
  {
    if n > 0 {
      RunInv(blocked, ss, steps, n - 1);
      InvStep(blocked, ss[n - 1], steps[n - 1]);
    }
  }

  /** No lost wakeup: in every interleaving, whenever the spinlock is free, a sleeping process still
      has a reason to sleep. */
  lemma NoLostWakeup<S>(blocked: (S, int, nat) -> bool, ss: seq<Sys<S>>, steps: seq<Step<S>>, n: nat, q: nat)
    requires IsRun(blocked, ss, steps) && n < |ss|
    requires ss[n].spin == None && q < |ss[n].procs| && ss[n].procs[q].phase == Asleep
    ensures blocked(ss[n].data, ss[n].procs[q].chan, q)
  {
    RunInv(blocked, ss, steps, n);
    assert Waits(ss[n].procs[q]);
  }

  // Process q is past its registration and a wakeup has taken the registration away.
  predicate Signalled(p: Proc) {
    p.phase != Asleep && (p.phase.Registered? || p.phase.Parting? ==> p.chan == 0)
  }

  lemma SignalledStep<S>(s: Sys<S>, step: Step<S>, q: nat)
    requires Enabled(s, step) && q < |s.procs| && Signalled(s.procs[q])
    requires !(step.Prepare? && step.p == q)
    ensures Signalled(Do(s, step).procs[q])
  {
  }

  /** A wakeup of channel c that visits a process registered on c, asleep or not, makes its sleep()
      return: from that visit until its next sleep_prepare the process is never asleep. */
  lemma {:induction false} VisitIsNotLost<S>(blocked: (S, int, nat) -> bool, ss: seq<Sys<S>>, steps: seq<Step<S>>,
                                             m: nat, n: nat, q: nat)
    requires IsRun(blocked, ss, steps) && m < n < |ss| && q < |ss[m].procs|
    requires steps[m].Visit? && steps[m].p != q
    requires ss[m].procs[steps[m].p].phase.i == q && ss[m].procs[steps[m].p].phase.c == ss[m].procs[q].chan
    requires forall i :: m <= i < n ==> !(steps[i].Prepare? && steps[i].p == q)
    ensures q < |ss[n].procs| && Signalled(ss[n].procs[q])
    decreases n
  {
    if n == m + 1 {
      RunInv(blocked, ss, steps, m);
    } else {
      VisitIsNotLost(blocked, ss, steps, m, n - 1, q);
      SignalledStep(ss[n - 1], steps[n - 1], q);
    }
  }
}
