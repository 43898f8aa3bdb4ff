/** The scheduler of one CPU (kernel/proc.c, kernel/proc.h): aging, selection, and how long a
    runnable process can wait. */
module Sched {
  import opened Common

  const NPROC := 64
  const PRIORITY_MIN := 0
  const PRIORITY_MAX := 31
  const PRIORITY_DEFAULT := 10
  const AGING_INTERVAL := 50

  datatype State = UNUSED | USED | SLEEPING | RUNNABLE | RUNNING | ZOMBIE

  datatype Proc = Proc(state: State, pid: int, priority: int, waitTicks: nat)

  predicate PriorityValid(priority: int) {
    PRIORITY_MIN <= priority <= PRIORITY_MAX
  }

  predicate Table(procs: seq<Proc>) {
    |procs| == NPROC && forall i :: 0 <= i < NPROC ==> PriorityValid(procs[i].priority)
  }

  // One visit of the first scan: apply_aging, then one more tick of waiting.
  function ApplyAging(p: Proc): Proc {
    if p.state == RUNNABLE && p.waitTicks >= AGING_INTERVAL && PriorityValid(p.priority) && p.priority > PRIORITY_MIN
    then p.(priority := p.priority - 1, waitTicks := 0)
    else p
  }

  function Visited(p: Proc): Proc {
    var q := ApplyAging(p);
    if q.state == RUNNABLE then q.(waitTicks := (q.waitTicks + 1) % U32) else q
  }

  function VisitedAll(procs: seq<Proc>): (r: seq<Proc>)
    ensures |r| == |procs| && forall i :: 0 <= i < |procs| ==> r[i] == Visited(procs[i])
  {
    seq(|procs|, i requires 0 <= i < |procs| => Visited(procs[i]))
  }

  predicate CanRun(p: Proc, best: int) {
    p.state == RUNNABLE && p.priority == best
  }

  // The least priority number among the runnable processes.
  predicate IsBest(procs: seq<Proc>, best: int) {
    && (exists i :: 0 <= i < |procs| && CanRun(procs[i], best))
    && (forall i :: 0 <= i < |procs| && procs[i].state == RUNNABLE ==> best <= procs[i].priority)
  }

  // How far index i is from `next` in cyclic order.
  function Distance(next: int, i: int): int {
    if next <= i then i - next else i - next + NPROC
  }

  /** The specification of a dispatch: the first process in cyclic order from `next` among the
      runnable ones of least priority number. */
  predicate IsPick(procs: seq<Proc>, next: int, k: int) {
    && 0 <= k < |procs| && IsBest(procs, procs[k].priority) && procs[k].state == RUNNABLE
    && forall i :: 0 <= i < |procs| && CanRun(procs[i], procs[k].priority) ==> Distance(next, k) <= Distance(next, i)
  }

  lemma CyclicIndex(next: nat, offset: nat)
    requires next < NPROC && offset < NPROC
    ensures var i := (next + offset) % NPROC; 0 <= i < NPROC && Distance(next, i) == offset
  {
  }

  lemma DistanceInjective(next: nat, i: nat, j: nat)
    requires next < NPROC && i < NPROC && j < NPROC && Distance(next, i) == Distance(next, j)
    ensures i == j
  {
  }

  class Scheduler {
    var procs: seq<Proc>
    var nextIndex: nat

    ghost predicate Valid()
      reads this
    {
      Table(procs) && nextIndex < NPROC
    }

    // procinit, and the scheduler's initial next_index for this CPU.
    constructor (cpuid: nat)
      ensures Valid() && nextIndex == cpuid % NPROC
      ensures forall i :: 0 <= i < NPROC ==> procs[i] == Proc(UNUSED, 0, PRIORITY_DEFAULT, 0)
    {
      procs := seq(NPROC, _ => Proc(UNUSED, 0, PRIORITY_DEFAULT, 0));
      nextIndex := cpuid % NPROC;
    }

    // The first scan: age every process and find the best priority.
    method Scan() returns (best: int, found: bool)
      requires Valid()
      modifies `procs
      ensures Valid() && procs == VisitedAll(old(procs))
      ensures found <==> exists i :: 0 <= i < NPROC && procs[i].state == RUNNABLE
      ensures found ==> IsBest(procs, best)
    {
      best, found := PRIORITY_MAX + 1, false;
      var i := 0;
      while i < NPROC
        invariant 0 <= i <= NPROC && Table(procs)
        invariant forall j :: 0 <= j < NPROC ==> procs[j] == if j < i then Visited(old(procs[j])) else old(procs[j])
        invariant found ==> exists j :: 0 <= j < i && CanRun(procs[j], best)
        invariant !found ==> best == PRIORITY_MAX + 1
        invariant forall j :: 0 <= j < i && procs[j].state == RUNNABLE ==> found && best <= procs[j].priority
      {
        var p := ApplyAging(procs[i]);
        if p.state == RUNNABLE {
          p := p.(waitTicks := (p.waitTicks + 1) % U32);
          if p.priority < best {
            best := p.priority;
            found := true;
          }
        }
        procs := procs[i := p];
        assert p.state == RUNNABLE && p.priority == best ==> CanRun(procs[i], best);
        i := i + 1;
      }
      assert procs == VisitedAll(old(procs));
    }

    // The second scan: from next_index on, the first runnable process of the best priority.
    method Select(best: int) returns (k: nat)
      requires Valid() && IsBest(procs, best)
      ensures IsPick(procs, nextIndex, k)
    {
      k := 0;
      var offset := 0;
      while offset < NPROC
        invariant 0 <= offset <= NPROC
        invariant forall i :: 0 <= i < NPROC && CanRun(procs[i], best) ==> Distance(nextIndex, i) >= offset
      {
        k := (nextIndex + offset) % NPROC;
        CyclicIndex(nextIndex, offset);
        if procs[k].state == RUNNABLE && procs[k].priority == best {
          return;
        }
        forall i | 0 <= i < NPROC && Distance(nextIndex, i) == offset ensures i == k {
          DistanceInjective(nextIndex, i, k);
        }
        offset := offset + 1;
      }
      assert false;
    }

    /** One round of scheduler() on one CPU: no process is runnable, or the pick of the aged table
        is set running with its waiting time cleared. */
    method Round() returns (dispatched: int)
      requires Valid()
      modifies this
      ensures Valid()
      ensures dispatched < 0 ==> procs == VisitedAll(old(procs)) && nextIndex == old(nextIndex)
                                 && forall i :: 0 <= i < NPROC ==> procs[i].state != RUNNABLE
      ensures dispatched >= 0 ==> Dispatches(old(procs), old(nextIndex), procs, nextIndex, dispatched)
      ensures dispatched >= 0 ==> dispatched < NPROC && old(procs)[dispatched].state == RUNNABLE
                                  && procs[dispatched].state == RUNNING && procs[dispatched].waitTicks == 0
      ensures forall i :: 0 <= i < NPROC ==> procs[i].pid == old(procs)[i].pid
                                             && (i != dispatched ==> procs[i].state == old(procs)[i].state)
    {
      var best, found := Scan();
      if !found {
        return -1;
      }
      var k := Select(best);
      procs := procs[k := procs[k].(state := RUNNING, waitTicks := 0)];
      nextIndex := (k + 1) % NPROC;
      return k;
    }

    // ksetpriority
    method SetPriority(pid: int, priority: int) returns (r: int)
      requires Valid()
      modifies `procs
      ensures Valid() && (r == 0 || r == -1)
      ensures r == -1 ==> procs == old(procs)
                          && (pid <= 0 || !PriorityValid(priority)
                              || forall i :: 0 <= i < NPROC ==> !Names(procs[i], pid))
      ensures r == 0 ==>
        exists k :: 0 <= k < NPROC && Names(old(procs[k]), pid)
                    && (forall i :: 0 <= i < k ==> !Names(old(procs[i]), pid))
                    && procs == old(procs)[k := old(procs[k]).(priority := priority, waitTicks := 0)]
    {
      if pid <= 0 || !PriorityValid(priority) {
        return -1;
      }
      var i := 0;
      while i < NPROC
        invariant 0 <= i <= NPROC && procs == old(procs)
        invariant forall j :: 0 <= j < i ==> !Names(procs[j], pid)
      {
        if Names(procs[i], pid) {
          procs := procs[i := procs[i].(priority := priority, waitTicks := 0)];
          return 0;
        }
        i := i + 1;
      }
      return -1;
    }
  }

  predicate Names(p: Proc, pid: int) {
    p.state != UNUSED && p.pid == pid
  }

  // A round that dispatches process k.
  predicate Dispatches(procs: seq<Proc>, next: nat, procs': seq<Proc>, next': nat, k: int) {
    && var aged := VisitedAll(procs);
    && IsPick(aged, next, k)
    && procs' == aged[k := aged[k].(state := RUNNING, waitTicks := 0)]
    && next' == (k + 1) % NPROC
  }

  // ----- Waiting on one CPU -----

  // The scheduler's state at the start of a round.
  datatype Cpu = Cpu(procs: seq<Proc>, next: nat)

  ghost predicate Wf(c: Cpu) {
    Table(c.procs) && c.next < NPROC
  }

  // Round c dispatches k; then, until the next round c', anything may happen to every process
  // except t, which nobody re-prioritises.
  ghost predicate RoundThen(c: Cpu, c': Cpu, k: int, t: nat) {
    exists procs' {:trigger Dispatches(c.procs, c.next, procs', c'.next, k)} ::
      && Dispatches(c.procs, c.next, procs', c'.next, k)
      && t < |procs'| == |c'.procs| && c'.procs[t] == procs'[t]
  }

  // n rounds in which t, runnable at the start, is passed over every time.
  ghost predicate PassedOver(cs: seq<Cpu>, ks: seq<int>, t: nat) {
    && t < NPROC && |cs| == |ks| + 1
    && (forall i :: 0 <= i < |cs| ==> Wf(cs[i]))
    && (forall i :: 0 <= i < |ks| ==> RoundThen(cs[i], cs[i + 1], ks[i], t) && ks[i] != t)
    && cs[0].procs[t].state == RUNNABLE
  }

  // Rounds until the aging of t has brought it to priority 0 by the time of the selection.
  function AgingLeft(p: Proc): nat {
    if p.priority <= 0 then 0
    else (if p.waitTicks >= AGING_INTERVAL then 0 else AGING_INTERVAL - p.waitTicks) + AGING_INTERVAL * (p.priority - 1)
  }

  // Upper bound on the rounds before t is dispatched.
  function RoundsLeft(c: Cpu, t: nat): int
    requires t < |c.procs|
  {
    var a := AgingLeft(c.procs[t]);
    if a > 0 then a + NPROC else Distance(c.next, t) + 1
  }

  lemma DistanceStep(next: nat, k: nat, t: nat)
    requires next < NPROC && k < NPROC && t < NPROC && k != t && Distance(next, k) <= Distance(next, t)
    ensures Distance((k + 1) % NPROC, t) == Distance(next, t) - Distance(next, k) - 1
  {
    DistanceApart(next, k, t);
  }

  lemma DistanceApart(next: nat, k: nat, t: nat)
    requires next < NPROC && k < NPROC && t < NPROC && k != t
    ensures Distance(next, k) != Distance(next, t)
  {
  }

  lemma RoundProgress(c: Cpu, c': Cpu, k: int, t: nat)
    requires Wf(c) && Wf(c') && t < NPROC && RoundThen(c, c', k, t) && k != t && c.procs[t].state == RUNNABLE
    ensures c'.procs[t].state == RUNNABLE
    ensures RoundsLeft(c', t) < RoundsLeft(c, t)
  {
    var procs' :| Dispatches(c.procs, c.next, procs', c'.next, k) && c'.procs[t] == procs'[t];
    var aged := VisitedAll(c.procs);
    assert procs'[t] == aged[t] == Visited(c.procs[t]);
    if AgingLeft(c.procs[t]) == 0 {
      assert aged[t].priority == 0;
      assert CanRun(aged[t], aged[k].priority);
      DistanceStep(c.next, k, t);
    }
  }

  lemma {:induction false} PassedOverBound(cs: seq<Cpu>, ks: seq<int>, t: nat, n: nat)
    requires PassedOver(cs, ks, t) && n <= |ks|
    ensures cs[n].procs[t].state == RUNNABLE
    ensures RoundsLeft(cs[0], t) >= RoundsLeft(cs[n], t) + n
    decreases n
  {
    if n > 0 {
      PassedOverBound(cs, ks, t, n - 1);
      assert RoundThen(cs[n - 1], cs[n], ks[n - 1], t);
      RoundProgress(cs[n - 1], cs[n], ks[n - 1], t);
    }
  }

  /** Bounded waiting: a runnable process of priority p is passed over in fewer than 50*p + 64
      rounds, so it is dispatched within 50*p + 64, whatever the other processes do. */
  lemma BoundedWaiting(cs: seq<Cpu>, ks: seq<int>, t: nat)
    requires PassedOver(cs, ks, t)
    ensures |ks| < AGING_INTERVAL * cs[0].procs[t].priority + NPROC
  {
    PassedOverBound(cs, ks, t, |ks|);
  }

  // ----- Aging, exactly -----

  // Ticks of waiting that count towards the next level.
  function Counted(p: Proc): nat {
    Min(p.waitTicks, AGING_INTERVAL)
  }

  // Levels gained in n ticks of waiting: the first after 51 of them, then one every 50.
  function Gained(n: nat): nat {
    if n == 0 then 0 else (n - 1) / AGING_INTERVAL
  }

  // p is what p0, waiting all along, has become after v visits.
  ghost predicate AgedBy(p0: Proc, v: nat, p: Proc) {
    && p.state == RUNNABLE && p.pid == p0.pid && p.priority == Max(0, p0.priority - Gained(Counted(p0) + v))
    && (p.priority > 0 ==> Gained(Counted(p0) + v) * AGING_INTERVAL + Counted(p) == Counted(p0) + v)
  }

  lemma AgedStart(p: Proc)
    requires p.state == RUNNABLE && PriorityValid(p.priority)
    ensures AgedBy(p, 0, p)
  {
  }

  lemma AgedStep(p0: Proc, v: nat, p: Proc)
    requires AgedBy(p0, v, p) && PriorityValid(p0.priority)
    ensures AgedBy(p0, v + 1, Visited(p))
  {
  }

  /** One visit lowers the priority number by at most one, and only after AGING_INTERVAL ticks of waiting. */
  lemma OneLevel(p: Proc)
    requires PriorityValid(p.priority)
    ensures Visited(p).priority == p.priority || Visited(p).priority == p.priority - 1
    ensures Visited(p).priority != p.priority <==>
            p.state == RUNNABLE && p.waitTicks >= AGING_INTERVAL && p.priority > PRIORITY_MIN
    ensures Visited(p).state == p.state && Visited(p).pid == p.pid
  {
  }

  /** Aging is exact: however often t is passed over, its priority is this function of the rounds. */
  lemma {:induction false} AgedExactly(cs: seq<Cpu>, ks: seq<int>, t: nat, n: nat)
    requires PassedOver(cs, ks, t) && n <= |ks|
    ensures AgedBy(cs[0].procs[t], n, cs[n].procs[t])
    decreases n
  {
    if n == 0 {
      AgedStart(cs[0].procs[t]);
    } else {
      AgedExactly(cs, ks, t, n - 1);
      assert RoundThen(cs[n - 1], cs[n], ks[n - 1], t);
      var procs' :| Dispatches(cs[n - 1].procs, cs[n - 1].next, procs', cs[n].next, ks[n - 1])
                    && cs[n].procs[t] == procs'[t];
      AgedStep(cs[0].procs[t], n - 1, cs[n - 1].procs[t]);
    }
  }

  // ----- Round robin within a level -----

  // Round c dispatches k; then, until the next round c', anything may happen to every process.
  ghost predicate RoundOf(c: Cpu, c': Cpu, k: int) {
    exists procs' :: Dispatches(c.procs, c.next, procs', c'.next, k)
  }

  // Rounds that all dispatch at priority level `level`.
  ghost predicate LevelRun(cs: seq<Cpu>, ks: seq<int>, level: int) {
    && |cs| == |ks| + 1 && (forall i :: 0 <= i < |cs| ==> Wf(cs[i]))
    && forall i :: 0 <= i < |ks| ==>
         RoundOf(cs[i], cs[i + 1], ks[i]) && 0 <= ks[i] < NPROC && Visited(cs[i].procs[ks[i]]).priority == level
  }

  // From round a on, t is runnable at that level in every round until it has been dispatched.
  ghost predicate WaitsFrom(cs: seq<Cpu>, ks: seq<int>, t: nat, level: int, a: nat) {
    t < NPROC && |cs| == |ks| + 1 && (forall i :: 0 <= i < |cs| ==> Wf(cs[i]))
    && forall i :: a <= i < |ks| && t !in ks[a..i] ==> CanRun(Visited(cs[i].procs[t]), level)
  }

  // Rounds a + 1 to n - 1 dispatch neither q nor t.
  ghost predicate Between(ks: seq<int>, q: nat, t: nat, a: nat, n: nat) {
    forall i :: a < i < n && i < |ks| ==> ks[i] != q && ks[i] != t
  }

  lemma StillWaits(cs: seq<Cpu>, ks: seq<int>, t: nat, level: int, q: nat, a: nat, i: nat)
    requires WaitsFrom(cs, ks, t, level, a) && a < i < |ks| && ks[a] == q != t && Between(ks, q, t, a, i)
    ensures CanRun(VisitedAll(cs[i].procs)[t], level)
  {
    assert t !in ks[a..i];
  }

  // Once q has run, t is nearer in cyclic order than q until t runs.
  lemma {:induction false} PeerAhead(cs: seq<Cpu>, ks: seq<int>, t: nat, level: int, q: nat, a: nat, n: nat)
    requires LevelRun(cs, ks, level) && WaitsFrom(cs, ks, t, level, a) && a < n <= |ks| && q < NPROC && q != t
    requires ks[a] == q && Between(ks, q, t, a, n)
    ensures Distance(cs[n].next, t) < Distance(cs[n].next, q)
    decreases n
  {
    var i := n - 1;
    if i == a {
      JustRan(cs[i], cs[n], q, t);
    } else {
      PeerAhead(cs, ks, t, level, q, a, i);
      StillWaits(cs, ks, t, level, q, a, i);
      StaysAhead(cs[i], cs[n], ks[i], t, q, level);
    }
  }

  lemma JustRan(c: Cpu, c': Cpu, q: nat, t: nat)
    requires Wf(c) && Wf(c') && RoundOf(c, c', q) && q < NPROC && t < NPROC && q != t
    ensures Distance(c'.next, t) < Distance(c'.next, q)
  {
    var procs' :| Dispatches(c.procs, c.next, procs', c'.next, q);
  }

  lemma StaysAhead(c: Cpu, c': Cpu, k: nat, t: nat, q: nat, level: int)
    requires Wf(c) && Wf(c') && RoundOf(c, c', k) && k < NPROC && t < NPROC && q < NPROC && k != t && k != q
    requires Visited(c.procs[k]).priority == level && CanRun(VisitedAll(c.procs)[t], level)
    requires Distance(c.next, t) < Distance(c.next, q)
    ensures Distance(c'.next, t) < Distance(c'.next, q)
  {
    var procs' :| Dispatches(c.procs, c.next, procs', c'.next, k);
    DistanceStep(c.next, k, t);
    DistanceStep(c.next, k, q);
  }

  lemma NoRepeat(cs: seq<Cpu>, ks: seq<int>, t: nat, level: int, q: nat, a: nat, n: nat)
    requires LevelRun(cs, ks, level) && WaitsFrom(cs, ks, t, level, a) && a < n < |ks| && q < NPROC && q != t
    requires ks[a] == q && Between(ks, q, t, a, n)
    ensures ks[n] != q
  {
    PeerAhead(cs, ks, t, level, q, a, n);
    assert RoundOf(cs[n], cs[n + 1], ks[n]);
    var procs' :| Dispatches(cs[n].procs, cs[n].next, procs', cs[n + 1].next, ks[n]);
    StillWaits(cs, ks, t, level, q, a, n);
  }

  /** While dispatches stay at one level, no process q of it runs twice, in rounds a and b, before a peer that
      waits at that level from round a on has run in between. */
  lemma RoundRobin(cs: seq<Cpu>, ks: seq<int>, t: nat, level: int, q: nat, a: nat, b: nat)
    requires LevelRun(cs, ks, level) && WaitsFrom(cs, ks, t, level, a) && q < NPROC && q != t
    requires a < b < |ks| && ks[a] == q && ks[b] == q
    ensures exists i :: a < i < b && ks[i] == t
  {
    if forall i :: a < i < b ==> ks[i] != t {
      var m := FirstRepeat(ks, q, a, b);
      NoRepeat(cs, ks, t, level, q, a, m);
    }
  }

  // The table in which q and t, and nobody else, are runnable at one level.
  function TwoPeers(q: nat, t: nat, level: int): seq<Proc> {
    seq(NPROC, i => Proc(if i == q || i == t then RUNNABLE else UNUSED, i, level, 0))
  }

  lemma PicksPeer(q: nat, t: nat, level: int, next: nat, k: nat)
    requires q < t < NPROC && PriorityValid(level) && next < NPROC && (k == q || k == t)
    requires Distance(next, k) <= Distance(next, q) && Distance(next, k) <= Distance(next, t)
    ensures RoundOf(Cpu(TwoPeers(q, t, level), next), Cpu(TwoPeers(q, t, level), (k + 1) % NPROC), k)
  {
    var procs := TwoPeers(q, t, level);
    var aged := VisitedAll(procs);
    assert CanRun(aged[k], level) && IsPick(aged, next, k);
    assert Dispatches(procs, next, aged[k := aged[k].(state := RUNNING, waitTicks := 0)], (k + 1) % NPROC, k);
  }

  /** There are such runs: two peers that yield as soon as they have run take turns. */
  lemma PeersAlternate(q: nat, t: nat, level: int) returns (cs: seq<Cpu>, ks: seq<int>)
    requires q < t < NPROC && PriorityValid(level)
    ensures ks == [q, t, q] && LevelRun(cs, ks, level) && WaitsFrom(cs, ks, t, level, 0)
            && cs[0].procs[t].state == RUNNABLE
  {
    var procs := TwoPeers(q, t, level);
    ks := [q, t, q];
    cs := [Cpu(procs, q), Cpu(procs, (q + 1) % NPROC), Cpu(procs, (t + 1) % NPROC), Cpu(procs, (q + 1) % NPROC)];
    PicksPeer(q, t, level, q, q);
    PicksPeer(q, t, level, (q + 1) % NPROC, t);
    PicksPeer(q, t, level, (t + 1) % NPROC, q);
  }

  // Rounds in which t waits at priority 0; anything may happen to the other processes.
  ghost predicate TopRun(cs: seq<Cpu>, ks: seq<int>, t: nat) {
    && t < NPROC && |cs| == |ks| + 1 && (forall i :: 0 <= i < |cs| ==> Wf(cs[i]))
    && forall i :: 0 <= i < |ks| ==>
         && RoundOf(cs[i], cs[i + 1], ks[i]) && ks[i] != t
         && cs[i].procs[t].state == RUNNABLE && cs[i].procs[t].priority == 0
  }

  lemma TopIsLevel(cs: seq<Cpu>, ks: seq<int>, t: nat)
    requires TopRun(cs, ks, t)
    ensures LevelRun(cs, ks, 0) && WaitsFrom(cs, ks, t, 0, 0)
  {
    forall i | 0 <= i < |ks|
      ensures 0 <= ks[i] < NPROC && Visited(cs[i].procs[ks[i]]).priority == 0 && CanRun(Visited(cs[i].procs[t]), 0)
    {
      TopDispatch(cs[i], cs[i + 1], ks[i], t);
    }
  }

  lemma WaitsOn(cs: seq<Cpu>, ks: seq<int>, t: nat, level: int, a: nat)
    requires WaitsFrom(cs, ks, t, level, 0) && t !in ks
    ensures WaitsFrom(cs, ks, t, level, a)
  {
    forall i | a <= i < |ks| ensures CanRun(Visited(cs[i].procs[t]), level) {
      assert t !in ks[0..i];
    }
  }

  /** At the top level no condition on the dispatches is needed: whatever the other processes do, nobody runs
      twice while a process waits at priority 0. */
  lemma TopLevelRoundRobin(cs: seq<Cpu>, ks: seq<int>, t: nat, a: nat, b: nat)
    requires TopRun(cs, ks, t) && a < b < |ks|
    ensures ks[a] != ks[b]
  {
    TopIsLevel(cs, ks, t);
    WaitsOn(cs, ks, t, 0, a);
    if ks[a] == ks[b] {
      RoundRobin(cs, ks, t, 0, ks[a], a, b);
    }
  }

  lemma TopDispatch(c: Cpu, c': Cpu, k: int, t: nat)
    requires Wf(c) && RoundOf(c, c', k) && t < NPROC && c.procs[t].state == RUNNABLE && c.procs[t].priority == 0
    ensures 0 <= k < NPROC && Visited(c.procs[k]).priority == 0 && CanRun(Visited(c.procs[t]), 0)
  {
    var procs' :| Dispatches(c.procs, c.next, procs', c'.next, k);
    var aged := VisitedAll(c.procs);
    assert aged[t] == Visited(c.procs[t]) && aged[k] == Visited(c.procs[k]);
    assert PriorityValid(c.procs[k].priority);
  }

  lemma FirstRepeat(ks: seq<int>, q: int, a: nat, b: nat) returns (m: nat)
    requires a < b < |ks| && ks[b] == q
    ensures a < m <= b && ks[m] == q && forall i :: a < i < m ==> ks[i] != q
  {
    m := a + 1;
    while ks[m] != q
      invariant a < m <= b && forall i :: a < i < m ==> ks[i] != q
      decreases b - m
    {
      m := m + 1;
    }
  }
}
