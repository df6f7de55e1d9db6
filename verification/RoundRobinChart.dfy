/** pkg/cpu/sched_rr.go: the Gantt chart of round robin is the one the policy determines. */
module RoundRobinCharts {
  import opened Collections
  import opened Schedules
  import opened SchedulerCore
  import opened RoundRobin
  import opened ChartQueues
  import C = Charts

  /** Between ticks: the queue is in the order of waiting, the slice counter is the chart's. */
  ghost predicate Charted(s: RrState, jobs: seq<Job>, now: nat) {
    && Balanced(s.core, jobs, now) && SliceCounts(s)
    && Waited(jobs, s.core.gantt, s.core.ready, false) && InOrder(jobs, s.core.gantt, s.core.ready)
    && (s.core.running.Some? ==> s.slice == C.Slice(s.core.gantt, s.quantum))
  }

  /** Inside a tick, once arrivals are admitted. */
  ghost predicate Admitting(s: RrState, jobs: seq<Job>, now: nat) {
    && Mid(s.core, jobs, now) && SliceCounts(s)
    && Waited(jobs, s.core.gantt, s.core.ready, true) && InOrder(jobs, s.core.gantt, s.core.ready)
    && (s.core.running.Some? ==> s.slice == C.Slice(s.core.gantt, s.quantum))
    && (s.core.running.None? && now > 0 && s.core.gantt[now - 1].Some? ==>
          && s.core.gantt[now - 1].value < |jobs|
          && Left(jobs, s.core.gantt, s.core.gantt[now - 1].value) == 0)
  }

  lemma {:induction false} Admits(s: RrState, jobs: seq<Job>, now: nat)
    requires Charted(s, jobs, now)
    ensures Admitting(s.(core := Prepared(s.core, now)), jobs, now)
  {
    hide Prepared, InOrder, Waited;
    PreparedKept(s.core, jobs, now);
    AdmittedOrder(s.core, jobs, now);
    if s.core.running.None? && now > 0 && s.core.gantt[now - 1].Some? {
      GoneIsDone(s.core, jobs, now);
    }
  }

  /** An expired slice puts its job behind everyone. */
  lemma {:induction false} ExpiredOrder(s: RrState, jobs: seq<Job>, now: nat)
    requires Admitting(s, jobs, now)
    ensures Waited(jobs, s.core.gantt, Expired(s).core.ready, true) && InOrder(jobs, s.core.gantt, Expired(s).core.ready)
  {
    var g := s.core.gantt;
    if s.core.running.Some? && s.slice >= s.quantum {
      var i, q := s.core.running.value, Expired(s).core.ready;
      assert g[|g| - 1] == Some(i);
      assert C.Ran(g, i) && C.Since(jobs, g, i) == |g|;
      assert i !in s.core.ready;
      forall a, b | 0 <= a < b < |q|
        ensures C.Ahead(jobs, g, q[a], q[b])
      {
        if b == |q| - 1 {
          AheadOfLast(jobs, g, s.core.ready, i, a);
        }
      }
    }
  }

  lemma {:induction false} AheadOfLast(jobs: seq<Job>, g: Schedule, q: seq<nat>, i: nat, a: nat)
    requires Waited(jobs, g, q, true) && a < |q| && i < |jobs| && i !in q
    requires g != [] && g[|g| - 1] == Some(i)
    ensures C.Ahead(jobs, g, q[a], i)
  {
    assert q[a] in q;
    SameLastTick(jobs, g, q[a], i);
  }

  ghost function Rule(s: RrState): C.Policy {
    C.RoundRobin(s.quantum)
  }

  /** With the CPU free, the queue holds exactly the jobs in the system. */
  lemma {:induction false} QueueIsSystem(s: RrState, jobs: seq<Job>, now: nat)
    requires Admitting(s, jobs, now) && Expired(s).core.running.None?
    ensures forall i: nat :: i in Outstanding(jobs, s.core.gantt) <==> i in Expired(s).core.ready
  {
    OutstandingIsLive(s.core, jobs, now);
    if s.core.running.Some? {
      assert Expired(s).core.ready == s.core.ready + [s.core.running.value];
    }
  }

  lemma {:induction false} HeadIsFirst(s: RrState, jobs: seq<Job>, now: nat)
    requires Admitting(s, jobs, now) && Expired(s).core.running.None? && Expired(s).core.ready != []
    ensures C.First(Rule(s), jobs, s.core.gantt, Expired(s).core.ready[0])
  {
    var g, q := s.core.gantt, Expired(s).core.ready;
    ExpiredOrder(s, jobs, now);
    QueueIsSystem(s, jobs, now);
    assert q[0] in q;
    forall j | j in Outstanding(jobs, g) && j != q[0]
      ensures C.Before(Rule(s), jobs, g, q[0], j)
    {
      var b :| 0 <= b < |q| && q[b] == j;
      assert C.Ahead(jobs, g, q[0], q[b]);
    }
  }

  /** A slice that has not expired goes on. */
  lemma {:induction false} SliceGoesOn(s: RrState, jobs: seq<Job>, now: nat)
    requires Admitting(s, jobs, now) && s.core.running.Some?
    ensures |s.core.gantt| > 0 && s.core.gantt[|s.core.gantt| - 1] == s.core.running
    ensures C.GoesOn(Rule(s), jobs, s.core.gantt) <==> s.slice < s.quantum
  {
    hide InOrder, Waited;
    assert Noted(s.core.procs[s.core.running.value], s.core.running.value, jobs, s.core.gantt, now, true);
  }

  /** Nobody goes on when nobody runs. */
  lemma {:induction false} NobodyGoesOn(s: RrState, jobs: seq<Job>, now: nat)
    requires Admitting(s, jobs, now) && s.core.running.None?
    ensures !C.GoesOn(Rule(s), jobs, s.core.gantt)
  {
    hide InOrder, Waited;
  }

  /** The choice of the code is the choice of the policy. */
  lemma {:induction false} ChoosesNext(s: RrState, jobs: seq<Job>, now: nat)
    requires Admitting(s, jobs, now)
    ensures C.Next(Rule(s), jobs, s.core.gantt, RrChosen(s, now).core.running)
  {
    hide InOrder, Waited, C.GoesOn, C.First, SliceCounts, WorkConserving;
    if s.core.running.Some? {
      SliceGoesOn(s, jobs, now);
    } else {
      NobodyGoesOn(s, jobs, now);
    }
    var e := Expired(s);
    if e.core.running.None? {
      QueueIsSystem(s, jobs, now);
      if e.core.ready != [] {
        HeadIsFirst(s, jobs, now);
      } else {
        assert Outstanding(jobs, s.core.gantt) == {};
      }
    }
  }

  lemma {:induction false} ChosenOrder(s: RrState, jobs: seq<Job>, now: nat)
    requires Admitting(s, jobs, now)
    ensures var q := RrChosen(s, now).core.ready;
            Waited(jobs, s.core.gantt, q, true) && InOrder(jobs, s.core.gantt, q)
  {
    ExpiredOrder(s, jobs, now);
    var e := Expired(s);
    if e.core.running.None? && e.core.ready != [] {
      assert forall i :: i in e.core.ready[1..] ==> i in e.core.ready;
    }
  }

  lemma {:induction false} SliceGrows(g: Schedule, x: nat, q: nat)
    ensures C.Slice(g + [Some(x)], q) ==
            if g != [] && g[|g| - 1] == Some(x) && C.Slice(g, q) != q then C.Slice(g, q) + 1 else 1
  {
    var h := g + [Some(x)];
    assert h[..|g|] == g && h[|h| - 1] == Some(x);
  }

  /** With the CPU idle, whoever is dispatched is not the job of the last tick. */
  lemma {:induction false} StartsAnew(s: RrState, jobs: seq<Job>, now: nat)
    requires Admitting(s, jobs, now) && s.core.running.None? && RrChosen(s, now).core.running.Some?
    ensures s.core.gantt != [] ==> s.core.gantt[|s.core.gantt| - 1] != RrChosen(s, now).core.running
  {
    hide InOrder, Waited, SliceCounts;
    QueueIsSystem(s, jobs, now);
    assert RrChosen(s, now).core.running.value in Expired(s).core.ready;
  }

  /** The slice counter after a tick is the chart's. */
  lemma {:induction false} SliceCharted(s: RrState, jobs: seq<Job>, now: nat)
    requires Admitting(s, jobs, now)
    ensures var c := RrChosen(s, now);
            c.core.running.Some? ==> c.slice + 1 == C.Slice(s.core.gantt + [c.core.running], s.quantum)
  {
    hide InOrder, Waited, C.Slice, WorkConserving;
    var c := RrChosen(s, now);
    if c.core.running.Some? {
      SliceGrows(s.core.gantt, c.core.running.value, s.quantum);
      if s.core.running.None? {
        StartsAnew(s, jobs, now);
      } else {
        SliceGoesOn(s, jobs, now);
      }
    }
  }

  lemma {:induction false} UsedCharted(c: RrState, jobs: seq<Job>, now: nat)
    requires Mid(c.core, jobs, now) && Balanced(RrUsed(c, now).core, jobs, now + 1) && SliceCounts(RrUsed(c, now))
    requires Waited(jobs, c.core.gantt, c.core.ready, true) && InOrder(jobs, c.core.gantt, c.core.ready)
    requires c.core.running.Some? ==> c.slice + 1 == C.Slice(c.core.gantt + [c.core.running], c.quantum)
    ensures Charted(RrUsed(c, now), jobs, now + 1)
  {
    hide InOrder, Waited, SliceCounts, Balanced, C.Slice;
    assert c.core.running.Some? ==> c.core.running.value !in c.core.ready;
    OrderGrows(jobs, c.core.gantt, c.core.running, c.core.ready);
  }

  lemma {:induction false} TickCharted(s: RrState, jobs: seq<Job>, now: nat)
    requires Charted(s, jobs, now)
    ensures var s' := RrTick(s, now);
            && Charted(s', jobs, now + 1) && |s.core.gantt| == now && |s'.core.gantt| == now + 1
            && s'.core.gantt[..now] == s.core.gantt && C.Next(Rule(s), jobs, s.core.gantt, s'.core.gantt[now])
  {
    hide C.Next, C.Slice, InOrder, Waited, SliceRoom, SliceCounts, Prepared, RrUsed;
    var m := s.(core := Prepared(s.core, now));
    Admits(s, jobs, now);
    RrTickBalanced(s, jobs, now);
    ChoosesNext(m, jobs, now);
    ChosenOrder(m, jobs, now);
    SliceCharted(m, jobs, now);
    RunningStarted(s.core, jobs, now);
    RrChosenMid(m, jobs, now);
    UsedCharted(RrChosen(m, now), jobs, now);
  }

  ghost function Quantum(quantum: int): nat {
    if quantum <= 0 then 2 else quantum
  }

  lemma {:induction false} StartCharted(procs: seq<Process>, quantum: int)
    requires FreshProcs(procs)
    ensures var s := InitialRr(procs, quantum);
            && Charted(s, Jobs(procs), 0) && C.Follows(C.RoundRobin(Quantum(quantum)), Jobs(procs), s.core.gantt)
  {
    InitialBalanced(procs);
  }

  lemma {:induction false} RunCharted(procs: seq<Process>, quantum: int, n: nat)
    requires FreshProcs(procs)
    ensures var s := RrRun(procs, quantum, n);
            && Charted(s, Jobs(procs), n) && s.quantum == Quantum(quantum)
            && C.Follows(C.RoundRobin(Quantum(quantum)), Jobs(procs), s.core.gantt)
  {
    hide RrTick, Charted, C.Next, C.Follows, SliceCounts, FreshProcs;
    if n == 0 {
      StartCharted(procs, quantum);
    } else {
      var s, s' := RrRun(procs, quantum, n - 1), RrRun(procs, quantum, n);
      RunCharted(procs, quantum, n - 1);
      JobsProper(procs);
      TickCharted(s, Jobs(procs), n - 1);
      C.FollowsGrows(Rule(s), Jobs(procs), s.core.gantt, s'.core.gantt[n - 1]);
      assert s'.core.gantt == s.core.gantt + [s'.core.gantt[n - 1]];
    }
  }

  /** Whatever the processes, the chart of round robin is the only one in which a job goes on until it
      is finished or has had its quantum, and then whoever has waited longest is next. */
  lemma RrFollows(procs: seq<Process>, quantum: int, n: nat)
    requires FreshProcs(procs)
    ensures C.Follows(C.RoundRobin(Quantum(quantum)), Jobs(procs), RrRun(procs, quantum, n).core.gantt)
  {
    RunCharted(procs, quantum, n);
  }

  // ---- The counters ----

  /** A choice counts a context switch exactly when it begins a slice. */
  lemma {:induction false} ChosenSwitches(s: RrState, jobs: seq<Job>, now: nat)
    requires Admitting(s, jobs, now)
    ensures var c := RrChosen(s, now).core;
            && c.busy == s.core.busy && c.gantt == s.core.gantt
            && c.switches == s.core.switches + if C.Slice(s.core.gantt + [c.running], s.quantum) == 1 then 1 else 0
  {
    hide InOrder, Waited, C.Slice, WorkConserving;
    SliceCharted(s, jobs, now);
    var g := s.core.gantt + [RrChosen(s, now).core.running];
    IdleSlice(g, s.quantum);
  }

  lemma {:induction false} IdleSlice(g: Schedule, q: nat)
    ensures g != [] && g[|g| - 1].None? ==> C.Slice(g, q) == 0
  {
  }

  lemma {:induction false} TickCounts(s: RrState, jobs: seq<Job>, now: nat)
    requires Charted(s, jobs, now)
    ensures var c, c' := s.core, RrTick(s, now).core;
            && |c'.gantt| == |c.gantt| + 1 && c'.gantt[..|c.gantt|] == c.gantt
            && c'.busy == c.busy + (if c'.gantt[|c.gantt|].Some? then 1 else 0)
            && c'.switches == c.switches + if C.Slice(c'.gantt, s.quantum) == 1 then 1 else 0
  {
    hide Prepared, RrChosen, Admitting, C.Slice, SliceCounts, SliceRoom;
    var m := s.(core := Prepared(s.core, now));
    Admits(s, jobs, now);
    PreparedCounts(s.core, now);
    ChosenSwitches(m, jobs, now);
  }

  /** Busy time is the number of ticks that ran something, and context switches the number of slices. */
  lemma {:induction false} RrCounters(procs: seq<Process>, quantum: int, n: nat)
    requires FreshProcs(procs)
    ensures var c := RrRun(procs, quantum, n).core;
            c.busy == C.Busy(c.gantt) && c.switches == C.SliceStarts(c.gantt, Quantum(quantum))
  {
    hide RrTick, Charted, C.Slice, C.Follows, FreshProcs, SliceCounts;
    if n > 0 {
      var s := RrRun(procs, quantum, n - 1);
      RrCounters(procs, quantum, n - 1);
      RunCharted(procs, quantum, n - 1);
      TickCounts(s, Jobs(procs), n - 1);
    }
  }
}
