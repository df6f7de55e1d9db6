/** pkg/cpu/sched_rr.go: round robin with a fixed quantum. */
module RoundRobin {
  import opened Collections
  import opened Schedules
  import opened SchedulerCore

  datatype RrState = RrState(core: Core, slice: nat, quantum: nat)

  function InitialRr(procs: seq<Process>, quantum: int): RrState {
    RrState(InitialCore(procs), 0, if quantum <= 0 then 2 else quantum)
  }

  /** The slice counts the unbroken ticks of the running process and never passes the quantum. */
  ghost predicate SliceCounts(s: RrState) {
    && 1 <= s.quantum
    && (s.core.running.None? ==> s.slice == 0)
    && (s.core.running.Some? ==>
          && 1 <= s.slice <= s.quantum && s.slice <= |s.core.gantt|
          && forall t :: |s.core.gantt| - s.slice <= t < |s.core.gantt| ==> s.core.gantt[t] == s.core.running)
  }

  /** The same inside a tick, before the tick is used: there is room for one more. */
  ghost predicate SliceRoom(s: RrState) {
    && 1 <= s.quantum
    && (s.core.running.None? ==> s.slice == 0)
    && (s.core.running.Some? ==>
          && s.slice < s.quantum && s.slice <= |s.core.gantt|
          && forall t :: |s.core.gantt| - s.slice <= t < |s.core.gantt| ==> s.core.gantt[t] == s.core.running)
  }

  /** A process that has used up its quantum goes to the back of the queue. */
  function Expired(s: RrState): (s': RrState)
    requires Indexed(s.core)
    ensures Indexed(s'.core) && |s'.core.procs| == |s.core.procs| && s'.core.gantt == s.core.gantt
  {
    if s.core.running.Some? && s.slice >= s.quantum then s.(core := Preempted(s.core), slice := 0) else s
  }

  function RrChosen(s: RrState, now: int): (s': RrState)
    requires Indexed(s.core)
    ensures SliceCounts(s) ==> SliceRoom(s')
    ensures Indexed(s'.core) && |s'.core.procs| == |s.core.procs| && s'.core.gantt == s.core.gantt
  {
    var e := Expired(s);
    if e.core.running.None? && e.core.ready != [] then e.(core := Dispatched(e.core, now), slice := 0) else e
  }

  function RrUsed(s: RrState, now: int): (s': RrState)
    requires Indexed(s.core)
    ensures SliceRoom(s) ==> SliceCounts(s')
    ensures Indexed(s'.core) && |s'.core.procs| == |s.core.procs|
    ensures s'.core.gantt == s.core.gantt + [s.core.running]
  {
    var d := Executed(s.core, now);
    s.(core := d, slice := if s.core.running.None? then s.slice else if d.running.None? then 0 else s.slice + 1)
  }

  function RrTick(s: RrState, now: int): (s': RrState)
    requires Indexed(s.core)
    ensures Indexed(s'.core) && |s'.core.procs| == |s.core.procs| && s'.quantum == s.quantum
    ensures SliceCounts(s) ==> SliceCounts(s')
  {
    RrUsed(RrChosen(s.(core := Prepared(s.core, now)), now), now)
  }

  function RrRun(procs: seq<Process>, quantum: int, n: nat): (s: RrState)
    ensures Indexed(s.core) && |s.core.procs| == |procs|
    ensures SliceCounts(s)
  {
    if n == 0 then InitialRr(procs, quantum) else RrTick(RrRun(procs, quantum, n - 1), n - 1)
  }

  // ---------------------------------------------------------------------------------------
  // Accounting
  // ---------------------------------------------------------------------------------------

  lemma RrChosenMid(s: RrState, jobs: seq<Job>, now: nat)
    requires Mid(s.core, jobs, now) && (s.core.running.Some? ==> s.core.procs[s.core.running.value].start < now)
    ensures Mid(RrChosen(s, now).core, jobs, now)
    ensures RrChosen(s, now).core.running.None? ==> RrChosen(s, now).core.ready == []
  {
    var e := Expired(s);
    if s.core.running.Some? && s.slice >= s.quantum {
      PreemptedKept(s.core, jobs, now);
    }
    if e.core.running.None? && e.core.ready != [] {
      DispatchedKept(e.core, jobs, now);
    }
  }

  lemma RrTickBalanced(s: RrState, jobs: seq<Job>, now: nat)
    requires Balanced(s.core, jobs, now)
    ensures Balanced(RrTick(s, now).core, jobs, now + 1)
  {
    PreparedKept(s.core, jobs, now);
    RunningStarted(s.core, jobs, now);
    var m := s.(core := Prepared(s.core, now));
    RrChosenMid(m, jobs, now);
    ExecutedKept(RrChosen(m, now).core, jobs, now);
  }

  lemma {:induction false} RrRunBalanced(procs: seq<Process>, quantum: int, n: nat)
    requires FreshProcs(procs)
    ensures Balanced(RrRun(procs, quantum, n).core, Jobs(procs), n)
  {
    if n == 0 {
      InitialBalanced(procs);
    } else {
      RrRunBalanced(procs, quantum, n - 1);
      RrTickBalanced(RrRun(procs, quantum, n - 1), Jobs(procs), n - 1);
    }
  }

  lemma RrCompletes(procs: seq<Process>, quantum: int, n: nat, last: nat)
    requires FreshProcs(procs) && ArrivedBy(Jobs(procs), last) && n >= last + TotalBurst(Jobs(procs))
    ensures AllTerminated(RrRun(procs, quantum, n).core) && |RrRun(procs, quantum, n).core.completed| == |procs|
  {
    RrRunBalanced(procs, quantum, n);
    TerminatedInTime(RrRun(procs, quantum, n).core, Jobs(procs), n, last);
  }

  // ---------------------------------------------------------------------------------------
  // No starvation
  // ---------------------------------------------------------------------------------------

  /** Ticks that can pass before position p of the ready queue is dispatched. */
  ghost function Delay(s: RrState, p: nat): int {
    p * s.quantum + if s.core.running.Some? then s.quantum - s.slice else 0
  }

  lemma DelayDrops(q: nat, p: nat)
    requires p >= 1
    ensures (p - 1) * q + q == p * q
  {
  }

  /** In one tick a waiting process either runs or gets closer to the CPU. */
  lemma RrAdvances(s: RrState, now: nat, p: nat)
    requires Indexed(s.core) && SliceCounts(s) && p < |s.core.ready|
    ensures var i := s.core.ready[p]; var s' := RrTick(s, now);
            || s'.core.gantt == s.core.gantt + [Some(i)]
            || exists p': nat :: p' < |s'.core.ready| && s'.core.ready[p'] == i && Delay(s', p') < Delay(s, p)
  {
    var i := s.core.ready[p];
    var m := s.(core := Prepared(s.core, now));
    var e := Expired(m);
    var s' := RrTick(s, now);
    assert m.core.ready[p] == i && e.core.ready[p] == i;
    if e.core.running.Some? {
      assert s'.core.ready[p] == i && Delay(s', p) < Delay(s, p);
    } else if p > 0 {
      assert s'.core.ready == e.core.ready[1..];
      DelayDrops(s.quantum, p);
      assert s'.core.ready[p-1] == i && Delay(s', p - 1) < Delay(s, p);
    }
  }

  ghost predicate RunsAt(procs: seq<Process>, quantum: int, t: nat, i: nat) {
    var g := RrRun(procs, quantum, t + 1).core.gantt;
    |g| == t + 1 && g[t] == Some(i)
  }

  lemma DelayNatural(s: RrState, p: nat)
    requires SliceCounts(s)
    ensures Delay(s, p) >= 0
  {
  }

  lemma RrStep(procs: seq<Process>, quantum: int, n: nat, p: nat) returns (runs: bool, p': nat)
    requires FreshProcs(procs) && p < |RrRun(procs, quantum, n).core.ready|
    ensures runs ==> RunsAt(procs, quantum, n, RrRun(procs, quantum, n).core.ready[p])
    ensures !runs ==>
              && p' < |RrRun(procs, quantum, n + 1).core.ready|
              && RrRun(procs, quantum, n + 1).core.ready[p'] == RrRun(procs, quantum, n).core.ready[p]
              && 0 <= Delay(RrRun(procs, quantum, n + 1), p') < Delay(RrRun(procs, quantum, n), p)
  {
    var s, s' := RrRun(procs, quantum, n), RrRun(procs, quantum, n + 1);
    var i := s.core.ready[p];
    RrRunBalanced(procs, quantum, n);
    RrAdvances(s, n, p);
    runs, p' := s'.core.gantt == s.core.gantt + [Some(i)], 0;
    if !runs {
      p' :| p' < |s'.core.ready| && s'.core.ready[p'] == i && Delay(s', p') < Delay(s, p);
      DelayNatural(s', p');
    }
  }

  lemma {:induction false} RrRunsWithin(procs: seq<Process>, quantum: int, n: nat, p: nat, i: nat, budget: nat)
    requires FreshProcs(procs) && p < |RrRun(procs, quantum, n).core.ready| && RrRun(procs, quantum, n).core.ready[p] == i
    requires Delay(RrRun(procs, quantum, n), p) <= budget
    ensures exists t: nat :: n <= t <= n + budget && RunsAt(procs, quantum, t, i)
    decreases budget
  {
    var runs, p' := RrStep(procs, quantum, n, p);
    if !runs {
      RrRunsWithin(procs, quantum, n + 1, p', i, budget - 1);
    }
  }

  /** A process waiting at position p runs within p quanta plus what is left of the current one. */
  lemma RrNoStarvation(procs: seq<Process>, quantum: int, n: nat, p: nat)
    requires FreshProcs(procs) && p < |RrRun(procs, quantum, n).core.ready|
    ensures var s := RrRun(procs, quantum, n);
            exists t: nat :: n <= t <= n + Delay(s, p) && RunsAt(procs, quantum, t, s.core.ready[p])
  {
    DelayNatural(RrRun(procs, quantum, n), p);
    RrRunsWithin(procs, quantum, n, p, RrRun(procs, quantum, n).core.ready[p], Delay(RrRun(procs, quantum, n), p));
  }

  // ---------------------------------------------------------------------------------------
  // The scheduler
  // ---------------------------------------------------------------------------------------

  class RrScheduler {
    const quantum: nat
    var procs: seq<Process>
    var ready: seq<nat>
    var running: Option<nat>
    var slice: nat
    var completed: seq<nat>
    var gantt: Schedule
    var switches: nat
    var busy: nat
    var total: int

    ghost function View(): RrState
      reads this
    {
      RrState(Core(procs, ready, running, completed, gantt, switches, busy), slice, quantum)
    }

    constructor (quantum: int)
      ensures View() == InitialRr([], quantum)
    {
      this.quantum := if quantum <= 0 then 2 else quantum;
      procs, ready, running, completed, gantt, switches, busy, total, slice := [], [], None, [], [], 0, 0, 0, 0;
    }

    method Snapshot() returns (c: Core)
      ensures c == View().core
    {
      c := Core(procs, ready, running, completed, gantt, switches, busy);
    }

    method Store(c: Core)
      modifies this
      ensures View() == old(View()).(core := c) && total == old(total)
    {
      procs, ready, running, completed, gantt, switches, busy :=
        c.procs, c.ready, c.running, c.completed, c.gantt, c.switches, c.busy;
    }

    method AddProcess(p: Process)
      requires Indexed(View().core)
      modifies this
      ensures View() == old(View()).(core := old(View()).core.(procs := old(procs) + [p])) && Indexed(View().core)
      ensures total == old(total)
    {
      procs := procs + [p];
    }

    method Choose(now: int)
      requires Indexed(View().core)
      modifies this
      ensures View() == RrChosen(old(View()), now) && total == old(total)
    {
      var c := Snapshot();
      if running.Some? && slice >= quantum {
        c := Preempt(c);
        slice := 0;
      }
      if c.running.None? && |c.ready| > 0 {
        c := Dispatch(c, now);
        slice := 0;
      }
      Store(c);
    }

    method Tick(now: int) returns (current: Option<nat>, allDone: bool)
      requires Indexed(View().core)
      modifies this
      ensures View() == RrTick(old(View()), now) && total == now + 1
      ensures current == running
      ensures allDone <==> |completed| == |procs| && |procs| > 0
    {
      total := now + 1;
      procs, ready := Admit(procs, ready, now);
      procs := Age(procs, ready);
      assert View() == old(View()).(core := Prepared(old(View()).core, now));
      Choose(now);
      var c := Snapshot();
      if running.Some? {
        slice := slice + 1;
      }
      c := Execute(c, now);
      if running.Some? && c.running.None? {
        slice := 0;
      }
      Store(c);
      current, allDone := running, |completed| == |procs| && |procs| > 0;
    }
  }
}
