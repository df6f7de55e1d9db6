/** Rule 5 does what it is there for: no process waits forever, and Rule 1 holds at dispatches. */
module MlfqProgress {
  import opened Collections
  import opened Schedules
  import opened SchedulerCore
  import opened Mlfq
  import opened MlfqLaws
  import opened MlfqHistory

  /** Ticks the running process can keep the CPU before its quantum ends. */
  ghost function Room(m: MlfqState): nat
    requires Shaped(m)
  {
    if m.running.None? then 0
    else
      var q := Quantum(m.procs[m.running.value].level);
      if m.slice < q then q - m.slice else 0
  }

  ghost function Before(m: MlfqState, now: nat): MlfqState
    requires Shaped(m)
  {
    Entered(Boosted(m, now), now)
  }

  lemma RunnerLevel(m: MlfqState, now: nat)
    requires Shaped(m) && Placed(Base(m)) && m.running.Some?
    ensures Before(m, now).running == m.running && Before(m, now).slice == m.slice
    ensures Before(m, now).procs[m.running.value].level <= m.procs[m.running.value].level
  {
    var r := m.running.value;
    var b := Boosted(m, now);
    assert m.procs[r].status == Running;
    ResetAt(m.procs, Flat(m.queues), r);
    ResetAt(Reset(m.procs, Flat(m.queues)), Held(m.running), r);
    var arr := Arrivals(b.procs, now, |b.procs|);
    ResetAt(Admitted(b.procs, now), arr, r);
    AgedLevel(Reset(Admitted(b.procs, now), arr), Flat(Before(m, now).queues), r);
  }

  lemma RoomShrinks(m: MlfqState, now: nat)
    requires Shaped(m) && Placed(Base(m))
    ensures Shaped(Before(m, now)) && Room(Before(m, now)) <= Room(m)
  {
    PreparedShaped(m, now);
    if m.running.Some? {
      RunnerLevel(m, now);
      QuantumGrows(Before(m, now).procs[m.running.value].level, m.procs[m.running.value].level);
    }
  }

  lemma QuantumGrows(k: nat, l: nat)
    requires k <= l < 3
    ensures Quantum(k) <= Quantum(l)
  {
  }

  /** Nothing is ever put in front of a waiting process of the top queue. */
  lemma TopStays(m: MlfqState, now: nat, p: nat)
    requires Shaped(m) && p < |m.queues[0]| && Shaped(Before(m, now))
    ensures p < |Expired(Before(m, now)).queues[0]|
    ensures Expired(Before(m, now)).queues[0][p] == m.queues[0][p]
  {
    var b := Boosted(m, now);
    assert p < |b.queues[0]| && b.queues[0][p] == m.queues[0][p];
    var e := Before(m, now);
    assert p < |e.queues[0]| && e.queues[0][p] == b.queues[0][p];
  }

  lemma TopServed(e: MlfqState, now: nat, p: nat) returns (runs: bool, p': nat)
    requires Shaped(e) && ByLevel(Expired(e)) && p < |Expired(e).queues[0]|
    ensures var x := Expired(e); var u := Used(Chosen(x, now), now);
            && (runs ==> u.gantt == e.gantt + [Some(x.queues[0][p])])
            && (!runs ==> p' < |u.queues[0]| && u.queues[0][p'] == x.queues[0][p] && 2 * p' + Room(u) < 2 * p + Room(e))
  {
    hide Levelled;
    var x := Expired(e);
    var c := Chosen(x, now);
    runs, p' := false, p;
    if x.running.None? {
      assert Flat(x.queues)[0] == x.queues[0][0];
      if p == 0 {
        runs := true;
      } else {
        p' := p - 1;
      }
    }
  }

  /** In one tick a process of the top queue runs or gets closer to the CPU. */
  lemma TopAdvances(m: MlfqState, now: nat, p: nat) returns (runs: bool, p': nat)
    requires Law(m, Settled) && |m.gantt| == now && LastBoost(m.boosts) <= now && p < |m.queues[0]|
    ensures var u := MlfqTick(m, now); var i := m.queues[0][p];
            && (runs ==> u.gantt == m.gantt + [Some(i)])
            && (!runs ==> p' < |u.queues[0]| && u.queues[0][p'] == i && 2 * p' + Room(u) < 2 * p + Room(m))
  {
    RoomShrinks(m, now);
    TopStays(m, now, p);
    BoostedLaw(m, now);
    EnteredLaw(Boosted(m, now), now);
    ExpiredLaw(Before(m, now));
    runs, p' := TopServed(Before(m, now), now, p);
  }

  ghost predicate RunsAt(procs: seq<Process>, period: int, t: nat, i: nat)
    requires FreshProcs(procs)
  {
    MlfqRun(procs, period, t + 1).gantt[t] == Some(i)
  }

  lemma RunLaw(procs: seq<Process>, period: int, n: nat)
    requires FreshProcs(procs)
    ensures Law(MlfqRun(procs, period, n), Settled) && LastBoost(MlfqRun(procs, period, n).boosts) <= n
  {
    HistoryLaw(procs, period, n);
    BoostsOnSchedule(procs, period, n);
    LastBoostPast(n, MlfqRun(procs, period, n).period);
  }

  /** At tick n process i waits at position p of the top queue, with at most `budget` ticks to go. */
  ghost predicate Waits(procs: seq<Process>, period: int, n: nat, p: nat, i: nat, budget: int)
    requires FreshProcs(procs)
  {
    var m := MlfqRun(procs, period, n);
    p < |m.queues[0]| && m.queues[0][p] == i && 2 * p + Room(m) <= budget
  }

  lemma TopStep(procs: seq<Process>, period: int, n: nat, p: nat, i: nat, budget: nat) returns (runs: bool, p': nat)
    requires FreshProcs(procs) && Waits(procs, period, n, p, i, budget)
    ensures runs ==> RunsAt(procs, period, n, i)
    ensures !runs ==> budget > 0 && Waits(procs, period, n + 1, p', i, budget - 1)
  {
    RunLaw(procs, period, n);
    runs, p' := TopAdvances(MlfqRun(procs, period, n), n, p);
  }

  lemma {:induction false} TopRunsWithin(procs: seq<Process>, period: int, n: nat, p: nat, i: nat, budget: nat)
    returns (t: nat)
    requires FreshProcs(procs) && Waits(procs, period, n, p, i, budget)
    ensures n <= t <= n + budget && RunsAt(procs, period, t, i)
    decreases budget
  {
    var runs, p' := TopStep(procs, period, n, p, i, budget);
    if runs {
      t := n;
    } else {
      t := TopRunsWithin(procs, period, n + 1, p', i, budget - 1);
    }
  }

  // A process of a lower queue runs, or is still there at the next boost.

  lemma LowBefore(m: MlfqState, now: nat, i: nat)
    requires Shaped(m) && Shaped(Before(m, now)) && i in Flat(m.queues)
    ensures m.sinceBoost + 1 >= m.period ==> i in Before(m, now).queues[0]
    ensures i in Flat(Before(m, now).queues)
  {
    InSomeQueue(m.queues, i);
    InSomeQueue(Before(m, now).queues, i);
  }

  lemma LowServed(e: MlfqState, now: nat, i: nat)
    requires Shaped(e) && i in Flat(e.queues)
    ensures var u := Used(Chosen(Expired(e), now), now);
            u.gantt == e.gantt + [Some(i)] || (i in Flat(u.queues) && (i in e.queues[0] ==> i in u.queues[0]))
  {
    hide Levelled;
    var x := Expired(e);
    InSomeQueue(e.queues, i);
    InSomeQueue(x.queues, i);
    assert i in Flat(x.queues) && (i in e.queues[0] ==> i in x.queues[0]);
    if x.running.None? {
      var q := Flat(x.queues);
      assert q == [q[0]] + q[1..];
      if i in x.queues[0] {
        assert x.queues[0] == [x.queues[0][0]] + x.queues[0][1..];
      }
    }
  }

  ghost predicate InTop(procs: seq<Process>, period: int, n: nat, i: nat)
    requires FreshProcs(procs)
  {
    i in MlfqRun(procs, period, n).queues[0]
  }

  /** At tick n process i waits in some queue, with at most `wait` ticks to the next boost. */
  ghost predicate Queued(procs: seq<Process>, period: int, n: nat, i: nat, wait: int)
    requires FreshProcs(procs)
  {
    var m := MlfqRun(procs, period, n);
    i in Flat(m.queues) && m.period - m.sinceBoost <= wait
  }

  lemma LowStep(procs: seq<Process>, period: int, n: nat, i: nat, wait: nat)
    requires FreshProcs(procs) && Queued(procs, period, n, i, wait)
    ensures || RunsAt(procs, period, n, i)
            || InTop(procs, period, n + 1, i)
            || (wait > 0 && Queued(procs, period, n + 1, i, wait - 1))
  {
    var m := MlfqRun(procs, period, n);
    PreparedShaped(m, n);
    LowBefore(m, n, i);
    LowServed(Before(m, n), n, i);
  }

  /** Position of i in a queue it is in. */
  lemma PositionOf(q: seq<nat>, i: nat) returns (p: nat)
    requires i in q
    ensures p < |q| && q[p] == i
  {
    p :| p < |q| && q[p] == i;
  }

  lemma QueueBounded(m: MlfqState)
    requires Shaped(m) && Placed(Base(m))
    ensures |m.queues[0]| <= |m.procs|
  {
    var q := Flat(m.queues);
    DistinctSize(q);
    assert Members(q) <= UpTo(|m.procs|) by {
      forall i | i in Members(q) ensures i < |m.procs| {
        var k := PositionOf(q, i);
      }
    }
    SubsetSize(Members(q), UpTo(|m.procs|));
  }

  lemma TopPosition(m: MlfqState, i: nat) returns (p: nat)
    requires Law(m, Settled) && i in m.queues[0]
    ensures p < |m.queues[0]| && m.queues[0][p] == i && 2 * p + Room(m) <= 2 * |m.procs| + 6
  {
    QueueBounded(m);
    p := PositionOf(m.queues[0], i);
  }

  lemma TopSoon(procs: seq<Process>, period: int, n: nat, i: nat) returns (t: nat)
    requires FreshProcs(procs) && InTop(procs, period, n, i)
    ensures n <= t <= n + 2 * |procs| + 6 && RunsAt(procs, period, t, i)
  {
    RunLaw(procs, period, n);
    var p := TopPosition(MlfqRun(procs, period, n), i);
    t := TopRunsWithin(procs, period, n, p, i, 2 * |procs| + 6);
  }

  lemma {:induction false} LowRunsWithin(procs: seq<Process>, period: int, n: nat, i: nat, wait: nat) returns (t: nat)
    requires FreshProcs(procs) && Queued(procs, period, n, i, wait)
    ensures n <= t <= n + wait + 2 * |procs| + 7 && RunsAt(procs, period, t, i)
    decreases wait
  {
    LowStep(procs, period, n, i, wait);
    if RunsAt(procs, period, n, i) {
      t := n;
    } else if InTop(procs, period, n + 1, i) {
      t := TopSoon(procs, period, n + 1, i);
    } else {
      t := LowRunsWithin(procs, period, n + 1, i, wait - 1);
    }
  }

  /** Whatever its level and whatever arrives meanwhile, a waiting process runs within one boost
      period, two ticks for every process, and seven more. */
  lemma MlfqNoStarvation(procs: seq<Process>, period: int, n: nat, i: nat) returns (t: nat)
    requires FreshProcs(procs) && i in Flat(MlfqRun(procs, period, n).queues)
    ensures n <= t <= n + MlfqRun(procs, period, n).period + 2 * |procs| + 7
    ensures RunsAt(procs, period, t, i)
  {
    t := LowRunsWithin(procs, period, n, i, MlfqRun(procs, period, n).period);
  }

  lemma ChoosesHighest(x: MlfqState, now: nat, i: nat)
    requires Law(x, Ripe) && x.running.None? && i in Flat(x.queues)
    ensures Chosen(x, now).running.Some?
    ensures x.procs[Chosen(x, now).running.value].level <= x.procs[i].level
  {
    InSomeQueue(x.queues, i);
    var q := x.queues;
    if q[0] != [] {
      assert Flat(q)[0] == q[0][0];
    } else if q[1] != [] {
      assert Flat(q)[0] == q[1][0];
    } else {
      assert Flat(q)[0] == q[2][0];
    }
  }

  /** The state in which tick n of a run decides whom to dispatch. */
  ghost function AtDispatch(procs: seq<Process>, period: int, n: nat): (x: MlfqState)
    requires FreshProcs(procs)
    ensures Shaped(x)
  {
    PreparedShaped(MlfqRun(procs, period, n), n);
    Expired(Before(MlfqRun(procs, period, n), n))
  }

  /** Rule 1 at every dispatch of every run: if the CPU is free and anyone waits, someone is
      dispatched, and no waiting process is at a higher level than the one chosen. */
  lemma DispatchHighest(procs: seq<Process>, period: int, n: nat, i: nat)
    requires FreshProcs(procs)
    requires AtDispatch(procs, period, n).running.None? && i in Flat(AtDispatch(procs, period, n).queues)
    ensures var x := AtDispatch(procs, period, n); var r := Chosen(x, n).running;
            && r.Some? && r.value in Flat(x.queues) && i < |x.procs|
            && x.procs[r.value].level <= x.procs[i].level
  {
    hide Boosted, Entered, Used;
    var m := MlfqRun(procs, period, n);
    RunLaw(procs, period, n);
    PreparedShaped(m, n);
    BoostedLaw(m, n);
    EnteredLaw(Boosted(m, n), n);
    ExpiredLaw(Before(m, n));
    ChoosesHighest(AtDispatch(procs, period, n), n, i);
  }
}
