/** How the waiting order of a chart changes when a tick is added to it. */
module ChartQueues {
  import opened Collections
  import opened Schedules
  import opened SchedulerCore
  import opened Charts

  lemma {:induction false} SinceGrows(jobs: seq<Job>, g: Schedule, x: Option<nat>, j: nat)
    requires j < |jobs|
    ensures Since(jobs, g + [x], j) == if x == Some(j) then |g| + 1 else Since(jobs, g, j)
    ensures Ran(g + [x], j) <==> x == Some(j) || Ran(g, j)
  {
    assert (g + [x])[..|g|] == g;
    assert (g + [x])[|g|] == x;
  }

  /** The order of two jobs stays while neither runs. */
  lemma {:induction false} AheadGrows(jobs: seq<Job>, g: Schedule, x: Option<nat>, i: nat, j: nat)
    requires i < |jobs| && j < |jobs| && x != Some(i) && x != Some(j)
    ensures Ahead(jobs, g + [x], i, j) == Ahead(jobs, g, i, j)
  {
    SinceGrows(jobs, g, x, i);
    SinceGrows(jobs, g, x, j);
  }

  /** A job that has not arrived before tick |g| has not run in g. */
  lemma {:induction false} ArrivalIsFresh(jobs: seq<Job>, g: Schedule, j: nat)
    requires ProperJobs(jobs) && WorkConserving(jobs, g) && j < |jobs| && jobs[j].arrival >= |g|
    ensures !Ran(g, j) && Since(jobs, g, j) == jobs[j].arrival
  {
    SinceUnless(jobs, g, j);
  }

  /** Entries wait since before tick |g|, or, if `now`, since it at the latest. */
  ghost predicate Waited(jobs: seq<Job>, g: Schedule, q: seq<nat>, now: bool) {
    InRange(q, |jobs|) && forall i :: i in q ==> if now then Since(jobs, g, i) <= |g| else Since(jobs, g, i) < |g|
  }

  /** The queue is in the order of waiting. */
  ghost predicate InOrder(jobs: seq<Job>, g: Schedule, q: seq<nat>)
    requires InRange(q, |jobs|)
  {
    forall a, b :: 0 <= a < b < |q| ==> Ahead(jobs, g, q[a], q[b])
  }

  lemma {:induction false} ArrivalsOrdered(procs: seq<Process>, now: int, k: nat)
    requires k <= |procs|
    ensures forall a, b :: 0 <= a < b < |Arrivals(procs, now, k)| ==>
                             Arrivals(procs, now, k)[a] < Arrivals(procs, now, k)[b]
  {
    if k > 0 {
      ArrivalsOrdered(procs, now, k - 1);
    }
  }

  /** What Noted says of an arrival. */
  lemma {:induction false} ArrivalWaits(c: Core, jobs: seq<Job>, now: nat, j: nat)
    requires Balanced(c, jobs, now) && j in Arrivals(c.procs, now, |c.procs|)
    ensures j < |jobs| && !Ran(c.gantt, j) && Since(jobs, c.gantt, j) == |c.gantt|
  {
    ArrivalsAre(c.procs, now, |c.procs|);
    assert Noted(c.procs[j], j, jobs, c.gantt, now, false);
    ArrivalIsFresh(jobs, c.gantt, j);
  }

  /** Admission keeps the order: whoever arrives goes behind everyone who waits already. */
  lemma {:induction false} AdmittedOrder(c: Core, jobs: seq<Job>, now: nat)
    requires Balanced(c, jobs, now) && Waited(jobs, c.gantt, c.ready, false) && InOrder(jobs, c.gantt, c.ready)
    ensures Waited(jobs, c.gantt, Prepared(c, now).ready, true) && InOrder(jobs, c.gantt, Prepared(c, now).ready)
  {
    var arr, q := Arrivals(c.procs, now, |c.procs|), Prepared(c, now).ready;
    assert q == c.ready + arr;
    ArrivalsOrdered(c.procs, now, |c.procs|);
    forall j | j in arr
      ensures j < |jobs| && !Ran(c.gantt, j) && Since(jobs, c.gantt, j) == |c.gantt|
    {
      ArrivalWaits(c, jobs, now, j);
    }
    forall a, b | 0 <= a < b < |q|
      ensures Ahead(jobs, c.gantt, q[a], q[b])
    {
      assert b >= |c.ready| ==> q[b] in arr;
      assert a >= |c.ready| ==> q[a] in arr;
      assert a < |c.ready| ==> q[a] in c.ready;
    }
  }

  /** A tick that runs none of them keeps the order of those who wait. */
  lemma {:induction false} OrderGrows(jobs: seq<Job>, g: Schedule, x: Option<nat>, q: seq<nat>)
    requires Waited(jobs, g, q, true) && InOrder(jobs, g, q) && (x.Some? ==> x.value !in q)
    ensures Waited(jobs, g + [x], q, false) && InOrder(jobs, g + [x], q)
  {
    forall i | i in q
      ensures Since(jobs, g + [x], i) < |g + [x]|
    {
      SinceGrows(jobs, g, x, i);
    }
    forall a, b | 0 <= a < b < |q|
      ensures Ahead(jobs, g + [x], q[a], q[b])
    {
      assert q[a] in q && q[b] in q;
      AheadGrows(jobs, g, x, q[a], q[b]);
    }
  }

  /** The job of the last tick, if it waits nowhere and does not run, is finished. */
  lemma {:induction false} GoneIsDone(c: Core, jobs: seq<Job>, now: nat)
    requires Balanced(c, jobs, now) && Waited(jobs, c.gantt, c.ready, false) && c.running.None?
    requires now > 0 && c.gantt[now - 1].Some?
    ensures c.gantt[now - 1].value < |jobs| && Left(jobs, c.gantt, c.gantt[now - 1].value) == 0
  {
    var i := c.gantt[now - 1].value;
    assert i in Outstanding(jobs, c.gantt[..now - 1]);
    assert Noted(c.procs[i], i, jobs, c.gantt, now, false);
    assert Since(jobs, c.gantt, i) == |c.gantt|;
    assert i !in c.ready;
  }

  /** Of two jobs that have run, the one of the last tick has waited less. */
  lemma {:induction false} SameLastTick(jobs: seq<Job>, g: Schedule, j: nat, i: nat)
    requires i < |jobs| && j < |jobs| && i != j && g != [] && g[|g| - 1] == Some(i)
    requires Since(jobs, g, j) <= |g|
    ensures Ahead(jobs, g, j, i)
  {
    var front := g[..|g| - 1];
    if Ran(g, j) {
      var t :| 0 <= t < |g| && g[t] == Some(j);
      assert front[t] == Some(j);
      RanBefore(jobs, front, j);
    }
  }

  lemma {:induction false} RanBefore(jobs: seq<Job>, g: Schedule, j: nat)
    requires j < |jobs| && Ran(g, j)
    ensures Since(jobs, g, j) <= |g|
  {
    var n := |g| - 1;
    if g[n] != Some(j) {
      var t :| 0 <= t < |g| && g[t] == Some(j);
      assert g[..n][t] == Some(j);
      RanBefore(jobs, g[..n], j);
    }
  }

  lemma {:induction false} PreparedCounts(c: Core, now: int)
    requires Indexed(c)
    ensures Prepared(c, now).busy == c.busy && Prepared(c, now).switches == c.switches
  {
  }
}
