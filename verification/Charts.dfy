/**
  What a Gantt chart says about the policy that made it.  A policy is given here by the chart alone:
  when the job of the last tick goes on, and who is next when it does not.  Only one chart follows a
  policy, so these definitions are the reference for the schedulers of pkg/cpu.
 */
module Charts {
  import opened Collections
  import opened Schedules

  datatype Policy = RoundRobin(quantum: nat) | ShortestJob | ShortestRemaining

  // ---- Who has waited longest ----

  /** When the wait of job j began: after the last tick that ran it, or at its arrival. */
  function Since(jobs: seq<Job>, g: Schedule, j: nat): int
    requires j < |jobs|
  {
    if g == [] then jobs[j].arrival
    else if g[|g| - 1] == Some(j) then |g|
    else Since(jobs, g[..|g| - 1], j)
  }

  predicate Ran(g: Schedule, j: nat) {
    Some(j) in g
  }

  /** i is served before j, other things being equal: it has waited longer, or as long and it is an
      arrival and j is not, or both are arrivals and i is listed first. */
  predicate Ahead(jobs: seq<Job>, g: Schedule, i: nat, j: nat)
    requires i < |jobs| && j < |jobs|
  {
    || Since(jobs, g, i) < Since(jobs, g, j)
    || (Since(jobs, g, i) == Since(jobs, g, j) && !Ran(g, i) && (Ran(g, j) || i < j))
  }

  /** Ticks of the slice that the last tick belongs to; a slice that has reached q ticks is over. */
  function Slice(g: Schedule, q: nat): nat {
    if g == [] || g[|g| - 1].None? then 0
    else
      var n := |g| - 1;
      var before := if n > 0 && g[n - 1] == g[n] then Slice(g[..n], q) else 0;
      if before == q then 1 else before + 1
  }

  // ---- The policies ----

  /** The job of the last tick has work left and keeps the CPU. */
  ghost predicate GoesOn(policy: Policy, jobs: seq<Job>, g: Schedule)
    requires ProperJobs(jobs)
  {
    && g != [] && g[|g| - 1].Some? && g[|g| - 1].value < |jobs|
    && var i := g[|g| - 1].value;
       && Left(jobs, g, i) > 0
       && match policy
          case RoundRobin(q) => Slice(g, q) < q
          case ShortestJob => true
          case ShortestRemaining => forall j :: j in Outstanding(jobs, g) ==> Left(jobs, g, i) <= Left(jobs, g, j)
  }

  function Rank(policy: Policy, jobs: seq<Job>, g: Schedule, i: nat): int
    requires ProperJobs(jobs) && i < |jobs|
  {
    match policy
    case RoundRobin(_) => 0
    case ShortestJob => jobs[i].burst
    case ShortestRemaining => Left(jobs, g, i)
  }

  predicate Before(policy: Policy, jobs: seq<Job>, g: Schedule, i: nat, j: nat)
    requires ProperJobs(jobs) && i < |jobs| && j < |jobs|
  {
    || Rank(policy, jobs, g, i) < Rank(policy, jobs, g, j)
    || (Rank(policy, jobs, g, i) == Rank(policy, jobs, g, j) && Ahead(jobs, g, i, j))
  }

  /** x is first in line among the jobs in the system. */
  ghost predicate First(policy: Policy, jobs: seq<Job>, g: Schedule, x: nat)
    requires ProperJobs(jobs)
  {
    x in Outstanding(jobs, g) && forall j :: j in Outstanding(jobs, g) && j != x ==> Before(policy, jobs, g, x, j)
  }

  /** What tick |g| runs after the ticks of g. */
  ghost predicate Next(policy: Policy, jobs: seq<Job>, g: Schedule, x: Option<nat>)
    requires ProperJobs(jobs)
  {
    if GoesOn(policy, jobs, g) then x == g[|g| - 1]
    else if x.None? then Outstanding(jobs, g) == {}
    else First(policy, jobs, g, x.value)
  }

  ghost predicate Follows(policy: Policy, jobs: seq<Job>, g: Schedule)
    requires ProperJobs(jobs)
  {
    forall t :: 0 <= t < |g| ==> Next(policy, jobs, g[..t], g[t])
  }

  lemma {:induction false} FollowsGrows(policy: Policy, jobs: seq<Job>, g: Schedule, x: Option<nat>)
    requires ProperJobs(jobs) && Follows(policy, jobs, g) && Next(policy, jobs, g, x)
    ensures Follows(policy, jobs, g + [x])
  {
    hide Next;
    var h := g + [x];
    forall t | 0 <= t < |h|
      ensures Next(policy, jobs, h[..t], h[t])
    {
      if t < |g| {
        assert h[..t] == g[..t];
      } else {
        assert h[..t] == g;
      }
    }
  }

  // ---- Only one chart follows a policy ----

  lemma {:induction false} NextIsUnique(policy: Policy, jobs: seq<Job>, g: Schedule, x: Option<nat>, y: Option<nat>)
    requires ProperJobs(jobs) && Next(policy, jobs, g, x) && Next(policy, jobs, g, y)
    ensures x == y
  {
  }

  /** Two charts of the same length that follow the same policy are the same chart. */
  lemma {:induction false} OnlyOneChart(policy: Policy, jobs: seq<Job>, g: Schedule, h: Schedule)
    requires ProperJobs(jobs) && Follows(policy, jobs, g) && Follows(policy, jobs, h) && |g| == |h|
    ensures g == h
  {
    hide Next;
    if g != [] {
      var n := |g| - 1;
      FrontFollows(policy, jobs, g);
      FrontFollows(policy, jobs, h);
      OnlyOneChart(policy, jobs, g[..n], h[..n]);
      NextIsUnique(policy, jobs, g[..n], g[n], h[n]);
      assert g == g[..n] + [g[n]] && h == h[..n] + [h[n]];
    }
  }

  lemma {:induction false} FrontFollows(policy: Policy, jobs: seq<Job>, g: Schedule)
    requires ProperJobs(jobs) && Follows(policy, jobs, g) && g != []
    ensures Follows(policy, jobs, g[..|g| - 1]) && Next(policy, jobs, g[..|g| - 1], g[|g| - 1])
  {
    hide Next;
    var front := g[..|g| - 1];
    forall t | 0 <= t < |front|
      ensures Next(policy, jobs, front[..t], front[t])
    {
      assert front[..t] == g[..t];
    }
  }

  // ---- What the policies mean ----

  /** Whoever runs is a job that has arrived. */
  lemma {:induction false} RunsArrived(policy: Policy, jobs: seq<Job>, g: Schedule, t: nat)
    requires ProperJobs(jobs) && Follows(policy, jobs, g) && t < |g| && g[t].Some?
    ensures g[t].value < |jobs| && jobs[g[t].value].arrival <= t
  {
    assert Next(policy, jobs, g[..t], g[t]);
    if GoesOn(policy, jobs, g[..t]) {
      RunsArrived(policy, jobs, g, t - 1);
    }
  }

  lemma {:induction false} SinceBound(jobs: seq<Job>, g: Schedule, j: nat)
    requires j < |jobs| && jobs[j].arrival <= |g|
    ensures Since(jobs, g, j) <= |g|
  {
    if g != [] && g[|g| - 1] != Some(j) && jobs[j].arrival < |g| {
      SinceBound(jobs, g[..|g| - 1], j);
    } else if g != [] && g[|g| - 1] != Some(j) {
      SinceUnless(jobs, g[..|g| - 1], j);
    }
  }

  lemma {:induction false} SinceUnless(jobs: seq<Job>, g: Schedule, j: nat)
    requires j < |jobs|
    ensures Since(jobs, g, j) == jobs[j].arrival || Since(jobs, g, j) <= |g|
    ensures !Ran(g, j) ==> Since(jobs, g, j) == jobs[j].arrival
  {
    if g != [] {
      assert g[|g| - 1] in g;
      assert Ran(g[..|g| - 1], j) ==> Ran(g, j);
      SinceUnless(jobs, g[..|g| - 1], j);
    }
  }

  lemma {:induction false} SliceIsUnbroken(g: Schedule, q: nat, t: nat)
    requires |g| - Slice(g, q) <= t < |g|
    ensures g[t] == g[|g| - 1]
  {
    var n := |g| - 1;
    if t < n {
      SliceIsUnbroken(g[..n], q, t);
    }
  }

  /** Round robin takes the CPU from a job with work left only after q ticks in a row. */
  lemma {:induction false} WholeQuantum(jobs: seq<Job>, g: Schedule, q: nat, t: nat)
    requires ProperJobs(jobs) && Follows(RoundRobin(q), jobs, g) && q > 0
    requires t + 1 < |g| && g[t].Some? && g[t + 1] != g[t]
    ensures g[t].value < |jobs|
    ensures || Left(jobs, g[..t + 1], g[t].value) == 0
            || (t + 1 >= q && forall u :: t + 1 - q <= u <= t ==> g[u] == g[t])
  {
    var h := g[..t + 1];
    RunsArrived(RoundRobin(q), jobs, g, t);
    assert Next(RoundRobin(q), jobs, h, g[t + 1]);
    SliceBound(h, q);
    if Left(jobs, h, g[t].value) > 0 {
      assert Slice(h, q) == q;
      forall u | t + 1 - q <= u <= t
        ensures 0 <= u && g[u] == g[t]
      {
        SliceIsUnbroken(h, q, t);
        if 0 <= u {
          SliceIsUnbroken(h, q, u);
        }
      }
    }
  }

  lemma {:induction false} SliceBound(g: Schedule, q: nat)
    requires q > 0
    ensures Slice(g, q) <= q && Slice(g, q) <= |g|
  {
    if g != [] {
      SliceBound(g[..|g| - 1], q);
    }
  }

  /** And after q ticks of a slice it takes it, if anyone else is in the system. */
  lemma {:induction false} QuantumEnds(jobs: seq<Job>, g: Schedule, q: nat, t: nat, j: nat)
    requires ProperJobs(jobs) && Follows(RoundRobin(q), jobs, g) && t + 1 < |g| && g[t].Some?
    requires Slice(g[..t + 1], q) == q && j in Outstanding(jobs, g[..t + 1]) && Some(j) != g[t]
    ensures g[t + 1] != g[t]
  {
    var h := g[..t + 1];
    RunsArrived(RoundRobin(q), jobs, g, t);
    SinceBound(jobs, h, j);
    assert Next(RoundRobin(q), jobs, h, g[t + 1]);
  }

  /** Shortest job first starts a shortest job of those in the system and never interrupts it. */
  lemma {:induction false} ShortestStarts(jobs: seq<Job>, g: Schedule, t: nat, j: nat)
    requires ProperJobs(jobs) && Follows(ShortestJob, jobs, g) && t < |g| && g[t].Some?
    requires t == 0 || g[t - 1] != g[t]
    ensures g[t].value < |jobs|
    ensures j in Outstanding(jobs, g[..t]) ==> jobs[g[t].value].burst <= jobs[j].burst
    ensures t > 0 && g[t - 1].Some? ==> g[t - 1].value < |jobs| && Left(jobs, g[..t], g[t - 1].value) == 0
  {
    RunsArrived(ShortestJob, jobs, g, t);
    if t > 0 && g[t - 1].Some? {
      RunsArrived(ShortestJob, jobs, g, t - 1);
    }
    assert Next(ShortestJob, jobs, g[..t], g[t]);
  }

  /** Shortest remaining time first changes the running job only for a strictly shorter one, or when
      it is finished. */
  lemma {:induction false} StrictlyShorter(jobs: seq<Job>, g: Schedule, t: nat)
    requires ProperJobs(jobs) && Follows(ShortestRemaining, jobs, g) && t + 1 < |g|
    requires g[t].Some? && g[t + 1] != g[t]
    ensures g[t].value < |jobs|
    ensures || Left(jobs, g[..t + 1], g[t].value) == 0
            || (&& g[t + 1].Some? && g[t + 1].value < |jobs|
                && Left(jobs, g[..t + 1], g[t + 1].value) < Left(jobs, g[..t + 1], g[t].value))
  {
    var h := g[..t + 1];
    RunsArrived(ShortestRemaining, jobs, g, t);
    assert Next(ShortestRemaining, jobs, h, g[t + 1]);
    if Left(jobs, h, g[t].value) > 0 {
      assert g[t].value in Outstanding(jobs, h);
      var j :| j in Outstanding(jobs, h) && Left(jobs, h, g[t].value) > Left(jobs, h, j);
      assert j != g[t + 1].value ==> Before(ShortestRemaining, jobs, h, g[t + 1].value, j);
    }
  }

  // ---- What the counters of a scheduler count ----

  /** Ticks that ran a job. */
  function Busy(g: Schedule): nat {
    if g == [] then 0 else Busy(g[..|g| - 1]) + if g[|g| - 1].Some? then 1 else 0
  }

  /** Ticks that ran another job than the tick before. */
  function Starts(g: Schedule): nat {
    if g == [] then 0
    else
      var n := |g| - 1;
      Starts(g[..n]) + if g[n].Some? && (n == 0 || g[n - 1] != g[n]) then 1 else 0
  }

  /** Ticks that began a slice of q ticks. */
  function SliceStarts(g: Schedule, q: nat): nat {
    if g == [] then 0
    else SliceStarts(g[..|g| - 1], q) + if Slice(g, q) == 1 then 1 else 0
  }
}
