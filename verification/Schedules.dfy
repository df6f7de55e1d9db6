/**
  Schedules of a single CPU in the abstract: jobs with an arrival tick and a burst, and a
  schedule that names at most one job per tick.  Nothing here knows how a scheduler picks;
  this is the reference the schedulers of pkg/cpu are measured against.
 */
module Schedules {
  import opened Collections

  datatype Job = Job(arrival: int, burst: int)

  type Schedule = seq<Option<nat>>

  predicate ProperJobs(jobs: seq<Job>) {
    forall i :: 0 <= i < |jobs| ==> 0 <= jobs[i].arrival && 1 <= jobs[i].burst
  }

  /** Work job i still has after the ticks of `s`.  Naming a job that has not arrived, or that
      has already finished, wastes the tick. */
  function Left(jobs: seq<Job>, s: Schedule, i: nat): (r: nat)
    requires ProperJobs(jobs) && i < |jobs|
    ensures r <= jobs[i].burst
    ensures |s| <= jobs[i].arrival ==> r == jobs[i].burst
  {
    if s == [] then jobs[i].burst
    else
      var t := |s| - 1;
      var r := Left(jobs, s[..t], i);
      if s[t] == Some(i) && jobs[i].arrival <= t && r > 0 then r - 1 else r
  }

  /** The jobs in the system at tick |s|: arrived by then and unfinished by the ticks of `s`. */
  ghost function Outstanding(jobs: seq<Job>, s: Schedule): set<nat>
    requires ProperJobs(jobs)
  {
    set i: nat | i < |jobs| && jobs[i].arrival <= |s| && Left(jobs, s, i) > 0
  }

  ghost predicate AllDone(jobs: seq<Job>, s: Schedule)
    requires ProperJobs(jobs)
  {
    forall i: nat :: i < |jobs| ==> Left(jobs, s, i) == 0
  }

  /** Every tick that has an outstanding job runs one. */
  ghost predicate WorkConserving(jobs: seq<Job>, s: Schedule)
    requires ProperJobs(jobs)
  {
    forall t :: 0 <= t < |s| ==>
      if s[t].None? then Outstanding(jobs, s[..t]) == {} else s[t].value in Outstanding(jobs, s[..t])
  }

  /** Every tick runs an outstanding job with the least work left. */
  ghost predicate ShortestFirst(jobs: seq<Job>, s: Schedule)
    requires ProperJobs(jobs)
  {
    && WorkConserving(jobs, s)
    && forall t, i :: 0 <= t < |s| && s[t].Some? && i in Outstanding(jobs, s[..t]) ==>
         s[t].value < |jobs| && Left(jobs, s[..t], s[t].value) <= Left(jobs, s[..t], i)
  }

  // ---------------------------------------------------------------------------------------
  // Turnaround
  // ---------------------------------------------------------------------------------------

  /** The first time at which job i has no work left. */
  function Finish(jobs: seq<Job>, s: Schedule, i: nat): (f: nat)
    requires ProperJobs(jobs) && i < |jobs| && Left(jobs, s, i) == 0
    ensures f <= |s| && Left(jobs, s[..f], i) == 0
    ensures forall t :: 0 <= t < f ==> Left(jobs, s[..t], i) > 0
  {
    var t := |s| - 1;
    if Left(jobs, s[..t], i) == 0 then
      var f := Finish(jobs, s[..t], i);
      assert s[..t][..f] == s[..f];
      assert forall u :: 0 <= u < f ==> s[..t][..u] == s[..u];
      f
    else
      assert s[..|s|] == s;
      LeftShrinks(jobs, s[..t], i);
      assert forall u :: 0 <= u <= t ==> s[..t][..u] == s[..u];
      |s|
  }

  lemma {:induction false} LeftShrinks(jobs: seq<Job>, s: Schedule, i: nat)
    requires ProperJobs(jobs) && i < |jobs|
    ensures forall t :: 0 <= t <= |s| ==> Left(jobs, s, i) <= Left(jobs, s[..t], i)
  {
    if s == [] {
      assert s[..0] == s;
    } else {
      LeftShrinks(jobs, s[..|s|-1], i);
      forall t | 0 <= t <= |s| ensures Left(jobs, s, i) <= Left(jobs, s[..t], i) {
        if t == |s| { assert s[..t] == s; } else { assert s[..|s|-1][..t] == s[..t]; }
      }
    }
  }

  /** Sum over all jobs of finish minus arrival: what pkg/cpu/scheduler.go averages. */
  ghost function TotalTurnaround(jobs: seq<Job>, s: Schedule, n: nat): int
    requires ProperJobs(jobs) && AllDone(jobs, s) && n <= |jobs|
  {
    if n == 0 then 0
    else TotalTurnaround(jobs, s, n - 1) + Finish(jobs, s, n - 1) - jobs[n-1].arrival
  }

  /** Sum over all ticks of the number of jobs in the system. */
  ghost function FlowTime(jobs: seq<Job>, s: Schedule): nat
    requires ProperJobs(jobs)
  {
    if s == [] then 0
    else FlowTime(jobs, s[..|s|-1]) + |Outstanding(jobs, s[..|s|-1])|
  }

  /** Ticks that job i spent in the system. */
  ghost function Stay(jobs: seq<Job>, s: Schedule, i: nat): nat
    requires ProperJobs(jobs) && i < |jobs|
  {
    if s == [] then 0
    else Stay(jobs, s[..|s|-1], i) + if i in Outstanding(jobs, s[..|s|-1]) then 1 else 0
  }

  ghost function TotalStay(jobs: seq<Job>, s: Schedule, n: nat): nat
    requires ProperJobs(jobs) && n <= |jobs|
  {
    if n == 0 then 0 else TotalStay(jobs, s, n - 1) + Stay(jobs, s, n - 1)
  }

  lemma {:induction false} StayIsTurnaround(jobs: seq<Job>, s: Schedule, i: nat)
    requires ProperJobs(jobs) && i < |jobs|
    ensures Left(jobs, s, i) > 0 ==>
              Stay(jobs, s, i) == if jobs[i].arrival < |s| then |s| - jobs[i].arrival else 0
    ensures Left(jobs, s, i) == 0 ==> Stay(jobs, s, i) == Finish(jobs, s, i) - jobs[i].arrival
  {
    if s != [] {
      StayIsTurnaround(jobs, s[..|s|-1], i);
    }
  }

  ghost function Below(x: set<nat>, n: nat): set<nat> {
    set i | i in x && i < n
  }

  lemma BelowGrows(o: set<nat>, n: nat)
    requires n > 0
    ensures |Below(o, n)| == |Below(o, n - 1)| + if n - 1 in o then 1 else 0
  {
    if n - 1 in o {
      assert Below(o, n) == Below(o, n - 1) + {n - 1};
    } else {
      assert Below(o, n) == Below(o, n - 1);
    }
  }

  lemma {:induction false} TotalStayStep(jobs: seq<Job>, s: Schedule, n: nat)
    requires ProperJobs(jobs) && n <= |jobs| && s != []
    ensures TotalStay(jobs, s, n) ==
            TotalStay(jobs, s[..|s|-1], n) + |Below(Outstanding(jobs, s[..|s|-1]), n)|
  {
    var o := Outstanding(jobs, s[..|s|-1]);
    if n == 0 {
      assert Below(o, 0) == {};
    } else {
      TotalStayStep(jobs, s, n - 1);
      BelowGrows(o, n);
      assert Stay(jobs, s, n - 1) == Stay(jobs, s[..|s|-1], n - 1) + if n - 1 in o then 1 else 0;
    }
  }

  lemma {:induction false} TotalStayEmpty(jobs: seq<Job>, n: nat)
    requires ProperJobs(jobs) && n <= |jobs|
    ensures TotalStay(jobs, [], n) == 0
  {
    if n != 0 { TotalStayEmpty(jobs, n - 1); }
  }

  lemma {:induction false} FlowIsTotalStay(jobs: seq<Job>, s: Schedule)
    requires ProperJobs(jobs)
    ensures FlowTime(jobs, s) == TotalStay(jobs, s, |jobs|)
  {
    if s == [] {
      TotalStayEmpty(jobs, |jobs|);
    } else {
      FlowIsTotalStay(jobs, s[..|s|-1]);
      TotalStayStep(jobs, s, |jobs|);
      var o := Outstanding(jobs, s[..|s|-1]);
      assert Below(o, |jobs|) == o;
    }
  }

  lemma {:induction false} TurnaroundIsTotalStay(jobs: seq<Job>, s: Schedule, n: nat)
    requires ProperJobs(jobs) && AllDone(jobs, s) && n <= |jobs|
    ensures TotalTurnaround(jobs, s, n) == TotalStay(jobs, s, n)
  {
    if n != 0 {
      StayIsTurnaround(jobs, s, n - 1);
      TurnaroundIsTotalStay(jobs, s, n - 1);
      assert Left(jobs, s, n - 1) == 0;
    }
  }

  /** Counting a finished schedule by jobs and by ticks gives the same total. */
  lemma TurnaroundIsFlow(jobs: seq<Job>, s: Schedule)
    requires ProperJobs(jobs) && AllDone(jobs, s)
    ensures TotalTurnaround(jobs, s, |jobs|) == FlowTime(jobs, s)
  {
    TurnaroundIsTotalStay(jobs, s, |jobs|);
    FlowIsTotalStay(jobs, s);
  }

  // ---------------------------------------------------------------------------------------
  // A work-conserving schedule finishes by (last arrival + total burst)
  // ---------------------------------------------------------------------------------------

  ghost function TotalLeft(jobs: seq<Job>, s: Schedule, n: nat): nat
    requires ProperJobs(jobs) && n <= |jobs|
  {
    if n == 0 then 0 else TotalLeft(jobs, s, n - 1) + Left(jobs, s, n - 1)
  }

  ghost function TotalBurst(jobs: seq<Job>): nat
    requires ProperJobs(jobs)
  {
    TotalLeft(jobs, [], |jobs|)
  }

  ghost predicate ArrivedBy(jobs: seq<Job>, last: int) {
    forall i :: 0 <= i < |jobs| ==> jobs[i].arrival <= last
  }

  lemma {:induction false} TotalLeftTick(jobs: seq<Job>, s: Schedule, n: nat)
    requires ProperJobs(jobs) && n <= |jobs| && s != []
    ensures TotalLeft(jobs, s, n) == TotalLeft(jobs, s[..|s|-1], n)
              - if s[|s|-1].Some? && s[|s|-1].value < n && s[|s|-1].value in Outstanding(jobs, s[..|s|-1]) then 1 else 0
  {
    if n != 0 { TotalLeftTick(jobs, s, n - 1); }
  }

  lemma {:induction false} SomethingLeft(jobs: seq<Job>, s: Schedule, n: nat)
    requires ProperJobs(jobs) && n <= |jobs|
    ensures TotalLeft(jobs, s, n) == 0 ==> forall i: nat :: i < n ==> Left(jobs, s, i) == 0
    ensures TotalLeft(jobs, s, n) > 0 ==> exists i: nat :: i < n && Left(jobs, s, i) > 0
  {
    if n != 0 { SomethingLeft(jobs, s, n - 1); }
  }

  lemma {:induction false} WorkDrains(jobs: seq<Job>, s: Schedule, last: nat)
    requires ProperJobs(jobs) && ArrivedBy(jobs, last) && WorkConserving(jobs, s)
    ensures TotalLeft(jobs, s, |jobs|) <= TotalBurst(jobs)
    ensures last <= |s| ==> TotalLeft(jobs, s, |jobs|) == 0 ||
                            TotalLeft(jobs, s, |jobs|) <= TotalBurst(jobs) - (|s| - last)
  {
    if s != [] {
      var t := |s| - 1;
      assert WorkConserving(jobs, s[..t]) by {
        forall u | 0 <= u < t
          ensures if s[..t][u].None? then Outstanding(jobs, s[..t][..u]) == {}
                  else s[..t][u].value in Outstanding(jobs, s[..t][..u])
        {
          assert s[..t][..u] == s[..u];
        }
      }
      WorkDrains(jobs, s[..t], last);
      TotalLeftTick(jobs, s, |jobs|);
      SomethingLeft(jobs, s[..t], |jobs|);
      if s[t].None? && last <= t {
        assert Outstanding(jobs, s[..t]) == {};
        forall i: nat | i < |jobs| ensures Left(jobs, s[..t], i) == 0 {
          assert i !in Outstanding(jobs, s[..t]);
        }
      }
    }
  }

  lemma WorkConservingFinishes(jobs: seq<Job>, s: Schedule, last: nat)
    requires ProperJobs(jobs) && ArrivedBy(jobs, last) && WorkConserving(jobs, s)
    requires |s| >= last + TotalBurst(jobs)
    ensures AllDone(jobs, s)
  {
    WorkDrains(jobs, s, last);
    SomethingLeft(jobs, s, |jobs|);
  }
}
