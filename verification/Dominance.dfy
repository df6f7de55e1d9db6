/**
  Why running the job with the least work left is optimal: a majorisation argument.
  `x` dominates `y` when, whatever set of jobs is struck off `y`, some set no larger can be
  struck off `x` that leaves no more work.  Arrivals keep this, and so does a tick that
  serves the shortest job of `x` and any job, or none, of `y`.
 */
module Dominance {
  import opened Collections
  import opened Schedules

  type Backlog = seq<nat>

  /** The work outside the struck-off set. */
  ghost function Rest(x: Backlog, k: set<nat>): nat {
    if x == [] then 0
    else Rest(x[..|x|-1], k) + if |x| - 1 in k then 0 else x[|x|-1]
  }

  ghost predicate Reduces(x: Backlog, size: nat, bound: int) {
    exists k: set<nat> :: |k| <= size && Rest(x, k) <= bound
  }

  ghost predicate Dominates(x: Backlog, y: Backlog) {
    |x| == |y| && forall k: set<nat> :: Reduces(x, |k|, Rest(y, k))
  }

  ghost function Busy(x: Backlog): set<nat> {
    set i: nat | i < |x| && x[i] > 0
  }

  lemma Reduction(x: Backlog, y: Backlog, k: set<nat>) returns (r: set<nat>)
    requires Dominates(x, y)
    ensures |r| <= |k| && Rest(x, r) <= Rest(y, k)
  {
    assert Reduces(x, |k|, Rest(y, k));
    r :| |r| <= |k| && Rest(x, r) <= Rest(y, k);
  }

  lemma {:induction false} RestSplits(x: Backlog, kx: set<nat>, y: Backlog, ky: set<nat>, z: Backlog, kz: set<nat>)
    requires |x| == |y| == |z|
    requires forall i: nat :: i < |x| ==>
               (if i in kx then 0 else x[i]) <= (if i in ky then 0 else y[i]) + (if i in kz then 0 else z[i])
    ensures Rest(x, kx) <= Rest(y, ky) + Rest(z, kz)
  {
    if x != [] {
      var n := |x| - 1;
      assert forall i: nat :: i < n ==> x[..n][i] == x[i] && y[..n][i] == y[i] && z[..n][i] == z[i];
      RestSplits(x[..n], kx, y[..n], ky, z[..n], kz);
    }
  }

  lemma {:induction false} RestJoins(x: Backlog, kx: set<nat>, y: Backlog, ky: set<nat>, z: Backlog, kz: set<nat>)
    requires |x| == |y| == |z|
    requires forall i: nat :: i < |x| ==>
               (if i in kx then 0 else x[i]) >= (if i in ky then 0 else y[i]) + (if i in kz then 0 else z[i])
    ensures Rest(x, kx) >= Rest(y, ky) + Rest(z, kz)
  {
    if x != [] {
      var n := |x| - 1;
      assert forall i: nat :: i < n ==> x[..n][i] == x[i] && y[..n][i] == y[i] && z[..n][i] == z[i];
      RestJoins(x[..n], kx, y[..n], ky, z[..n], kz);
    }
  }

  lemma {:induction false} RestUpdate(x: Backlog, i: nat, v: nat, k: set<nat>)
    requires i < |x|
    ensures Rest(x[i := v], k) == Rest(x, k) + if i in k then 0 else v - x[i]
  {
    var n := |x| - 1;
    if i == n {
      assert x[i := v][..n] == x[..n];
    } else {
      assert x[i := v][..n] == x[..n][i := v];
      RestUpdate(x[..n], i, v, k);
    }
  }

  /** Striking off one more job saves exactly its work. */
  lemma {:induction false} RestStrike(x: Backlog, i: nat, k: set<nat>)
    requires i < |x| && i !in k
    ensures Rest(x, k + {i}) == Rest(x, k) - x[i]
  {
    var n := |x| - 1;
    if i == n {
      RestAgree(x[..n], k + {i}, k);
    } else {
      RestStrike(x[..n], i, k);
    }
  }

  lemma {:induction false} RestAgree(x: Backlog, k: set<nat>, k': set<nat>)
    requires forall i: nat :: i < |x| ==> (i in k <==> i in k')
    ensures Rest(x, k) == Rest(x, k')
  {
    if x != [] { RestAgree(x[..|x|-1], k, k'); }
  }

  lemma {:induction false} RestZero(x: Backlog, k: set<nat>)
    ensures Rest(x, k) == 0 <==> Busy(x) <= k
  {
    if x != [] {
      var n := |x| - 1;
      RestZero(x[..n], k);
      if x[n] > 0 {
        assert Busy(x) == Busy(x[..n]) + {n};
      } else {
        assert Busy(x) == Busy(x[..n]);
      }
    }
  }

  /** Serving the shortest busy job takes one unit off every reduction that had one to give. */
  lemma ServeShortest(x: Backlog, s: nat, size: nat, bound: nat)
    requires Reduces(x, size, bound)
    requires s in Busy(x) && forall i :: i in Busy(x) ==> x[s] <= x[i]
    ensures Reduces(x[s := x[s] - 1], size, if bound == 0 then 0 else bound - 1)
  {
    var k: set<nat> :| |k| <= size && Rest(x, k) <= bound;
    var x' := x[s := x[s] - 1];
    if Rest(x, k) == 0 {
      RestUpdate(x, s, x[s] - 1, k);
      assert Rest(x', k) == 0;
    } else if s !in k {
      RestUpdate(x, s, x[s] - 1, k);
    } else {
      RestZero(x, k);
      var q :| q in Busy(x) && q !in k;
      var base := k - {s};
      var k' := base + {q};
      assert k == base + {s};
      RestStrike(x, s, base);
      RestStrike(x, q, base);
      RestUpdate(x, s, x[s] - 1, k');
      assert |k'| == |k|;
    }
  }

  lemma ServeDominates(x: Backlog, s: nat, y: Backlog, j: nat)
    requires Dominates(x, y)
    requires s in Busy(x) && forall i :: i in Busy(x) ==> x[s] <= x[i]
    requires j < |y|
    ensures Dominates(x[s := x[s] - 1], y[j := if y[j] > 0 then y[j] - 1 else 0])
  {
    var y' := y[j := if y[j] > 0 then y[j] - 1 else 0];
    forall k: set<nat> ensures Reduces(x[s := x[s] - 1], |k|, Rest(y', k)) {
      RestUpdate(y, j, y'[j], k);
      assert Reduces(x, |k|, Rest(y, k));
      ServeShortest(x, s, |k|, Rest(y, k));
      var r: set<nat> :| |r| <= |k| && Rest(x[s := x[s] - 1], r) <= if Rest(y, k) == 0 then 0 else Rest(y, k) - 1;
      assert Rest(x[s := x[s] - 1], r) <= Rest(y', k);
    }
  }

  lemma IdleDominates(x: Backlog, y: Backlog)
    requires |x| == |y| && Busy(x) == {}
    ensures Dominates(x, y)
  {
    forall k: set<nat> ensures Reduces(x, |k|, Rest(y, k)) {
      var none: set<nat> := {};
      RestZero(x, none);
      assert |none| <= |k| && Rest(x, none) <= Rest(y, k);
    }
  }

  ghost predicate Receives(x: Backlog, y: Backlog, a: Backlog, x': Backlog, y': Backlog) {
    && |a| == |x| == |y| == |x'| == |y'|
    && (forall i :: 0 <= i < |a| ==> x'[i] == x[i] + a[i] && y'[i] == y[i] + a[i])
    && (forall i :: 0 <= i < |a| && a[i] > 0 ==> x[i] == 0 && y[i] == 0)
  }

  lemma {:induction false} ArrivalsReduce(x: Backlog, y: Backlog, a: Backlog, x': Backlog, y': Backlog,
                                          k: set<nat>, r: set<nat>)
    requires Receives(x, y, a, x', y')
    requires |r| <= |k - Busy(a)| && Rest(x, r) <= Rest(y, k - Busy(a))
    ensures Reduces(x', |k|, Rest(y', k))
  {
    var fresh': set<nat> := k * Busy(a);
    var old': set<nat> := k - Busy(a);
    var r': set<nat> := r + fresh';
    RestSplits(x', r', x, r, a, k);
    RestJoins(y', k, y, old', a, k);
    assert k == old' + fresh' && |k| == |old'| + |fresh'|;
    UnionSize(r, fresh');
    assert |r'| <= |k| && Rest(x', r') <= Rest(y', k);
  }

  /** Both sides receive the same arrivals, in places that hold no work yet. */
  lemma ArrivalsDominate(x: Backlog, y: Backlog, a: Backlog, x': Backlog, y': Backlog)
    requires Dominates(x, y) && Receives(x, y, a, x', y')
    ensures Dominates(x', y')
  {
    forall k: set<nat> ensures Reduces(x', |k|, Rest(y', k)) {
      var r := Reduction(x, y, k - Busy(a));
      ArrivalsReduce(x, y, a, x', y', k, r);
    }
  }

  lemma UnionSize(a: set<nat>, b: set<nat>)
    ensures |a + b| <= |a| + |b|
  {
    assert a + b == a + (b - a);
    assert |b - a| <= |b| by { SubsetSize(b - a, b); }
  }

  /** Domination bounds the number of jobs in the system. */
  lemma DominatesCount(x: Backlog, y: Backlog)
    requires Dominates(x, y)
    ensures |Busy(x)| <= |Busy(y)|
  {
    RestZero(y, Busy(y));
    assert Reduces(x, |Busy(y)|, Rest(y, Busy(y)));
    var k: set<nat> :| |k| <= |Busy(y)| && Rest(x, k) <= 0;
    RestZero(x, k);
    SubsetSize(Busy(x), k);
  }

  // ---------------------------------------------------------------------------------------
  // Applied to schedules
  // ---------------------------------------------------------------------------------------

  /** Work in the system at tick |s|, job by job; jobs that have not arrived count as empty. */
  ghost function Load(jobs: seq<Job>, s: Schedule): (x: Backlog)
    requires ProperJobs(jobs)
    ensures |x| == |jobs|
  {
    seq(|jobs|, i requires 0 <= i < |jobs| => if jobs[i].arrival <= |s| then Left(jobs, s, i) else 0)
  }

  /** Work left after tick t of the jobs that were in the system at tick t. */
  ghost function Served(jobs: seq<Job>, s: Schedule): (x: Backlog)
    requires ProperJobs(jobs) && s != []
    ensures |x| == |jobs|
  {
    seq(|jobs|, i requires 0 <= i < |jobs| => if jobs[i].arrival < |s| then Left(jobs, s, i) else 0)
  }

  ghost function Arriving(jobs: seq<Job>, t: nat): (a: Backlog)
    requires ProperJobs(jobs)
    ensures |a| == |jobs|
  {
    seq(|jobs|, i requires 0 <= i < |jobs| => if jobs[i].arrival == t then jobs[i].burst else 0)
  }

  lemma ServedIs(jobs: seq<Job>, s: Schedule)
    requires ProperJobs(jobs) && s != []
    ensures var t := |s| - 1; var x := Load(jobs, s[..t]);
            Served(jobs, s) == if s[t].Some? && s[t].value < |jobs| && x[s[t].value] > 0
                               then x[s[t].value := x[s[t].value] - 1] else x
  {
    var t := |s| - 1;
    var x := Load(jobs, s[..t]);
    forall i | 0 <= i < |jobs|
      ensures Served(jobs, s)[i] == if s[t] == Some(i) && x[i] > 0 then x[i] - 1 else x[i]
    {
    }
  }

  lemma LoadIs(jobs: seq<Job>, s: Schedule)
    requires ProperJobs(jobs) && s != []
    ensures forall i :: 0 <= i < |jobs| ==> Load(jobs, s)[i] == Served(jobs, s)[i] + Arriving(jobs, |s|)[i]
    ensures forall i :: 0 <= i < |jobs| && Arriving(jobs, |s|)[i] > 0 ==> Served(jobs, s)[i] == 0
  {
  }

  lemma ShortestFirstPrefix(jobs: seq<Job>, s: Schedule)
    requires ProperJobs(jobs) && s != [] && ShortestFirst(jobs, s)
    ensures ShortestFirst(jobs, s[..|s|-1])
  {
    var p := s[..|s|-1];
    assert forall u :: 0 <= u < |p| ==> p[..u] == s[..u];
  }

  lemma LoadBusy(jobs: seq<Job>, s: Schedule)
    requires ProperJobs(jobs)
    ensures Busy(Load(jobs, s)) == Outstanding(jobs, s)
  {
  }

  lemma RunsShortest(jobs: seq<Job>, g: Schedule)
    requires ProperJobs(jobs) && g != [] && ShortestFirst(jobs, g)
    ensures var x := Load(jobs, g[..|g|-1]); var r := g[|g|-1];
            if r.None? then Busy(x) == {} && Served(jobs, g) == x
            else r.value in Busy(x) && (forall i :: i in Busy(x) ==> x[r.value] <= x[i]) &&
                 Served(jobs, g) == x[r.value := x[r.value] - 1]
  {
    LoadBusy(jobs, g[..|g|-1]);
    ServedIs(jobs, g);
  }

  lemma {:induction false} StepDominates(x: Backlog, r: Option<nat>, x': Backlog, y: Backlog, j: Option<nat>, y': Backlog)
    requires Dominates(x, y)
    requires if r.None? then Busy(x) == {} && x' == x
             else r.value in Busy(x) && (forall i :: i in Busy(x) ==> x[r.value] <= x[i]) &&
                  x' == x[r.value := x[r.value] - 1]
    requires y' == if j.Some? && j.value < |y| && y[j.value] > 0 then y[j.value := y[j.value] - 1] else y
    ensures Dominates(x', y')
  {
    hide Reduces, Rest;
    if r.None? {
      IdleDominates(x', y');
    } else if j.Some? && j.value < |y| && y[j.value] > 0 {
      ServeDominates(x, r.value, y, j.value);
    } else {
      ServeNone(x, r.value, y);
    }
  }

  lemma ServeNone(x: Backlog, s: nat, y: Backlog)
    requires Dominates(x, y)
    requires s in Busy(x)
    ensures Dominates(x[s := x[s] - 1], y)
  {
    forall k: set<nat> ensures Reduces(x[s := x[s] - 1], |k|, Rest(y, k)) {
      var r := Reduction(x, y, k);
      RestUpdate(x, s, x[s] - 1, r);
      assert Rest(x[s := x[s] - 1], r) <= Rest(y, k);
    }
  }

  lemma {:induction false} ShortestFirstDominates(jobs: seq<Job>, g: Schedule, s: Schedule)
    requires ProperJobs(jobs) && |g| == |s| && ShortestFirst(jobs, g)
    ensures Dominates(Load(jobs, g), Load(jobs, s))
  {
    if g == [] {
      forall k: set<nat> ensures Reduces(Load(jobs, g), |k|, Rest(Load(jobs, s), k)) {
        assert Rest(Load(jobs, g), k) <= Rest(Load(jobs, s), k);
      }
    } else {
      ShortestFirstPrefix(jobs, g);
      ShortestFirstDominates(jobs, g[..|g|-1], s[..|s|-1]);
      RunsShortest(jobs, g);
      ServedIs(jobs, s);
      StepDominates(Load(jobs, g[..|g|-1]), g[|g|-1], Served(jobs, g), Load(jobs, s[..|s|-1]), s[|s|-1], Served(jobs, s));
      LoadIs(jobs, g);
      LoadIs(jobs, s);
      ArrivalsDominate(Served(jobs, g), Served(jobs, s), Arriving(jobs, |g|), Load(jobs, g), Load(jobs, s));
    }
  }

  /** At every tick a shortest-first schedule has no more jobs in the system than any other. */
  lemma ShortestFirstFewest(jobs: seq<Job>, g: Schedule, s: Schedule)
    requires ProperJobs(jobs) && |g| == |s| && ShortestFirst(jobs, g)
    ensures |Outstanding(jobs, g)| <= |Outstanding(jobs, s)|
  {
    ShortestFirstDominates(jobs, g, s);
    DominatesCount(Load(jobs, g), Load(jobs, s));
    LoadBusy(jobs, g);
    LoadBusy(jobs, s);
  }

  lemma {:induction false} ShortestFirstFlow(jobs: seq<Job>, g: Schedule, s: Schedule)
    requires ProperJobs(jobs) && |g| == |s| && ShortestFirst(jobs, g)
    ensures FlowTime(jobs, g) <= FlowTime(jobs, s)
  {
    if g != [] {
      ShortestFirstPrefix(jobs, g);
      ShortestFirstFlow(jobs, g[..|g|-1], s[..|s|-1]);
      ShortestFirstFewest(jobs, g[..|g|-1], s[..|s|-1]);
    }
  }

  lemma {:induction false} DoneMeansEmpty(jobs: seq<Job>, s: Schedule)
    requires ProperJobs(jobs)
    ensures AllDone(jobs, s) <==> ArrivedBy(jobs, |s|) && Outstanding(jobs, s) == {}
  {
    if AllDone(jobs, s) {
      forall i | 0 <= i < |jobs| ensures jobs[i].arrival <= |s| {
        assert Left(jobs, s, i) == 0;
      }
    }
    if ArrivedBy(jobs, |s|) && Outstanding(jobs, s) == {} {
      forall i: nat | i < |jobs| ensures Left(jobs, s, i) == 0 {
        assert i !in Outstanding(jobs, s);
      }
    }
  }

  /** Shortest-first finishes whenever any schedule of that length does, with least total turnaround. */
  lemma {:induction false} ShortestFirstOptimal(jobs: seq<Job>, g: Schedule, s: Schedule)
    requires ProperJobs(jobs) && |g| == |s| && ShortestFirst(jobs, g) && AllDone(jobs, s)
    ensures AllDone(jobs, g)
    ensures TotalTurnaround(jobs, g, |jobs|) <= TotalTurnaround(jobs, s, |jobs|)
  {
    DoneMeansEmpty(jobs, s);
    ShortestFirstFewest(jobs, g, s);
    DoneMeansEmpty(jobs, g);
    ShortestFirstFlow(jobs, g, s);
    TurnaroundIsFlow(jobs, g);
    TurnaroundIsFlow(jobs, s);
  }
}
