/**
  pkg/cpu/sched_sjf.go: shortest job first, and its preemptive form, shortest time to
  completion first.
 */
module ShortestJob {
  import opened Collections
  import opened Schedules
  import opened Dominance
  import opened SchedulerCore

  // ---------------------------------------------------------------------------------------
  // sort.SliceStable
  // ---------------------------------------------------------------------------------------

  predicate Sorted(q: seq<nat>, key: seq<int>) {
    && InRange(q, |key|)
    && forall i, j :: 0 <= i < j < |q| ==> key[q[i]] <= key[q[j]]
  }

  lemma SortedSnoc(q: seq<nat>, x: nat, r: seq<nat>, y: nat, key: seq<int>)
    requires x < |key| && y < |key| && key[x] <= key[y] && Sorted(q + [y], key) && Sorted(r, key)
    requires multiset(r) == multiset(q) + multiset{x}
    ensures Sorted(r + [y], key)
    ensures multiset(r + [y]) == multiset(q + [y]) + multiset{x}
  {
    var n := |q|;
    assert (q + [y])[n] == y;
    forall i | 0 <= i < |r| ensures key[r[i]] <= key[y] {
      assert r[i] in multiset(r);
      if r[i] != x {
        assert r[i] in q;
        var k :| 0 <= k < |q| && q[k] == r[i];
        assert (q + [y])[k] == r[i];
      }
    }
  }

  /** x goes behind everything whose key is no larger. */
  function Insert(q: seq<nat>, x: nat, key: seq<int>): (r: seq<nat>)
    requires Sorted(q, key) && x < |key|
    ensures Sorted(r, key)
    ensures multiset(r) == multiset(q) + multiset{x}
  {
    if q == [] || key[q[|q|-1]] <= key[x] then q + [x]
    else
      var n := |q| - 1;
      assert q == q[..n] + [q[n]];
      var r := Insert(q[..n], x, key);
      SortedSnoc(q[..n], x, r, q[n], key);
      r + [q[n]]
  }

  function StableSort(q: seq<nat>, key: seq<int>): (r: seq<nat>)
    requires InRange(q, |key|)
    ensures Sorted(r, key)
    ensures multiset(r) == multiset(q)
  {
    if q == [] then []
    else
      var n := |q| - 1;
      assert q == q[..n] + [q[n]];
      Insert(StableSort(q[..n], key), q[n], key)
  }

  function Only(x: nat, key: seq<int>, v: int): seq<nat>
    requires x < |key|
  {
    if key[x] == v then [x] else []
  }

  /** The entries with key v, in order. */
  function WithKey(q: seq<nat>, key: seq<int>, v: int): seq<nat>
    requires InRange(q, |key|)
  {
    if q == [] then []
    else WithKey(q[..|q|-1], key, v) + Only(q[|q|-1], key, v)
  }

  lemma WithKeySnoc(q: seq<nat>, y: nat, key: seq<int>, v: int)
    requires InRange(q, |key|) && y < |key|
    ensures WithKey(q + [y], key, v) == WithKey(q, key, v) + Only(y, key, v)
  {
    assert (q + [y])[..|q|] == q;
  }

  /** Entries with different keys may trade places. */
  lemma WithKeySwap(r: seq<nat>, w: seq<nat>, x: nat, y: nat, key: seq<int>, v: int)
    requires InRange(r, |key|) && x < |key| && y < |key| && key[x] != key[y]
    requires WithKey(r, key, v) == w + Only(x, key, v)
    ensures WithKey(r + [y], key, v) == w + Only(y, key, v) + Only(x, key, v)
  {
    WithKeySnoc(r, y, key, v);
  }

  lemma {:induction false} InsertStable(q: seq<nat>, x: nat, key: seq<int>, v: int)
    requires Sorted(q, key) && x < |key|
    ensures WithKey(Insert(q, x, key), key, v) == WithKey(q, key, v) + Only(x, key, v)
  {
    if q == [] || key[q[|q|-1]] <= key[x] {
      WithKeySnoc(q, x, key, v);
    } else {
      var n := |q| - 1;
      InsertStable(q[..n], x, key, v);
      WithKeySwap(Insert(q[..n], x, key), WithKey(q[..n], key, v), x, q[n], key, v);
    }
  }

  /** Equal keys keep their order. */
  lemma {:induction false} SortIsStable(q: seq<nat>, key: seq<int>, v: int)
    requires InRange(q, |key|)
    ensures WithKey(StableSort(q, key), key, v) == WithKey(q, key, v)
  {
    if q != [] {
      var n := |q| - 1;
      SortIsStable(q[..n], key, v);
      var r := StableSort(q[..n], key);
      InsertStable(r, q[n], key, v);
    }
  }

  /** Entries with the same key are in the same order in a and b. */
  ghost predicate SameOrder(a: seq<nat>, b: seq<nat>, key: seq<int>)
    requires InRange(a, |key|) && InRange(b, |key|)
  {
    forall v :: WithKey(a, key, v) == WithKey(b, key, v)
  }

  lemma SameLast(a: seq<nat>, b: seq<nat>, key: seq<int>)
    requires Sorted(a, key) && Sorted(b, key) && multiset(a) == multiset(b) && a != [] && |a| == |b|
    requires SameOrder(a, b, key)
    ensures a[|a| - 1] == b[|b| - 1]
  {
    LastIsLargest(a, b, key);
    LastIsLargest(b, a, key);
    var n := |a| - 1;
    var v := key[a[n]];
    assert WithKey(a, key, v) == WithKey(a[..n], key, v) + [a[n]];
    assert WithKey(b, key, v) == WithKey(b[..n], key, v) + [b[n]];
    SameFront(WithKey(a[..n], key, v), WithKey(b[..n], key, v), [a[n]], [b[n]]);
  }

  /** There is only one way to sort stably: two sorted orders of the same entries that agree on the
      order of every key are the same order. */
  lemma {:induction false} SortIsDetermined(a: seq<nat>, b: seq<nat>, key: seq<int>)
    requires Sorted(a, key) && Sorted(b, key) && multiset(a) == multiset(b)
    requires SameOrder(a, b, key)
    ensures a == b
  {
    hide Sorted, SameOrder;
    SameLength(a, b);
    if a != [] {
      var n := |a| - 1;
      SameLast(a, b, key);
      FrontSorted(a, b, key);
      FrontOrder(a, b, key);
      SortIsDetermined(a[..n], b[..n], key);
      assert a == a[..n] + [a[n]] && b == b[..n] + [b[n]];
    }
  }

  lemma SameLength(a: seq<nat>, b: seq<nat>)
    requires multiset(a) == multiset(b)
    ensures |a| == |b|
  {
    assert |b| == |multiset(b)| == |multiset(a)| == |a|;
  }

  lemma FrontSorted(a: seq<nat>, b: seq<nat>, key: seq<int>)
    requires Sorted(a, key) && Sorted(b, key) && multiset(a) == multiset(b) && a != [] && |a| == |b|
    requires a[|a| - 1] == b[|b| - 1]
    ensures Sorted(a[..|a| - 1], key) && Sorted(b[..|b| - 1], key)
    ensures multiset(a[..|a| - 1]) == multiset(b[..|b| - 1])
  {
    FrontBag(a);
    FrontBag(b);
  }

  lemma FrontOrder(a: seq<nat>, b: seq<nat>, key: seq<int>)
    requires Sorted(a, key) && Sorted(b, key) && a != [] && |a| == |b| && a[|a| - 1] == b[|b| - 1]
    requires SameOrder(a, b, key)
    ensures SameOrder(a[..|a| - 1], b[..|b| - 1], key)
  {
    hide WithKey;
    var c, d := a[..|a| - 1], b[..|b| - 1];
    forall v
      ensures WithKey(c, key, v) == WithKey(d, key, v)
    {
      FrontKeys(a, b, key, v);
    }
  }

  lemma FrontKeys(a: seq<nat>, b: seq<nat>, key: seq<int>, v: int)
    requires InRange(a, |key|) && InRange(b, |key|) && a != [] && |a| == |b| && a[|a| - 1] == b[|b| - 1]
    requires WithKey(a, key, v) == WithKey(b, key, v)
    ensures WithKey(a[..|a| - 1], key, v) == WithKey(b[..|b| - 1], key, v)
  {
    var n, x := |a| - 1, Only(a[|a| - 1], key, v);
    assert WithKey(a, key, v) == WithKey(a[..n], key, v) + x;
    assert WithKey(b, key, v) == WithKey(b[..n], key, v) + x;
    SameFront(WithKey(a[..n], key, v), WithKey(b[..n], key, v), x, x);
  }

  lemma FrontBag(a: seq<nat>)
    requires a != []
    ensures multiset(a[..|a| - 1]) == multiset(a) - multiset{a[|a| - 1]}
  {
    assert a == a[..|a| - 1] + [a[|a| - 1]];
  }

  lemma SameFront(a: seq<nat>, b: seq<nat>, x: seq<nat>, y: seq<nat>)
    requires a + x == b + y && |x| == |y|
    ensures a == b && x == y
  {
    assert a == (a + x)[..|a|] && b == (b + y)[..|b|];
    assert x == (a + x)[|a|..] && y == (b + y)[|b|..];
  }

  lemma LastIsLargest(a: seq<nat>, b: seq<nat>, key: seq<int>)
    requires Sorted(a, key) && Sorted(b, key) && multiset(a) == multiset(b) && a != [] && |a| == |b|
    ensures key[b[|b| - 1]] <= key[a[|a| - 1]]
  {
    assert b[|b| - 1] in multiset(b);
    assert b[|b| - 1] in a;
  }

  function Remainings(procs: seq<Process>): (k: seq<int>)
    ensures |k| == |procs|
  {
    seq(|procs|, i requires 0 <= i < |procs| => procs[i].remaining)
  }

  function Bursts(procs: seq<Process>): (k: seq<int>)
    ensures |k| == |procs|
  {
    seq(|procs|, i requires 0 <= i < |procs| => procs[i].burst)
  }

  // ---------------------------------------------------------------------------------------
  // Shortest time to completion first
  // ---------------------------------------------------------------------------------------

  function StcfChosen(c: Core, now: int): (c': Core)
    requires Indexed(c)
    ensures Indexed(c') && |c'.procs| == |c.procs| && c'.gantt == c.gantt
  {
    if c.ready == [] then c
    else
      var q := StableSort(c.ready, Remainings(c.procs));
      assert |multiset(q)| == |multiset(c.ready)|;
      var d := c.(ready := q);
      if c.running.None? then Dispatched(d, now)
      else if c.procs[q[0]].remaining < c.procs[c.running.value].remaining then Dispatched(Preempted(d), now)
      else d
  }

  function StcfTick(c: Core, now: int): (c': Core)
    requires Indexed(c)
    ensures Indexed(c') && |c'.procs| == |c.procs|
  {
    Executed(StcfChosen(Prepared(c, now), now), now)
  }

  /** The state after ticks 0, 1, ..., n-1. */
  function StcfRun(procs: seq<Process>, n: nat): (c: Core)
    ensures Indexed(c) && |c.procs| == |procs|
  {
    if n == 0 then InitialCore(procs) else StcfTick(StcfRun(procs, n - 1), n - 1)
  }

  lemma SortHead(q: seq<nat>, key: seq<int>)
    requires InRange(q, |key|) && q != []
    ensures |StableSort(q, key)| == |q|
    ensures forall i :: i in q ==> key[StableSort(q, key)[0]] <= key[i]
  {
    var r := StableSort(q, key);
    assert |r| == |multiset(r)| == |multiset(q)| == |q|;
    forall i | i in q ensures key[r[0]] <= key[i] {
      assert i in multiset(q);
      assert i in r;
    }
  }

  lemma {:induction false} StcfChosenMid(c: Core, jobs: seq<Job>, now: nat)
    requires Mid(c, jobs, now) && (c.running.Some? ==> c.procs[c.running.value].start < now)
    ensures Mid(StcfChosen(c, now), jobs, now)
    ensures StcfChosen(c, now).running.None? ==> StcfChosen(c, now).ready == []
  {
    if c.ready != [] {
      var q := StableSort(c.ready, Remainings(c.procs));
      SortHead(c.ready, Remainings(c.procs));
      var d := c.(ready := q);
      ReorderedKept(c, q, jobs, now);
      if c.running.None? {
        DispatchedKept(d, jobs, now);
      } else if c.procs[q[0]].remaining < c.procs[c.running.value].remaining {
        PreemptedKept(d, jobs, now);
        DispatchedKept(Preempted(d), jobs, now);
      }
    }
  }

  /** What is left to run is never shorter than what runs. */
  lemma StcfChosenShortest(c: Core, now: nat, i: nat)
    requires Placed(c) && i < |c.procs| && (i in c.ready || c.running == Some(i))
    ensures StcfChosen(c, now).running.Some?
    ensures c.procs[StcfChosen(c, now).running.value].remaining <= c.procs[i].remaining
  {
    if c.ready != [] {
      SortHead(c.ready, Remainings(c.procs));
    }
  }

  lemma ShortestFirstGrows(jobs: seq<Job>, s: Schedule, x: Option<nat>)
    requires ProperJobs(jobs) && ShortestFirst(jobs, s) && WorkConserving(jobs, s + [x])
    requires x.Some? ==> x.value < |jobs|
    requires x.Some? ==> forall i :: i in Outstanding(jobs, s) ==> Left(jobs, s, x.value) <= Left(jobs, s, i)
    ensures ShortestFirst(jobs, s + [x])
  {
    var s' := s + [x];
    forall t, i | 0 <= t < |s'| && s'[t].Some? && i in Outstanding(jobs, s'[..t])
      ensures s'[t].value < |jobs| && Left(jobs, s'[..t], s'[t].value) <= Left(jobs, s'[..t], i)
    {
      if t < |s| { assert s'[..t] == s[..t]; } else { assert s'[..t] == s; }
    }
  }

  lemma StcfTickBalanced(c: Core, jobs: seq<Job>, now: nat)
    requires Balanced(c, jobs, now)
    ensures Balanced(StcfTick(c, now), jobs, now + 1)
    ensures ShortestFirst(jobs, c.gantt) ==> ShortestFirst(jobs, StcfTick(c, now).gantt)
  {
    var m := Prepared(c, now);
    PreparedKept(c, jobs, now);
    RunningStarted(c, jobs, now);
    var d := StcfChosen(m, now);
    StcfChosenMid(m, jobs, now);
    ExecutedKept(d, jobs, now);
    if ShortestFirst(jobs, c.gantt) {
      StcfServesShortest(m, jobs, now);
      ShortestFirstGrows(jobs, c.gantt, d.running);
    }
  }

  lemma StcfServesShortest(m: Core, jobs: seq<Job>, now: nat)
    requires Mid(m, jobs, now)
    ensures var x := StcfChosen(m, now).running;
            x.Some? ==> x.value < |jobs| && forall i :: i in Outstanding(jobs, m.gantt) ==>
              Left(jobs, m.gantt, x.value) <= Left(jobs, m.gantt, i)
  {
    var x := StcfChosen(m, now).running;
    OutstandingIsLive(m, jobs, now);
    if x.Some? {
      assert Noted(m.procs[x.value], x.value, jobs, m.gantt, now, true);
      forall i | i in Outstanding(jobs, m.gantt)
        ensures Left(jobs, m.gantt, x.value) <= Left(jobs, m.gantt, i)
      {
        StcfChosenShortest(m, now, i);
        assert Noted(m.procs[i], i, jobs, m.gantt, now, true);
      }
    }
  }

  /** Whatever the processes, the books balance after every tick and the schedule is shortest first. */
  lemma {:induction false} StcfRunBalanced(procs: seq<Process>, n: nat)
    requires FreshProcs(procs)
    ensures Balanced(StcfRun(procs, n), Jobs(procs), n)
    ensures ShortestFirst(Jobs(procs), StcfRun(procs, n).gantt)
  {
    if n == 0 {
      InitialBalanced(procs);
    } else {
      StcfRunBalanced(procs, n - 1);
      StcfTickBalanced(StcfRun(procs, n - 1), Jobs(procs), n - 1);
    }
  }

  /** At every tick STCF has no more processes in the system than any schedule whatsoever. */
  lemma StcfFewestInSystem(procs: seq<Process>, s: Schedule)
    requires FreshProcs(procs)
    ensures |Outstanding(Jobs(procs), StcfRun(procs, |s|).gantt)| <= |Outstanding(Jobs(procs), s)|
  {
    StcfRunBalanced(procs, |s|);
    ShortestFirstFewest(Jobs(procs), StcfRun(procs, |s|).gantt, s);
  }

  /** If any schedule finishes every process, STCF has finished them all by then, and the
      turnaround times it recorded add up to no more than that schedule's. */
  lemma StcfTurnaroundMinimal(procs: seq<Process>, s: Schedule)
    requires FreshProcs(procs) && AllDone(Jobs(procs), s)
    ensures AllTerminated(StcfRun(procs, |s|))
    ensures SumTurnaround(StcfRun(procs, |s|).procs, |procs|) <= TotalTurnaround(Jobs(procs), s, |procs|)
  {
    var jobs, c := Jobs(procs), StcfRun(procs, |s|);
    StcfRunBalanced(procs, |s|);
    ShortestFirstOptimal(jobs, c.gantt, s);
    DoneIsTerminated(c, jobs, |s|);
    SumsMatch(c, jobs, |s|);
  }

  lemma StcfCompletes(procs: seq<Process>, n: nat, last: nat)
    requires FreshProcs(procs) && ArrivedBy(Jobs(procs), last) && n >= last + TotalBurst(Jobs(procs))
    ensures AllTerminated(StcfRun(procs, n)) && |StcfRun(procs, n).completed| == |procs|
  {
    StcfRunBalanced(procs, n);
    TerminatedInTime(StcfRun(procs, n), Jobs(procs), n, last);
  }

  // ---------------------------------------------------------------------------------------
  // Shortest job first
  // ---------------------------------------------------------------------------------------

  function SjfChosen(c: Core, now: int): (c': Core)
    requires Indexed(c)
    ensures Indexed(c') && |c'.procs| == |c.procs| && c'.gantt == c.gantt
  {
    if c.running.None? && c.ready != [] then
      var q := StableSort(c.ready, Bursts(c.procs));
      assert |multiset(q)| == |multiset(c.ready)|;
      Dispatched(c.(ready := q), now)
    else c
  }

  function SjfTick(c: Core, now: int): (c': Core)
    requires Indexed(c)
    ensures Indexed(c') && |c'.procs| == |c.procs|
  {
    Executed(SjfChosen(Prepared(c, now), now), now)
  }

  function SjfRun(procs: seq<Process>, n: nat): (c: Core)
    ensures Indexed(c) && |c.procs| == |procs|
  {
    if n == 0 then InitialCore(procs) else SjfTick(SjfRun(procs, n - 1), n - 1)
  }

  lemma SjfChosenMid(m: Core, jobs: seq<Job>, now: nat)
    requires Mid(m, jobs, now)
    ensures Mid(SjfChosen(m, now), jobs, now)
    ensures SjfChosen(m, now).running.None? ==> SjfChosen(m, now).ready == []
  {
    if m.running.None? && m.ready != [] {
      var q := StableSort(m.ready, Bursts(m.procs));
      SortHead(m.ready, Bursts(m.procs));
      ReorderedKept(m, q, jobs, now);
      DispatchedKept(m.(ready := q), jobs, now);
    }
  }

  lemma SjfTickBalanced(c: Core, jobs: seq<Job>, now: nat)
    requires Balanced(c, jobs, now)
    ensures Balanced(SjfTick(c, now), jobs, now + 1)
  {
    PreparedKept(c, jobs, now);
    SjfChosenMid(Prepared(c, now), jobs, now);
    ExecutedKept(SjfChosen(Prepared(c, now), now), jobs, now);
  }

  lemma {:induction false} SjfRunBalanced(procs: seq<Process>, n: nat)
    requires FreshProcs(procs)
    ensures Balanced(SjfRun(procs, n), Jobs(procs), n)
  {
    if n == 0 {
      InitialBalanced(procs);
    } else {
      SjfRunBalanced(procs, n - 1);
      SjfTickBalanced(SjfRun(procs, n - 1), Jobs(procs), n - 1);
    }
  }

  lemma SjfCompletes(procs: seq<Process>, n: nat, last: nat)
    requires FreshProcs(procs) && ArrivedBy(Jobs(procs), last) && n >= last + TotalBurst(Jobs(procs))
    ensures AllTerminated(SjfRun(procs, n)) && |SjfRun(procs, n).completed| == |procs|
  {
    SjfRunBalanced(procs, n);
    TerminatedInTime(SjfRun(procs, n), Jobs(procs), n, last);
  }

  /** With every arrival at tick 0: whoever waits has not run, and is no shorter than who runs. */
  ghost predicate Together(c: Core, now: nat) {
    && Indexed(c)
    && (forall i :: 0 <= i < |c.procs| ==> c.procs[i].arrival == 0 && (c.procs[i].status == New ==> now == 0))
    && (forall i :: i in c.ready ==> c.procs[i].remaining == c.procs[i].burst)
    && (c.running.Some? ==> forall i :: i in c.ready ==> c.procs[c.running.value].burst <= c.procs[i].burst)
  }

  lemma PreparedTogether(c: Core, jobs: seq<Job>, now: nat)
    requires Balanced(c, jobs, now) && Together(c, now)
    ensures Together(Prepared(c, now), now + 1)
  {
    var m := Prepared(c, now);
    PreparedQueue(c, now);
    forall i: nat | i < |c.procs|
      ensures m.procs[i].arrival == 0 && m.procs[i].status != New
      ensures m.procs[i].burst == c.procs[i].burst && m.procs[i].remaining == c.procs[i].remaining
      ensures c.procs[i].status == New ==> now == 0 && c.procs[i].remaining == c.procs[i].burst
    {
      PreparedAt(c, now, i);
      assert Noted(c.procs[i], i, jobs, c.gantt, now, false);
    }
    if c.running.Some? {
      var r := c.running.value;
      assert Noted(c.procs[r], r, jobs, c.gantt, now, false);
      assert now > 0;
    }
  }

  lemma SjfHead(m: Core, now: nat)
    requires Indexed(m) && Distinct(m.ready) && m.running.None? && m.ready != []
    ensures var q := StableSort(m.ready, Bursts(m.procs));
            && q != [] && q[0] in m.ready && q[0] !in q[1..]
            && (forall i :: i in q[1..] ==> i in m.ready)
            && (forall i :: i in m.ready ==> m.procs[q[0]].burst <= m.procs[i].burst)
  {
    var q := StableSort(m.ready, Bursts(m.procs));
    SortHead(m.ready, Bursts(m.procs));
    MembersOf(m.ready, q);
    forall i | i in q[1..] ensures i in m.ready {
      assert i in q;
    }
    assert q[0] in q;
  }

  lemma ChosenTogether(m: Core, now: nat)
    requires Indexed(m) && Distinct(m.ready) && Together(m, now + 1)
    ensures Together(SjfChosen(m, now), now + 1)
  {
    if m.running.None? && m.ready != [] {
      SjfHead(m, now);
    }
  }

  lemma ExecutedTogether(d: Core, now: nat)
    requires Placed(d) && Together(d, now + 1)
    ensures Together(Executed(d, now), now + 1)
  {
    if d.running.Some? {
      assert d.procs[d.running.value].status == Running;
      assert d.running.value !in d.ready;
    }
  }

  lemma SjfServesShortest(d: Core, jobs: seq<Job>, now: nat)
    requires Mid(d, jobs, now) && Together(d, now + 1)
    ensures d.running.Some? ==> forall i :: i in Outstanding(jobs, d.gantt) ==>
              Left(jobs, d.gantt, d.running.value) <= Left(jobs, d.gantt, i)
  {
    OutstandingIsLive(d, jobs, now);
    if d.running.Some? {
      assert Noted(d.procs[d.running.value], d.running.value, jobs, d.gantt, now, true);
      forall i | i in Outstanding(jobs, d.gantt)
        ensures Left(jobs, d.gantt, d.running.value) <= Left(jobs, d.gantt, i)
      {
        assert Noted(d.procs[i], i, jobs, d.gantt, now, true);
      }
    }
  }

  lemma SjfTickShortest(c: Core, jobs: seq<Job>, now: nat)
    requires Balanced(c, jobs, now) && Together(c, now) && ShortestFirst(jobs, c.gantt)
    ensures Together(SjfTick(c, now), now + 1) && ShortestFirst(jobs, SjfTick(c, now).gantt)
  {
    var m := Prepared(c, now);
    PreparedKept(c, jobs, now);
    PreparedTogether(c, jobs, now);
    SjfChosenMid(m, jobs, now);
    ChosenTogether(m, now);
    var d := SjfChosen(m, now);
    SjfServesShortest(d, jobs, now);
    ExecutedConserves(d, jobs, now);
    ShortestFirstGrows(jobs, c.gantt, d.running);
    ExecutedTogether(d, now);
  }

  lemma StartTogether(procs: seq<Process>)
    requires FreshProcs(procs) && ArrivedBy(Jobs(procs), 0)
    ensures Together(InitialCore(procs), 0) && ShortestFirst(Jobs(procs), [])
  {
    forall i | 0 <= i < |procs| ensures procs[i].arrival == 0 {
      assert Jobs(procs)[i].arrival <= 0;
    }
  }

  lemma {:induction false} SjfRunShortest(procs: seq<Process>, n: nat)
    requires FreshProcs(procs) && ArrivedBy(Jobs(procs), 0)
    ensures Together(SjfRun(procs, n), n) && ShortestFirst(Jobs(procs), SjfRun(procs, n).gantt)
  {
    hide SjfTick, Together, Balanced;
    if n == 0 {
      StartTogether(procs);
    } else {
      SjfRunShortest(procs, n - 1);
      SjfRunBalanced(procs, n - 1);
      SjfTickShortest(SjfRun(procs, n - 1), Jobs(procs), n - 1);
    }
  }

  /** When all jobs arrive at tick 0, SJF minimises total waiting (and turnaround) over all
      schedules, preemptive ones included. */
  lemma {:induction false} SjfWaitingMinimal(procs: seq<Process>, s: Schedule)
    requires FreshProcs(procs) && ArrivedBy(Jobs(procs), 0) && AllDone(Jobs(procs), s)
    ensures AllTerminated(SjfRun(procs, |s|))
    ensures SumWaiting(SjfRun(procs, |s|).procs, |procs|) <=
            TotalTurnaround(Jobs(procs), s, |procs|) + |procs| - SumBurst(SjfRun(procs, |s|).procs, |procs|)
  {
    var jobs, c := Jobs(procs), SjfRun(procs, |s|);
    SjfRunBalanced(procs, |s|);
    SjfRunShortest(procs, |s|);
    ShortestFirstOptimal(jobs, c.gantt, s);
    DoneIsTerminated(c, jobs, |s|);
    SumsMatch(c, jobs, |s|);
  }

  // ---------------------------------------------------------------------------------------
  // The schedulers
  // ---------------------------------------------------------------------------------------

  class StcfScheduler {
    var procs: seq<Process>
    var ready: seq<nat>
    var running: Option<nat>
    var completed: seq<nat>
    var gantt: Schedule
    var switches: nat
    var busy: nat
    var total: int

    ghost function View(): Core
      reads this
    {
      Core(procs, ready, running, completed, gantt, switches, busy)
    }

    constructor ()
      ensures View() == InitialCore([])
    {
      procs, ready, running, completed, gantt, switches, busy, total := [], [], None, [], [], 0, 0, 0;
    }

    method Snapshot() returns (c: Core)
      ensures c == View()
    {
      c := Core(procs, ready, running, completed, gantt, switches, busy);
    }

    method Store(c: Core)
      modifies this
      ensures View() == c && total == old(total)
    {
      procs, ready, running, completed, gantt, switches, busy :=
        c.procs, c.ready, c.running, c.completed, c.gantt, c.switches, c.busy;
    }

    method AddProcess(p: Process)
      requires Indexed(View())
      modifies this
      ensures View() == old(View()).(procs := old(procs) + [p]) && Indexed(View())
      ensures total == old(total)
    {
      procs := procs + [p];
    }

    method Choose(now: int)
      requires Indexed(View())
      modifies this
      ensures View() == StcfChosen(old(View()), now) && total == old(total)
    {
      if |ready| > 0 {
        SortHead(ready, Remainings(procs));
        ready := StableSort(ready, Remainings(procs));
        if running.None? || procs[ready[0]].remaining < procs[running.value].remaining {
          var c := Snapshot();
          if running.Some? {
            c := Preempt(c);
          }
          c := Dispatch(c, now);
          Store(c);
        }
      }
    }

    method Tick(now: int) returns (current: Option<nat>, allDone: bool)
      requires Indexed(View())
      modifies this
      ensures View() == StcfTick(old(View()), now) && total == now + 1
      ensures current == running
      ensures allDone <==> |completed| == |procs| && |procs| > 0
    {
      total := now + 1;
      procs, ready := Admit(procs, ready, now);
      procs := Age(procs, ready);
      assert View() == Prepared(old(View()), now);
      Choose(now);
      var c := Snapshot();
      c := Execute(c, now);
      Store(c);
      current, allDone := running, |completed| == |procs| && |procs| > 0;
    }
  }

  class SjfScheduler {
    var procs: seq<Process>
    var ready: seq<nat>
    var running: Option<nat>
    var completed: seq<nat>
    var gantt: Schedule
    var switches: nat
    var busy: nat
    var total: int

    ghost function View(): Core
      reads this
    {
      Core(procs, ready, running, completed, gantt, switches, busy)
    }

    constructor ()
      ensures View() == InitialCore([])
    {
      procs, ready, running, completed, gantt, switches, busy, total := [], [], None, [], [], 0, 0, 0;
    }

    method Snapshot() returns (c: Core)
      ensures c == View()
    {
      c := Core(procs, ready, running, completed, gantt, switches, busy);
    }

    method Store(c: Core)
      modifies this
      ensures View() == c && total == old(total)
    {
      procs, ready, running, completed, gantt, switches, busy :=
        c.procs, c.ready, c.running, c.completed, c.gantt, c.switches, c.busy;
    }

    method AddProcess(p: Process)
      requires Indexed(View())
      modifies this
      ensures View() == old(View()).(procs := old(procs) + [p]) && Indexed(View())
      ensures total == old(total)
    {
      procs := procs + [p];
    }

    method Choose(now: int)
      requires Indexed(View())
      modifies this
      ensures View() == SjfChosen(old(View()), now) && total == old(total)
    {
      if running.None? && |ready| > 0 {
        SortHead(ready, Bursts(procs));
        ready := StableSort(ready, Bursts(procs));
        var c := Snapshot();
        c := Dispatch(c, now);
        Store(c);
      }
    }

    method Tick(now: int) returns (current: Option<nat>, allDone: bool)
      requires Indexed(View())
      modifies this
      ensures View() == SjfTick(old(View()), now) && total == now + 1
      ensures current == running
      ensures allDone <==> |completed| == |procs| && |procs| > 0
    {
      total := now + 1;
      procs, ready := Admit(procs, ready, now);
      procs := Age(procs, ready);
      assert View() == Prepared(old(View()), now);
      Choose(now);
      var c := Snapshot();
      c := Execute(c, now);
      Store(c);
      current, allDone := running, |completed| == |procs| && |procs| > 0;
    }
  }
}
