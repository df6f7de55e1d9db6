/** pkg/cpu/sched_sjf.go: the Gantt charts of SJF and STCF are the ones their policies determine. */
module ShortestJobCharts {
  import opened Collections
  import opened Schedules
  import opened SchedulerCore
  import opened ShortestJob
  import opened ChartQueues
  import C = Charts

  // ---- Queues in which equal keys are in the order of waiting ----

  ghost predicate Tied(jobs: seq<Job>, g: Schedule, q: seq<nat>, key: seq<int>) {
    |key| == |jobs| && InRange(q, |key|) && forall v :: TiedAt(jobs, g, q, key, v)
  }

  ghost predicate TiedAt(jobs: seq<Job>, g: Schedule, q: seq<nat>, key: seq<int>, v: int)
    requires |key| == |jobs| && InRange(q, |key|)
  {
    var w := WithKey(q, key, v);
    InRange(w, |jobs|) && InOrder(jobs, g, w)
  }

  lemma {:induction false} WithKeyIn(q: seq<nat>, key: seq<int>, v: int, i: nat)
    requires InRange(q, |key|)
    ensures i in WithKey(q, key, v) <==> i in q && key[i] == v
  {
    if q != [] {
      var n := |q| - 1;
      assert q == q[..n] + [q[n]];
      WithKeyIn(q[..n], key, v, i);
    }
  }

  lemma {:induction false} WithKeyCons(q: seq<nat>, key: seq<int>, v: int)
    requires InRange(q, |key|) && q != []
    ensures WithKey(q, key, v) == Only(q[0], key, v) + WithKey(q[1..], key, v)
  {
    hide WithKey, Only;
    var n := |q| - 1;
    var o, l := Only(q[0], key, v), Only(q[n], key, v);
    WithKeySnoc(q[..n], q[n], key, v);
    assert q == q[..n] + [q[n]];
    if n == 0 {
      assert q[1..] == [] && q[..0] == [];
      NoneWithKey(key, v);
    } else {
      var front := q[..n];
      WithKeyCons(front, key, v);
      assert q[1..] == front[1..] + [q[n]] && front[0] == q[0];
      WithKeySnoc(front[1..], q[n], key, v);
      var m := WithKey(front[1..], key, v);
      assert (o + m) + l == o + (m + l);
    }
  }

  lemma NoneWithKey(key: seq<int>, v: int)
    ensures WithKey([], key, v) == []
  {
  }

  lemma {:induction false} WithKeySame(q: seq<nat>, key: seq<int>, key': seq<int>, v: int)
    requires InRange(q, |key|) && |key| == |key'| && forall i :: i in q ==> key'[i] == key[i]
    ensures WithKey(q, key', v) == WithKey(q, key, v)
  {
    if q != [] {
      assert q[|q| - 1] in q;
      WithKeySame(q[..|q| - 1], key, key', v);
    }
  }

  lemma {:induction false} SortTied(jobs: seq<Job>, g: Schedule, q: seq<nat>, key: seq<int>)
    requires Tied(jobs, g, q, key)
    ensures Tied(jobs, g, StableSort(q, key), key)
  {
    forall v
      ensures TiedAt(jobs, g, StableSort(q, key), key, v)
    {
      SortIsStable(q, key, v);
      assert TiedAt(jobs, g, q, key, v);
    }
  }

  lemma {:induction false} SnocTied(jobs: seq<Job>, g: Schedule, q: seq<nat>, x: nat, key: seq<int>)
    requires Tied(jobs, g, q, key) && x < |jobs| && forall i :: i in q ==> C.Ahead(jobs, g, i, x)
    ensures Tied(jobs, g, q + [x], key)
  {
    forall v
      ensures TiedAt(jobs, g, q + [x], key, v)
    {
      assert TiedAt(jobs, g, q, key, v);
      var w := WithKey(q, key, v);
      WithKeySnoc(q, x, key, v);
      forall i | i in w
        ensures C.Ahead(jobs, g, i, x)
      {
        WithKeyIn(q, key, v, i);
      }
    }
  }

  lemma {:induction false} TailTied(jobs: seq<Job>, g: Schedule, q: seq<nat>, key: seq<int>)
    requires Tied(jobs, g, q, key) && q != []
    ensures Tied(jobs, g, q[1..], key)
  {
    hide WithKey, InOrder;
    forall v
      ensures TiedAt(jobs, g, q[1..], key, v)
    {
      assert TiedAt(jobs, g, q, key, v);
      WithKeyCons(q, key, v);
      BackInOrder(jobs, g, Only(q[0], key, v), WithKey(q[1..], key, v));
    }
  }

  lemma {:induction false} BackInOrder(jobs: seq<Job>, g: Schedule, o: seq<nat>, t: seq<nat>)
    requires InRange(o + t, |jobs|) && InOrder(jobs, g, o + t)
    ensures InRange(t, |jobs|) && InOrder(jobs, g, t)
  {
    forall a | 0 <= a < |t|
      ensures t[a] < |jobs|
    {
      assert t[a] == (o + t)[|o| + a];
    }
    forall a, b | 0 <= a < b < |t|
      ensures C.Ahead(jobs, g, t[a], t[b])
    {
      assert t[a] == (o + t)[|o| + a] && t[b] == (o + t)[|o| + b];
    }
  }

  lemma {:induction false} HeadAhead(jobs: seq<Job>, g: Schedule, q: seq<nat>, key: seq<int>, j: nat)
    requires Tied(jobs, g, q, key) && q != [] && j in q[1..] && key[j] == key[q[0]]
    ensures C.Ahead(jobs, g, q[0], j)
  {
    var v := key[q[0]];
    assert TiedAt(jobs, g, q, key, v);
    WithKeyCons(q, key, v);
    WithKeyIn(q[1..], key, v, j);
    var w, t := WithKey(q, key, v), WithKey(q[1..], key, v);
    var b :| 0 <= b < |t| && t[b] == j;
    assert w[0] == q[0] && w[1 + b] == j;
  }

  lemma {:induction false} GrowTied(jobs: seq<Job>, g: Schedule, x: Option<nat>, q: seq<nat>, key: seq<int>, key': seq<int>)
    requires Tied(jobs, g, q, key) && |key'| == |key| && (x.Some? ==> x.value !in q)
    requires forall i :: i in q ==> key'[i] == key[i]
    ensures Tied(jobs, g + [x], q, key')
  {
    forall v
      ensures TiedAt(jobs, g + [x], q, key', v)
    {
      assert TiedAt(jobs, g, q, key, v);
      WithKeySame(q, key, key', v);
      var w := WithKey(q, key, v);
      forall a, b | 0 <= a < b < |w|
        ensures C.Ahead(jobs, g + [x], w[a], w[b])
      {
        WithKeyIn(q, key, v, w[a]);
        WithKeyIn(q, key, v, w[b]);
        AheadGrows(jobs, g, x, w[a], w[b]);
      }
    }
  }

  // ---- The books and the chart ----

  ghost function Keys(rule: C.Policy, jobs: seq<Job>, g: Schedule): (k: seq<int>)
    requires ProperJobs(jobs)
    ensures |k| == |jobs|
  {
    seq(|jobs|, i requires 0 <= i < |jobs| => C.Rank(rule, jobs, g, i))
  }

  /** Between ticks. */
  ghost predicate Charted(c: Core, rule: C.Policy, jobs: seq<Job>, now: nat) {
    && Balanced(c, jobs, now)
    && Waited(jobs, c.gantt, c.ready, false) && Tied(jobs, c.gantt, c.ready, Keys(rule, jobs, c.gantt))
    && (c.running.Some? ==> now > 0 && c.gantt[now - 1] == c.running)
  }

  /** Inside a tick, once arrivals are admitted. */
  ghost predicate Admitting(c: Core, rule: C.Policy, jobs: seq<Job>, now: nat) {
    && Mid(c, jobs, now)
    && Waited(jobs, c.gantt, c.ready, true) && Tied(jobs, c.gantt, c.ready, Keys(rule, jobs, c.gantt))
    && (c.running.Some? ==> now > 0 && c.gantt[now - 1] == c.running)
    && (c.running.None? && now > 0 && c.gantt[now - 1].Some? ==>
          c.gantt[now - 1].value < |jobs| && Left(jobs, c.gantt, c.gantt[now - 1].value) == 0)
  }

  lemma {:induction false} Admits(c: Core, rule: C.Policy, jobs: seq<Job>, now: nat)
    requires Charted(c, rule, jobs, now)
    ensures Admitting(Prepared(c, now), rule, jobs, now)
  {
    hide Tied, Waited, Keys;
    PreparedKept(c, jobs, now);
    AdmitTied(c, rule, jobs, now);
    if c.running.None? && now > 0 && c.gantt[now - 1].Some? {
      GoneIsDone(c, jobs, now);
    }
  }

  lemma {:induction false} AdmitTied(c: Core, rule: C.Policy, jobs: seq<Job>, now: nat)
    requires Charted(c, rule, jobs, now)
    ensures Waited(jobs, c.gantt, Prepared(c, now).ready, true)
    ensures Tied(jobs, c.gantt, Prepared(c, now).ready, Keys(rule, jobs, c.gantt))
  {
    var g, arr := c.gantt, Arrivals(c.procs, now, |c.procs|);
    forall j | j in arr
      ensures j < |jobs| && !C.Ran(g, j) && C.Since(jobs, g, j) == |g|
    {
      ArrivalWaits(c, jobs, now, j);
    }
    ArrivalsOrdered(c.procs, now, |c.procs|);
    JoinLate(jobs, g, c.ready, arr, Keys(rule, jobs, g));
  }

  /** Arrivals behind everyone who waits already. */
  lemma {:induction false} JoinLate(jobs: seq<Job>, g: Schedule, q: seq<nat>, arr: seq<nat>, key: seq<int>)
    requires Tied(jobs, g, q, key) && Waited(jobs, g, q, false)
    requires forall j :: j in arr ==> j < |jobs| && !C.Ran(g, j) && C.Since(jobs, g, j) == |g|
    requires forall a, b :: 0 <= a < b < |arr| ==> arr[a] < arr[b]
    ensures Tied(jobs, g, q + arr, key) && Waited(jobs, g, q + arr, true)
  {
    if arr == [] {
      assert q + arr == q;
    } else {
      var n := |arr| - 1;
      var x := arr[n];
      assert x in arr;
      JoinLate(jobs, g, q, arr[..n], key);
      assert q + arr == (q + arr[..n]) + [x];
      forall i | i in q + arr[..n]
        ensures C.Ahead(jobs, g, i, x)
      {
        if i !in q {
          var a :| 0 <= a < n && arr[a] == i;
          assert i in arr;
        }
      }
      SnocTied(jobs, g, q + arr[..n], x, key);
    }
  }

  // ---- The choice ----

  /** A sorted queue with the CPU free: its head is first in line. */
  lemma {:induction false} HeadIsFirst(c: Core, rule: C.Policy, jobs: seq<Job>, now: nat, q: seq<nat>)
    requires Mid(c, jobs, now) && q != [] && Sorted(q, Keys(rule, jobs, c.gantt))
    requires Tied(jobs, c.gantt, q, Keys(rule, jobs, c.gantt))
    requires q[0] in Outstanding(jobs, c.gantt)
    requires forall j :: j in Outstanding(jobs, c.gantt) && j != q[0] ==>
               j in q[1..] || (j < |jobs| && C.Before(rule, jobs, c.gantt, q[0], j))
    ensures C.First(rule, jobs, c.gantt, q[0])
  {
    var g, key := c.gantt, Keys(rule, jobs, c.gantt);
    forall j | j in Outstanding(jobs, g) && j != q[0]
      ensures C.Before(rule, jobs, g, q[0], j)
    {
      if j in q[1..] {
        var b :| 0 <= b < |q[1..]| && q[1..][b] == j;
        assert key[q[0]] <= key[q[b + 1]];
        if key[j] == key[q[0]] {
          HeadAhead(jobs, g, q, key, j);
        }
      }
    }
  }

  /** The keys the code sorts by are the ranks of the chart. */
  lemma {:induction false} KeysAgree(c: Core, jobs: seq<Job>, now: nat)
    requires Mid(c, jobs, now)
    ensures Bursts(c.procs) == Keys(C.ShortestJob, jobs, c.gantt)
    ensures Remainings(c.procs) == Keys(C.ShortestRemaining, jobs, c.gantt)
  {
    forall i: nat | i < |jobs|
      ensures c.procs[i].burst == jobs[i].burst && c.procs[i].remaining == Left(jobs, c.gantt, i)
    {
      assert Noted(c.procs[i], i, jobs, c.gantt, now, true);
    }
  }

  /** Sorting the queue. */
  lemma {:induction false} SortedQueue(c: Core, rule: C.Policy, jobs: seq<Job>, now: nat)
    requires Admitting(c, rule, jobs, now) && c.ready != []
    ensures var q := StableSort(c.ready, Keys(rule, jobs, c.gantt));
            && q != [] && Sorted(q, Keys(rule, jobs, c.gantt)) && Tied(jobs, c.gantt, q, Keys(rule, jobs, c.gantt))
            && Waited(jobs, c.gantt, q, true) && Distinct(q) && q[0] !in q[1..]
            && forall i: nat :: i in c.ready <==> i == q[0] || i in q[1..]
  {
    hide Tied, Keys;
    var key := Keys(rule, jobs, c.gantt);
    var q := StableSort(c.ready, key);
    SortTied(jobs, c.gantt, c.ready, key);
    SortHead(c.ready, key);
    MembersOf(c.ready, q);
    assert q == [q[0]] + q[1..];
  }

  /** With the CPU free, the head of the sorted queue is first in line. */
  lemma {:induction false} FreeChoice(c: Core, rule: C.Policy, jobs: seq<Job>, now: nat)
    requires Admitting(c, rule, jobs, now) && c.running.None? && c.ready != []
    ensures var q := StableSort(c.ready, Keys(rule, jobs, c.gantt));
            q != [] && C.Next(rule, jobs, c.gantt, Some(q[0]))
  {
    hide Tied, Keys, Waited, Sorted;
    var q := StableSort(c.ready, Keys(rule, jobs, c.gantt));
    SortedQueue(c, rule, jobs, now);
    OutstandingIsLive(c, jobs, now);
    HeadIsFirst(c, rule, jobs, now, q);
  }

  /** With nobody waiting and the CPU free nothing runs. */
  lemma {:induction false} NothingNext(c: Core, rule: C.Policy, jobs: seq<Job>, now: nat)
    requires Admitting(c, rule, jobs, now) && c.running.None? && c.ready == []
    ensures C.Next(rule, jobs, c.gantt, None)
  {
    OutstandingIsLive(c, jobs, now);
    assert Outstanding(jobs, c.gantt) == {};
  }

  lemma {:induction false} SjfChoosesNext(c: Core, jobs: seq<Job>, now: nat)
    requires Admitting(c, C.ShortestJob, jobs, now)
    ensures C.Next(C.ShortestJob, jobs, c.gantt, SjfChosen(c, now).running)
  {
    KeysAgree(c, jobs, now);
    if c.running.Some? {
      assert Noted(c.procs[c.running.value], c.running.value, jobs, c.gantt, now, true);
    } else {
      hide C.Next, Admitting;
      if c.ready == [] {
        NothingNext(c, C.ShortestJob, jobs, now);
      } else {
        FreeChoice(c, C.ShortestJob, jobs, now);
      }
    }
  }

  /** The running process keeps the CPU against a head that is no shorter. */
  lemma {:induction false} ContestKept(c: Core, jobs: seq<Job>, now: nat, h: nat)
    requires Mid(c, jobs, now) && c.running.Some? && now > 0 && c.gantt[now - 1] == c.running && h < |jobs|
    requires forall j :: j in c.ready ==> j < |jobs| && Left(jobs, c.gantt, h) <= Left(jobs, c.gantt, j)
    requires h in c.ready && Left(jobs, c.gantt, h) >= Left(jobs, c.gantt, c.running.value)
    ensures C.Next(C.ShortestRemaining, jobs, c.gantt, c.running)
  {
    OutstandingIsLive(c, jobs, now);
    assert Noted(c.procs[c.running.value], c.running.value, jobs, c.gantt, now, true);
  }

  /** And loses it to one that is strictly shorter. */
  lemma {:induction false} ContestLost(c: Core, jobs: seq<Job>, now: nat, q: seq<nat>)
    requires Mid(c, jobs, now) && c.running.Some? && now > 0 && c.gantt[now - 1] == c.running
    requires q != [] && Sorted(q, Keys(C.ShortestRemaining, jobs, c.gantt))
    requires Tied(jobs, c.gantt, q, Keys(C.ShortestRemaining, jobs, c.gantt))
    requires forall i: nat :: i in c.ready <==> i == q[0] || i in q[1..]
    requires q[0] < |jobs| && Left(jobs, c.gantt, q[0]) < Left(jobs, c.gantt, c.running.value)
    ensures C.Next(C.ShortestRemaining, jobs, c.gantt, Some(q[0]))
  {
    hide Tied, Keys;
    OutstandingIsLive(c, jobs, now);
    assert q[0] in Outstanding(jobs, c.gantt);
    HeadIsFirst(c, C.ShortestRemaining, jobs, now, q);
  }

  lemma {:induction false} HeadIsLeast(q: seq<nat>, key: seq<int>, j: nat)
    requires Sorted(q, key) && q != [] && (j == q[0] || j in q[1..])
    ensures key[q[0]] <= key[j]
  {
    if j in q[1..] {
      var b :| 0 <= b < |q[1..]| && q[1..][b] == j;
      assert q[b + 1] == j;
    }
  }

  /** The running process against the head of the sorted queue. */
  lemma {:induction false} Contest(c: Core, jobs: seq<Job>, now: nat)
    requires Admitting(c, C.ShortestRemaining, jobs, now) && c.running.Some? && c.ready != []
    ensures var q := StableSort(c.ready, Keys(C.ShortestRemaining, jobs, c.gantt));
            && q != [] && q[0] < |c.procs|
            && C.Next(C.ShortestRemaining, jobs, c.gantt,
                      if c.procs[q[0]].remaining < c.procs[c.running.value].remaining then Some(q[0]) else c.running)
  {
    hide Tied, Waited, C.Next, Sorted;
    var key := Keys(C.ShortestRemaining, jobs, c.gantt);
    var q := StableSort(c.ready, key);
    KeysAgree(c, jobs, now);
    SortedQueue(c, C.ShortestRemaining, jobs, now);
    assert q[0] in c.ready;
    assert key[q[0]] == c.procs[q[0]].remaining && key[c.running.value] == c.procs[c.running.value].remaining;
    if c.procs[q[0]].remaining < c.procs[c.running.value].remaining {
      ContestLost(c, jobs, now, q);
    } else {
      forall j | j in c.ready
        ensures j < |jobs| && Left(jobs, c.gantt, q[0]) <= Left(jobs, c.gantt, j)
      {
        HeadIsLeast(q, key, j);
      }
      ContestKept(c, jobs, now, q[0]);
    }
  }

  lemma {:induction false} StcfChoosesNext(c: Core, jobs: seq<Job>, now: nat)
    requires Admitting(c, C.ShortestRemaining, jobs, now)
    ensures C.Next(C.ShortestRemaining, jobs, c.gantt, StcfChosen(c, now).running)
  {
    KeysAgree(c, jobs, now);
    if c.ready != [] {
      hide C.Next, Admitting;
      if c.running.None? {
        FreeChoice(c, C.ShortestRemaining, jobs, now);
      } else {
        Contest(c, jobs, now);
      }
    } else if c.running.None? {
      NothingNext(c, C.ShortestRemaining, jobs, now);
    } else {
      OutstandingIsLive(c, jobs, now);
      assert Noted(c.procs[c.running.value], c.running.value, jobs, c.gantt, now, true);
    }
  }

  // ---- Ticks and runs ----

  lemma {:induction false} SjfQueue(c: Core, jobs: seq<Job>, now: nat)
    requires Admitting(c, C.ShortestJob, jobs, now)
    ensures var q := SjfChosen(c, now).ready;
            Waited(jobs, c.gantt, q, true) && Tied(jobs, c.gantt, q, Keys(C.ShortestJob, jobs, c.gantt))
  {
    hide Tied, Keys;
    if c.running.None? && c.ready != [] {
      KeysAgree(c, jobs, now);
      SortedQueue(c, C.ShortestJob, jobs, now);
      var q := StableSort(c.ready, Keys(C.ShortestJob, jobs, c.gantt));
      TailTied(jobs, c.gantt, q, Keys(C.ShortestJob, jobs, c.gantt));
    }
  }

  /** Those behind the head. */
  lemma {:induction false} TailWaits(jobs: seq<Job>, g: Schedule, q: seq<nat>)
    requires Waited(jobs, g, q, true) && q != []
    ensures Waited(jobs, g, q[1..], true)
  {
    assert forall i :: i in q[1..] ==> i in q;
  }

  /** The job of the last tick goes behind everyone. */
  lemma {:induction false} LastJoins(jobs: seq<Job>, g: Schedule, q: seq<nat>, i: nat, key: seq<int>)
    requires Waited(jobs, g, q, true) && Tied(jobs, g, q, key) && i < |jobs| && i !in q
    requires g != [] && g[|g| - 1] == Some(i)
    ensures Waited(jobs, g, q + [i], true) && Tied(jobs, g, q + [i], key)
  {
    hide Tied;
    forall j | j in q
      ensures C.Ahead(jobs, g, j, i)
    {
      SameLastTick(jobs, g, j, i);
    }
    SnocTied(jobs, g, q, i, key);
  }

  /** What the choice leaves in the queue. */
  lemma {:induction false} StcfLeaves(c: Core, now: int)
    requires Indexed(c)
    ensures var q := StableSort(c.ready, Remainings(c.procs));
            StcfChosen(c, now).ready ==
            if c.ready == [] then []
            else if |q| > 0 && c.running.None? then q[1..]
            else if |q| > 0 && c.procs[q[0]].remaining < c.procs[c.running.value].remaining
            then q[1..] + [c.running.value]
            else q
  {
    hide Sorted, StableSort, InRange;
    if c.ready != [] {
      SortHead(c.ready, Remainings(c.procs));
      var q := StableSort(c.ready, Remainings(c.procs));
      assert c.running.Some? ==> (q + [c.running.value])[1..] == q[1..] + [c.running.value];
    }
  }

  lemma {:induction false} StcfQueue(c: Core, jobs: seq<Job>, now: nat)
    requires Admitting(c, C.ShortestRemaining, jobs, now)
    ensures var q := StcfChosen(c, now).ready;
            Waited(jobs, c.gantt, q, true) && Tied(jobs, c.gantt, q, Keys(C.ShortestRemaining, jobs, c.gantt))
  {
    hide Tied, Keys, Waited, Sorted, StcfChosen;
    StcfLeaves(c, now);
    if c.ready != [] {
      var key := Keys(C.ShortestRemaining, jobs, c.gantt);
      var q := StableSort(c.ready, key);
      KeysAgree(c, jobs, now);
      SortedQueue(c, C.ShortestRemaining, jobs, now);
      TailTied(jobs, c.gantt, q, key);
      TailWaits(jobs, c.gantt, q);
      if c.running.Some? && c.procs[q[0]].remaining < c.procs[c.running.value].remaining {
        assert c.running.value !in c.ready;
        LastJoins(jobs, c.gantt, q[1..], c.running.value, key);
      }
    }
  }

  /** Using the tick keeps the order of those who wait. */
  lemma {:induction false} UsedCharted(d: Core, rule: C.Policy, jobs: seq<Job>, now: nat)
    requires Mid(d, jobs, now) && Balanced(Executed(d, now), jobs, now + 1) && !rule.RoundRobin?
    requires Waited(jobs, d.gantt, d.ready, true) && Tied(jobs, d.gantt, d.ready, Keys(rule, jobs, d.gantt))
    ensures Charted(Executed(d, now), rule, jobs, now + 1)
  {
    hide Tied, Balanced;
    var x, q := d.running, d.ready;
    assert x.Some? ==> x.value !in q;
    forall i | i in q
      ensures i < |jobs| && C.Since(jobs, d.gantt + [x], i) < |d.gantt| + 1
      ensures Keys(rule, jobs, d.gantt + [x])[i] == Keys(rule, jobs, d.gantt)[i]
    {
      SinceGrows(jobs, d.gantt, x, i);
      LeftGrows(jobs, d.gantt, x, i);
    }
    GrowTied(jobs, d.gantt, x, q, Keys(rule, jobs, d.gantt), Keys(rule, jobs, d.gantt + [x]));
  }

  lemma {:induction false} SjfTickCharted(c: Core, jobs: seq<Job>, now: nat)
    requires Charted(c, C.ShortestJob, jobs, now)
    ensures var c' := SjfTick(c, now);
            && Charted(c', C.ShortestJob, jobs, now + 1) && |c.gantt| == now && |c'.gantt| == now + 1
            && c'.gantt[..now] == c.gantt && C.Next(C.ShortestJob, jobs, c.gantt, c'.gantt[now])
  {
    hide C.Next, Tied, Waited, Prepared, SjfChosen;
    var m := Prepared(c, now);
    Admits(c, C.ShortestJob, jobs, now);
    SjfTickBalanced(c, jobs, now);
    SjfChoosesNext(m, jobs, now);
    SjfQueue(m, jobs, now);
    SjfChosenMid(m, jobs, now);
    UsedCharted(SjfChosen(m, now), C.ShortestJob, jobs, now);
  }

  lemma {:induction false} StcfTickCharted(c: Core, jobs: seq<Job>, now: nat)
    requires Charted(c, C.ShortestRemaining, jobs, now)
    ensures var c' := StcfTick(c, now);
            && Charted(c', C.ShortestRemaining, jobs, now + 1) && |c.gantt| == now && |c'.gantt| == now + 1
            && c'.gantt[..now] == c.gantt && C.Next(C.ShortestRemaining, jobs, c.gantt, c'.gantt[now])
  {
    hide C.Next, Tied, Waited, Prepared, StcfChosen;
    var m := Prepared(c, now);
    Admits(c, C.ShortestRemaining, jobs, now);
    StcfTickBalanced(c, jobs, now);
    StcfChoosesNext(m, jobs, now);
    StcfQueue(m, jobs, now);
    RunningStarted(c, jobs, now);
    StcfChosenMid(m, jobs, now);
    UsedCharted(StcfChosen(m, now), C.ShortestRemaining, jobs, now);
  }

  lemma {:induction false} StartCharted(procs: seq<Process>, rule: C.Policy)
    requires FreshProcs(procs)
    ensures Charted(InitialCore(procs), rule, Jobs(procs), 0) && C.Follows(rule, Jobs(procs), [])
  {
    InitialBalanced(procs);
  }

  /** Whatever the processes, the chart of SJF is the only one in which a job goes on until it is
      finished, and then the shortest burst in the system is next, of equal ones the first to arrive. */
  lemma {:induction false} SjfFollows(procs: seq<Process>, n: nat)
    requires FreshProcs(procs)
    ensures Charted(SjfRun(procs, n), C.ShortestJob, Jobs(procs), n)
    ensures C.Follows(C.ShortestJob, Jobs(procs), SjfRun(procs, n).gantt)
  {
    hide SjfTick, Charted, C.Next, C.Follows, FreshProcs;
    JobsProper(procs);
    if n == 0 {
      StartCharted(procs, C.ShortestJob);
    } else {
      var c, c' := SjfRun(procs, n - 1), SjfRun(procs, n);
      SjfFollows(procs, n - 1);
      SjfTickCharted(c, Jobs(procs), n - 1);
      C.FollowsGrows(C.ShortestJob, Jobs(procs), c.gantt, c'.gantt[n - 1]);
      assert c'.gantt == c.gantt + [c'.gantt[n - 1]];
    }
  }

  /** The chart of STCF is the only one in which a job goes on while none has less work left, and then
      one with the least is next, of equal ones the one that has waited longest. */
  lemma {:induction false} StcfFollows(procs: seq<Process>, n: nat)
    requires FreshProcs(procs)
    ensures Charted(StcfRun(procs, n), C.ShortestRemaining, Jobs(procs), n)
    ensures C.Follows(C.ShortestRemaining, Jobs(procs), StcfRun(procs, n).gantt)
  {
    hide StcfTick, Charted, C.Next, C.Follows, FreshProcs;
    JobsProper(procs);
    if n == 0 {
      StartCharted(procs, C.ShortestRemaining);
    } else {
      var c, c' := StcfRun(procs, n - 1), StcfRun(procs, n);
      StcfFollows(procs, n - 1);
      StcfTickCharted(c, Jobs(procs), n - 1);
      C.FollowsGrows(C.ShortestRemaining, Jobs(procs), c.gantt, c'.gantt[n - 1]);
      assert c'.gantt == c.gantt + [c'.gantt[n - 1]];
    }
  }

  // ---- The counters ----

  lemma {:induction false} SjfSwitches(c: Core, jobs: seq<Job>, now: nat)
    requires Admitting(c, C.ShortestJob, jobs, now)
    ensures var d := SjfChosen(c, now);
            && d.busy == c.busy && d.gantt == c.gantt
            && d.switches == c.switches +
               if d.running.Some? && (now == 0 || c.gantt[now - 1] != d.running) then 1 else 0
  {
    hide Tied, Waited, Keys;
    if c.running.None? && c.ready != [] {
      KeysAgree(c, jobs, now);
      SortedQueue(c, C.ShortestJob, jobs, now);
      HeadIsAnother(c, jobs, now, SjfChosen(c, now).running.value);
    }
  }

  /** With the CPU free, nobody who waits was the job of the last tick. */
  lemma {:induction false} HeadIsAnother(c: Core, jobs: seq<Job>, now: nat, h: nat)
    requires Mid(c, jobs, now) && h in c.ready
    requires c.running.None? && now > 0 && c.gantt[now - 1].Some? ==>
               c.gantt[now - 1].value < |jobs| && Left(jobs, c.gantt, c.gantt[now - 1].value) == 0
    ensures c.running.None? && now > 0 ==> c.gantt[now - 1] != Some(h)
  {
    assert Noted(c.procs[h], h, jobs, c.gantt, now, true);
  }

  lemma {:induction false} StcfSwitches(c: Core, jobs: seq<Job>, now: nat)
    requires Admitting(c, C.ShortestRemaining, jobs, now)
    ensures var d := StcfChosen(c, now);
            && d.busy == c.busy && d.gantt == c.gantt
            && d.switches == c.switches +
               if d.running.Some? && (now == 0 || c.gantt[now - 1] != d.running) then 1 else 0
  {
    hide Tied, Waited, Keys;
    if c.ready != [] {
      KeysAgree(c, jobs, now);
      SortedQueue(c, C.ShortestRemaining, jobs, now);
      var h := StableSort(c.ready, Remainings(c.procs))[0];
      assert h in c.ready;
      HeadIsAnother(c, jobs, now, h);
      assert c.running.Some? ==> c.running.value !in c.ready;
    }
  }

  lemma {:induction false} SjfTickCounts(c: Core, jobs: seq<Job>, now: nat)
    requires Charted(c, C.ShortestJob, jobs, now)
    ensures var c' := SjfTick(c, now);
            && |c.gantt| == now && |c'.gantt| == now + 1 && c'.gantt[..now] == c.gantt
            && c'.busy == c.busy + (if c'.gantt[now].Some? then 1 else 0)
            && c'.switches == c.switches +
               if c'.gantt[now].Some? && (now == 0 || c'.gantt[now - 1] != c'.gantt[now]) then 1 else 0
  {
    hide Prepared, SjfChosen, Admitting, Tied, Waited;
    Admits(c, C.ShortestJob, jobs, now);
    PreparedCounts(c, now);
    SjfSwitches(Prepared(c, now), jobs, now);
  }

  lemma {:induction false} StcfTickCounts(c: Core, jobs: seq<Job>, now: nat)
    requires Charted(c, C.ShortestRemaining, jobs, now)
    ensures var c' := StcfTick(c, now);
            && |c.gantt| == now && |c'.gantt| == now + 1 && c'.gantt[..now] == c.gantt
            && c'.busy == c.busy + (if c'.gantt[now].Some? then 1 else 0)
            && c'.switches == c.switches +
               if c'.gantt[now].Some? && (now == 0 || c'.gantt[now - 1] != c'.gantt[now]) then 1 else 0
  {
    hide Prepared, StcfChosen, Admitting, Tied, Waited;
    Admits(c, C.ShortestRemaining, jobs, now);
    PreparedCounts(c, now);
    StcfSwitches(Prepared(c, now), jobs, now);
  }

  /** Busy time is the number of ticks that ran something, and context switches the number of ticks
      that ran another process than the tick before. */
  lemma {:induction false} SjfCounters(procs: seq<Process>, n: nat)
    requires FreshProcs(procs)
    ensures var c := SjfRun(procs, n); c.busy == C.Busy(c.gantt) && c.switches == C.Starts(c.gantt)
  {
    hide SjfTick, Charted, C.Follows, FreshProcs;
    if n > 0 {
      SjfCounters(procs, n - 1);
      SjfFollows(procs, n - 1);
      SjfTickCounts(SjfRun(procs, n - 1), Jobs(procs), n - 1);
    }
  }

  lemma {:induction false} StcfCounters(procs: seq<Process>, n: nat)
    requires FreshProcs(procs)
    ensures var c := StcfRun(procs, n); c.busy == C.Busy(c.gantt) && c.switches == C.Starts(c.gantt)
  {
    hide StcfTick, Charted, C.Follows, FreshProcs;
    if n > 0 {
      StcfCounters(procs, n - 1);
      StcfFollows(procs, n - 1);
      StcfTickCounts(StcfRun(procs, n - 1), Jobs(procs), n - 1);
    }
  }
}
