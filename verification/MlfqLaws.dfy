/** What every run of the multi-level feedback queue keeps. */
module MlfqLaws {
  import opened Collections
  import opened Schedules
  import opened SchedulerCore
  import opened Mlfq

  // ---------------------------------------------------------------------------------------
  // Accounting: the phases do to the flattened queues what the shared phases do
  // ---------------------------------------------------------------------------------------

  ghost predicate SameBut(p: Process, p': Process) {
    p' == p.(level := p'.level, used := p'.used)
  }

  /** Equal up to the order of the queue and the MLFQ fields. */
  ghost predicate Similar(c: Core, d: Core) {
    && d.running == c.running && d.completed == c.completed && d.gantt == c.gantt
    && multiset(d.ready) == multiset(c.ready) && |d.procs| == |c.procs|
    && forall i :: 0 <= i < |c.procs| ==> SameBut(c.procs[i], d.procs[i])
  }

  lemma SimilarPlaced(c: Core, d: Core)
    requires Placed(c) && Similar(c, d)
    ensures Placed(d)
  {
    MembersOf(c.ready, d.ready);
    forall k | 0 <= k < |d.ready| ensures d.ready[k] < |d.procs| {
      assert d.ready[k] in d.ready;
    }
    forall i: nat | i < |c.procs| ensures d.procs[i].status == c.procs[i].status {
      assert SameBut(c.procs[i], d.procs[i]);
    }
  }

  lemma SimilarKept(c: Core, d: Core, jobs: seq<Job>, now: nat, aged: bool)
    requires Kept(c, jobs, now, aged) && Similar(c, d)
    ensures Kept(d, jobs, now, aged)
  {
    SimilarPlaced(c, d);
    forall i: nat | i < |jobs| ensures Noted(d.procs[i], i, jobs, d.gantt, now, aged) {
      assert Noted(c.procs[i], i, jobs, c.gantt, now, aged);
      assert SameBut(c.procs[i], d.procs[i]);
    }
  }

  lemma BoostedSimilar(m: MlfqState, now: nat)
    requires Shaped(m)
    ensures Similar(Base(m), Base(Boosted(m, now)))
  {
    var all := Flat(m.queues);
    forall i: nat | i < |m.procs| ensures SameBut(m.procs[i], Boosted(m, now).procs[i]) {
      ResetAt(m.procs, all, i);
      ResetAt(Reset(m.procs, all), Held(m.running), i);
    }
  }

  lemma FlatPush(q: seq<seq<nat>>, k: nat, x: seq<nat>)
    requires |q| == 3 && k < 3
    ensures multiset(Flat(q[k := q[k] + x])) == multiset(Flat(q) + x)
  {
  }

  lemma EnteredSimilar(m: MlfqState, now: nat)
    requires |m.queues| == 3 && Placed(Base(m))
    ensures Similar(Prepared(Base(m), now), Base(Entered(m, now)))
  {
    var arr := Arrivals(m.procs, now, |m.procs|);
    var e := Entered(m, now);
    FlatPush(m.queues, 0, arr);
    PreparedQueue(Base(m), now);
    MembersOf(Flat(m.queues) + arr, Flat(e.queues));
    forall i: nat | i < |m.procs| ensures SameBut(Prepared(Base(m), now).procs[i], e.procs[i]) {
      SameAgeing(Admitted(m.procs, now), arr, Flat(m.queues) + arr, Flat(e.queues), i);
    }
  }

  lemma SameAgeing(procs: seq<Process>, arr: seq<nat>, q: seq<nat>, q': seq<nat>, i: nat)
    requires InRange(arr, |procs|) && InRange(q, |procs|) && InRange(q', |procs|) && i < |procs|
    requires Distinct(q) && Distinct(q') && (i in q <==> i in q')
    ensures SameBut(Aged(procs, q)[i], Aged(Reset(procs, arr), q')[i])
  {
    AgedAt(procs, q, i);
    AgedAt(Reset(procs, arr), q', i);
    ResetAt(procs, arr, i);
  }

  lemma RequeuedSimilar(m: MlfqState, p: Process)
    requires Shaped(m) && m.running.Some? && p.level < 3 && SameBut(m.procs[m.running.value], p)
    ensures Similar(Preempted(Base(m)), Base(Requeued(m, p)))
  {
    FlatPush(m.queues, p.level, [m.running.value]);
  }

  lemma ChosenIsDispatched(m: MlfqState, now: nat)
    requires Shaped(m) && m.running.None? && Flat(m.queues) != []
    ensures Base(Chosen(m, now)) == Dispatched(Base(m), now)
  {
  }

  lemma UsedSimilar(m: MlfqState, now: nat)
    requires Shaped(m)
    ensures Similar(Executed(Base(m), now), Base(Used(m, now)))
  {
  }

  lemma EnteredKept(m: MlfqState, jobs: seq<Job>, now: nat)
    requires Shaped(m) && Balanced(Base(m), jobs, now)
    ensures Mid(Base(Entered(Boosted(m, now), now)), jobs, now)
  {
    var b := Boosted(m, now);
    BoostedSimilar(m, now);
    SimilarKept(Base(m), Base(b), jobs, now, false);
    EnteredSimilar(b, now);
    PreparedKept(Base(b), jobs, now);
    SimilarKept(Prepared(Base(b), now), Base(Entered(b, now)), jobs, now, true);
  }

  lemma ExpiredKept(m: MlfqState, jobs: seq<Job>, now: nat)
    requires Shaped(m) && Mid(Base(m), jobs, now) && (m.running.Some? ==> m.procs[m.running.value].start < now)
    ensures Mid(Base(Expired(m)), jobs, now)
  {
    if m.running.Some? {
      PreemptedKept(Base(m), jobs, now);
      var p := m.procs[m.running.value];
      if p.used >= Allotment(p.level) {
        var p' := p.(level := if p.level < 2 then p.level + 1 else p.level, used := 0);
        RequeuedSimilar(m, p');
        SimilarKept(Preempted(Base(m)), Base(Requeued(m, p')), jobs, now, true);
      } else if m.slice >= Quantum(p.level) {
        RequeuedSimilar(m, p);
        SimilarKept(Preempted(Base(m)), Base(Requeued(m, p)), jobs, now, true);
      }
    }
  }

  lemma ChosenKept(m: MlfqState, jobs: seq<Job>, now: nat)
    requires Shaped(m) && Mid(Base(m), jobs, now)
    ensures Mid(Base(Chosen(m, now)), jobs, now)
    ensures Chosen(m, now).running.None? ==> Flat(Chosen(m, now).queues) == []
  {
    if m.running.None? && Flat(m.queues) != [] {
      ChosenIsDispatched(m, now);
      DispatchedKept(Base(m), jobs, now);
    }
  }

  lemma UsedKept(m: MlfqState, jobs: seq<Job>, now: nat)
    requires Shaped(m) && Mid(Base(m), jobs, now) && (m.running.None? ==> Flat(m.queues) == [])
    ensures Balanced(Base(Used(m, now)), jobs, now + 1)
  {
    ExecutedKept(Base(m), jobs, now);
    UsedSimilar(m, now);
    SimilarKept(Executed(Base(m), now), Base(Used(m, now)), jobs, now + 1, false);
  }

  lemma EnteredStarted(m: MlfqState, jobs: seq<Job>, now: nat)
    requires Shaped(m) && Balanced(Base(m), jobs, now) && m.running.Some?
    ensures Entered(Boosted(m, now), now).procs[m.running.value].start < now
  {
    var r := m.running.value;
    var b := Boosted(m, now);
    assert Noted(m.procs[r], r, jobs, m.gantt, now, false);
    BoostedSimilar(m, now);
    SimilarPlaced(Base(m), Base(b));
    EnteredSimilar(b, now);
    assert SameBut(m.procs[r], b.procs[r]);
    PreparedAt(Base(b), now, r);
    assert SameBut(Prepared(Base(b), now).procs[r], Entered(b, now).procs[r]);
  }

  lemma MlfqTickBalanced(m: MlfqState, jobs: seq<Job>, now: nat)
    requires Shaped(m) && Balanced(Base(m), jobs, now)
    ensures Balanced(Base(MlfqTick(m, now)), jobs, now + 1)
  {
    PreparedShaped(m, now);
    var e := Entered(Boosted(m, now), now);
    EnteredKept(m, jobs, now);
    if m.running.Some? { EnteredStarted(m, jobs, now); }
    ExpiredKept(e, jobs, now);
    ChosenKept(Expired(e), jobs, now);
    UsedKept(Chosen(Expired(e), now), jobs, now);
  }

  lemma {:induction false} MlfqRunBalanced(procs: seq<Process>, period: int, n: nat)
    requires FreshProcs(procs)
    ensures Balanced(Base(MlfqRun(procs, period, n)), Jobs(procs), n)
  {
    if n == 0 {
      InitialBalanced(procs);
      assert Base(InitialMlfq(procs, period)) == InitialCore(procs);
    } else {
      MlfqRunBalanced(procs, period, n - 1);
      MlfqTickBalanced(MlfqRun(procs, period, n - 1), Jobs(procs), n - 1);
    }
  }

  lemma MlfqCompletes(procs: seq<Process>, period: int, n: nat, last: nat)
    requires FreshProcs(procs) && ArrivedBy(Jobs(procs), last) && n >= last + TotalBurst(Jobs(procs))
    ensures AllTerminated(Base(MlfqRun(procs, period, n))) && |MlfqRun(procs, period, n).completed| == |procs|
  {
    MlfqRunBalanced(procs, period, n);
    TerminatedInTime(Base(MlfqRun(procs, period, n)), Jobs(procs), n, last);
  }
}
