/** pkg/cpu/sched_mlfq.go: what the Gantt chart of the multi-level feedback queue shows of its rules. */
module MlfqCharts {
  import opened Collections
  import opened Schedules
  import opened SchedulerCore
  import opened Mlfq
  import opened MlfqLaws
  import opened MlfqHistory
  import opened MlfqProgress
  import C = Charts

  // ---- Levels and slices, from the chart alone ----

  /** The last boost up to tick n. */
  function From(period: nat, n: nat): nat
    requires period >= 1
  {
    LastBoost(BoostTicks(n + 1, period))
  }

  /** The level at which i waits, or would, at tick |g|. */
  function Level(period: nat, g: Schedule, i: nat): nat
    requires period >= 1
  {
    WaitingRank(Runs(g, From(period, |g|), i)).0
  }

  /** Ticks of a slice at a level, and ticks at the level before the next one down. */
  function Share(level: nat): nat {
    if level == 0 then 2 else if level == 1 then 4 else 8
  }

  function Stay(level: nat): nat {
    if level == 0 then 4 else if level == 1 then 8 else 16
  }

  /** Ticks since the job of the last tick was dispatched. */
  function Slice(period: nat, g: Schedule): nat
    requires period >= 1
    decreases |g|, 1
  {
    if g == [] || g[|g| - 1].None? then 0
    else
      var n := |g| - 1;
      1 + if n > 0 && g[n - 1] == g[n] && !SliceOver(period, g[..n]) then Slice(period, g[..n]) else 0
  }

  /** At tick |g| the job of the last tick has used up its slice, or its stay at its level. */
  predicate SliceOver(period: nat, g: Schedule)
    requires period >= 1 && g != [] && g[|g| - 1].Some?
    decreases |g|, 2
  {
    var n := Runs(g, From(period, |g|), g[|g| - 1].value);
    var (level, used) := if n == 0 then (0, 0) else RunningRank(n);
    used >= Stay(level) || Slice(period, g) >= Share(level)
  }

  ghost predicate GoesOn(period: nat, jobs: seq<Job>, g: Schedule)
    requires period >= 1 && ProperJobs(jobs)
  {
    && g != [] && g[|g| - 1].Some? && g[|g| - 1].value < |jobs|
    && Left(jobs, g, g[|g| - 1].value) > 0 && !SliceOver(period, g)
  }

  /** What tick |g| runs: the same job while its slice lasts, and else one of the highest level that
      anyone waits at, which is the same job again only if nobody else waits at that level. */
  ghost predicate Next(period: nat, jobs: seq<Job>, g: Schedule, x: Option<nat>)
    requires period >= 1 && ProperJobs(jobs)
  {
    if GoesOn(period, jobs, g) then x == g[|g| - 1]
    else if x.None? then Outstanding(jobs, g) == {}
    else
      && x.value in Outstanding(jobs, g)
      && forall j :: j in Outstanding(jobs, g) && j != x.value ==>
           if g != [] && x == g[|g| - 1] then Level(period, g, x.value) < Level(period, g, j)
           else Level(period, g, x.value) <= Level(period, g, j)
  }

  // ---- The scheduler's slice is the chart's ----

  ghost predicate Timed(m: MlfqState) {
    && m.period >= 1
    && (m.running.Some? ==>
          m.gantt != [] && m.gantt[|m.gantt| - 1] == m.running && m.slice == Slice(m.period, m.gantt))
    && (m.running.None? && m.gantt != [] && m.gantt[|m.gantt| - 1].Some? ==>
          var i := m.gantt[|m.gantt| - 1].value;
          i < |m.procs| && m.procs[i].status == Terminated)
  }

  /** What a tick has to decide on: after the boost and the arrivals. */
  ghost predicate Deciding(e: MlfqState, jobs: seq<Job>, now: nat) {
    && Shaped(e) && Law(e, Entering) && Mid(Base(e), jobs, now) && |e.gantt| == now
    && LastBoost(e.boosts) == From(e.period, now) && Timed(e)
    && (e.running.Some? ==> e.procs[e.running.value].start < now)
  }

  lemma {:induction false} ExpiresAtEnd(e: MlfqState, jobs: seq<Job>, now: nat)
    requires Deciding(e, jobs, now) && e.running.Some?
    ensures var p := e.procs[e.running.value];
            SliceOver(e.period, e.gantt) <==> p.used >= Allotment(p.level) || e.slice >= Quantum(p.level)
  {
    hide Law, Mid, Levelled, Slice, WorkConserving;
    RunningRated(e);
    RankMoves(Runs(e.gantt, LastBoost(e.boosts), e.running.value));
  }

  lemma {:induction false} RunningRated(e: MlfqState)
    requires Law(e, Entering) && e.running.Some?
    ensures e.running.value < |e.procs| && e.procs[e.running.value].status == Running
    ensures RatedAt(e, e.running.value, Entering)
  {
  }

  /** The levels of those who wait are the chart's. */
  lemma {:induction false} LevelsAgree(x: MlfqState, i: nat)
    requires Law(x, Ripe) && i in Flat(x.queues) && LastBoost(x.boosts) == From(x.period, |x.gantt|) && x.period >= 1
    ensures i < |x.procs| && x.procs[i].level == Level(x.period, x.gantt, i)
  {
    assert x.procs[i].status == Ready && RatedAt(x, i, Ripe);
  }

  /** An expired job is last at its level: it is first of all only if it is alone there. */
  lemma {:induction false} LastIsAlone(x: MlfqState, i: nat, l: nat, j: nat)
    requires Law(x, Ripe) && l < 3 && x.queues[l] != [] && x.queues[l][|x.queues[l]| - 1] == i
    requires Flat(x.queues) != [] && Flat(x.queues)[0] == i && j in Flat(x.queues) && j != i
    ensures i < |x.procs| && j < |x.procs| && x.procs[j].level > x.procs[i].level
  {
    var q := x.queues;
    InSomeQueue(q, j);
    var s := |q[l]| - 1;
    var at := (if l == 0 then 0 else if l == 1 then |q[0]| else |q[0]| + |q[1]|) + s;
    assert Flat(q)[at] == i;
    assert at == 0;
  }

  /** The state after expiry, and where the expired job is. */
  lemma {:induction false} Ripens(e: MlfqState, jobs: seq<Job>, now: nat)
    requires Deciding(e, jobs, now)
    ensures var x := Expired(e);
            && Shaped(x) && Law(x, Ripe) && Mid(Base(x), jobs, now) && LastBoost(x.boosts) == From(x.period, |x.gantt|)
            && x.period == e.period >= 1 && x.gantt == e.gantt
            && (e.running.None? ==> x == e)
            && (e.running.Some? && !SliceOver(e.period, e.gantt) ==> x == e)
            && (e.running.Some? && SliceOver(e.period, e.gantt) ==>
                  x.running.None? && exists l: nat :: EndsAt(x, l, e.running.value))
  {
    hide Law, SliceOver;
    ExpiredLaw(e);
    ExpiredKept(e, jobs, now);
    if e.running.Some? {
      ExpiresAtEnd(e, jobs, now);
      var p, x := e.procs[e.running.value], Expired(e);
      var l := if p.used >= Allotment(p.level) && p.level < 2 then p.level + 1 else p.level;
      assert x.running.None? ==> EndsAt(x, l, e.running.value);
    }
  }

  ghost predicate EndsAt(x: MlfqState, l: nat, i: nat) {
    |x.queues| == 3 && l < 3 && x.queues[l] != [] && x.queues[l][|x.queues[l]| - 1] == i
  }

  /** Of those in the system nobody is at a higher level than the head of the queues. */
  lemma {:induction false} HeadIsHighest(x: MlfqState, jobs: seq<Job>, now: nat, j: nat)
    requires Law(x, Ripe) && Mid(Base(x), jobs, now) && x.running.None?
    requires LastBoost(x.boosts) == From(x.period, |x.gantt|) && x.period >= 1
    requires j in Outstanding(jobs, x.gantt)
    ensures Flat(x.queues) != [] && Chosen(x, now).running == Some(Flat(x.queues)[0])
    ensures Flat(x.queues)[0] in Outstanding(jobs, x.gantt) && j in Flat(x.queues)
    ensures Level(x.period, x.gantt, Flat(x.queues)[0]) <= Level(x.period, x.gantt, j)
  {
    OutstandingIsLive(Base(x), jobs, now);
    assert Flat(x.queues)[0] in Flat(x.queues);
    ChoosesHighest(x, now, j);
    LevelsAgree(x, j);
    LevelsAgree(x, Flat(x.queues)[0]);
  }

  lemma {:induction false} ChoosesFree(x: MlfqState, jobs: seq<Job>, now: nat)
    requires ProperJobs(jobs) && Shaped(x) && Law(x, Ripe) && Mid(Base(x), jobs, now) && x.running.None?
    requires LastBoost(x.boosts) == From(x.period, |x.gantt|) && x.period >= 1
    requires !GoesOn(x.period, jobs, x.gantt)
    requires x.gantt != [] && x.gantt[|x.gantt| - 1].Some? ==>
               var i := x.gantt[|x.gantt| - 1].value;
               i !in Flat(x.queues) || exists l: nat :: EndsAt(x, l, i)
    ensures Next(x.period, jobs, x.gantt, Chosen(x, now).running)
  {
    hide Law, Mid, GoesOn, Level;
    var g, r := x.gantt, Chosen(x, now).running;
    if r.None? {
      if j :| j in Outstanding(jobs, g) {
        HeadIsHighest(x, jobs, now, j);
      }
    } else {
      HeadInSystem(x, jobs, now);
      forall j | j in Outstanding(jobs, g) && j != r.value
        ensures if g != [] && r == g[|g| - 1] then Level(x.period, g, r.value) < Level(x.period, g, j)
                else Level(x.period, g, r.value) <= Level(x.period, g, j)
      {
        HeadIsHighest(x, jobs, now, j);
        if g != [] && r == g[|g| - 1] {
          var l: nat :| EndsAt(x, l, r.value);
          LastIsAlone(x, r.value, l, j);
          LevelsAgree(x, j);
          LevelsAgree(x, r.value);
        }
      }
    }
  }

  lemma {:induction false} HeadInSystem(x: MlfqState, jobs: seq<Job>, now: nat)
    requires Law(x, Ripe) && Mid(Base(x), jobs, now) && x.running.None? && Chosen(x, now).running.Some?
    ensures Chosen(x, now).running.value in Outstanding(jobs, x.gantt)
    ensures Chosen(x, now).running.value in Flat(x.queues)
  {
    OutstandingIsLive(Base(x), jobs, now);
    assert Flat(x.queues)[0] in Flat(x.queues);
  }

  /** Whoever runs has work left; whoever ran last and does not run has none and waits nowhere. */
  lemma {:induction false} LastTick(e: MlfqState, jobs: seq<Job>, now: nat)
    requires Deciding(e, jobs, now) && e.gantt != [] && e.gantt[|e.gantt| - 1].Some?
    ensures var i := e.gantt[|e.gantt| - 1].value;
            && i < |jobs| && (Left(jobs, e.gantt, i) > 0 <==> e.running.Some?)
            && (e.running.None? ==> i !in Flat(e.queues))
  {
    var i := e.gantt[|e.gantt| - 1].value;
    assert Noted(e.procs[i], i, jobs, e.gantt, now, true);
  }

  lemma {:induction false} ChoosesNext(e: MlfqState, jobs: seq<Job>, now: nat)
    requires Deciding(e, jobs, now)
    ensures Next(e.period, jobs, e.gantt, Chosen(Expired(e), now).running)
  {
    hide Law, SliceOver, Slice, Next, Chosen, Expired, Levelled, WorkConserving;
    Ripens(e, jobs, now);
    if e.gantt != [] && e.gantt[|e.gantt| - 1].Some? {
      LastTick(e, jobs, now);
    }
    if e.running.Some? && !SliceOver(e.period, e.gantt) {
      RunsOn(e, now);
      KeepsOn(e, jobs);
    } else {
      ChoosesFree(Expired(e), jobs, now);
    }
  }

  lemma {:induction false} RunsOn(e: MlfqState, now: nat)
    requires Shaped(e) && e.running.Some?
    ensures Chosen(e, now) == e
  {
  }

  lemma {:induction false} KeepsOn(e: MlfqState, jobs: seq<Job>)
    requires e.period >= 1 && ProperJobs(jobs) && GoesOn(e.period, jobs, e.gantt)
    ensures Next(e.period, jobs, e.gantt, e.gantt[|e.gantt| - 1])
  {
  }

  // ---- Ticks and runs ----

  /** Between ticks. */
  ghost predicate Charted(m: MlfqState, jobs: seq<Job>, now: nat) {
    && Shaped(m) && Law(m, Settled) && Balanced(Base(m), jobs, now) && Timed(m)
    && OnSchedule(m.sinceBoost, m.boosts, m.period, now)
  }

  lemma {:induction false} Decides(m: MlfqState, jobs: seq<Job>, now: nat)
    requires Charted(m, jobs, now)
    ensures Deciding(Before(m, now), jobs, now) && Before(m, now).period == m.period && Before(m, now).gantt == m.gantt
  {
    hide Law, Slice, Boosted, Entered, Timed, Mid, Levelled;
    PreparedShaped(m, now);
    BoostedLaw(m, now);
    EnteredLaw(Boosted(m, now), now);
    EnteredKept(m, jobs, now);
    OnScheduleStep(m.sinceBoost, m.boosts, m.period, now);
    if m.running.Some? {
      EnteredStarted(m, jobs, now);
    }
    TimedBefore(m, now);
  }

  lemma {:induction false} TimedBefore(m: MlfqState, now: nat)
    requires Shaped(m) && Placed(Base(m)) && Timed(m)
    ensures Timed(Before(m, now))
  {
    hide Slice, Boosted, Entered, Levelled;
    PreparedShaped(m, now);
    if m.gantt != [] && m.gantt[|m.gantt| - 1].Some? && m.running.None? {
      var i := m.gantt[|m.gantt| - 1].value;
      BoostedDone(m, now, i);
      EnteredDone(Boosted(m, now), now, i);
    }
  }

  lemma {:induction false} BoostedDone(m: MlfqState, now: nat, i: nat)
    requires Shaped(m) && i < |m.procs|
    ensures Boosted(m, now).procs[i].status == m.procs[i].status
  {
    ResetAt(m.procs, Flat(m.queues), i);
    ResetAt(Reset(m.procs, Flat(m.queues)), Held(m.running), i);
  }

  lemma {:induction false} EnteredDone(b: MlfqState, now: nat, i: nat)
    requires Shaped(b) && i < |b.procs| && b.procs[i].status == Terminated
    ensures Entered(b, now).procs[i].status == Terminated
  {
    var arr := Arrivals(b.procs, now, |b.procs|);
    ResetAt(Admitted(b.procs, now), arr, i);
    AgedLevel(Reset(Admitted(b.procs, now), arr), Flat(Entered(b, now).queues), i);
  }

  lemma {:induction false} SliceGrows(period: nat, g: Schedule, x: nat)
    requires period >= 1
    ensures Slice(period, g + [Some(x)]) ==
            1 + if g != [] && g[|g| - 1] == Some(x) && !SliceOver(period, g) then Slice(period, g) else 0
  {
    var h := g + [Some(x)];
    assert h[..|g|] == g && h[|h| - 1] == Some(x);
  }

  lemma {:induction false} UsedTimed(e: MlfqState, jobs: seq<Job>, now: nat)
    requires Deciding(e, jobs, now)
    ensures Timed(Used(Chosen(Expired(e), now), now))
  {
    hide Law, SliceOver, Slice, Mid, Levelled;
    Ripens(e, jobs, now);
    var c := Chosen(Expired(e), now);
    if c.running.Some? {
      var r := c.running.value;
      SliceGrows(e.period, e.gantt, r);
      if e.gantt != [] && e.gantt[|e.gantt| - 1].Some? {
        LastTick(e, jobs, now);
      }
      if Expired(e).running.None? {
        HeadInSystem(Expired(e), jobs, now);
      }
    }
  }

  lemma {:induction false} TickCharted(m: MlfqState, jobs: seq<Job>, now: nat)
    requires Charted(m, jobs, now)
    ensures var m' := MlfqTick(m, now);
            && Charted(m', jobs, now + 1) && m'.period == m.period && |m.gantt| == now && |m'.gantt| == now + 1
            && m'.gantt[..now] == m.gantt && Next(m.period, jobs, m.gantt, m'.gantt[now])
  {
    hide Law, Slice, Next, Boosted, Entered, Expired, Chosen, Used, Timed;
    Decides(m, jobs, now);
    var e := Before(m, now);
    ChoosesNext(e, jobs, now);
    UsedTimed(e, jobs, now);
    MlfqTickBalanced(m, jobs, now);
    LastBoostPast(now, m.period);
    TickLaw(m, now);
    OnScheduleStep(m.sinceBoost, m.boosts, m.period, now);
  }

  ghost predicate Follows(period: nat, jobs: seq<Job>, g: Schedule)
    requires period >= 1 && ProperJobs(jobs)
  {
    forall t :: 0 <= t < |g| ==> Next(period, jobs, g[..t], g[t])
  }

  lemma {:induction false} FollowsGrows(period: nat, jobs: seq<Job>, g: Schedule, x: Option<nat>)
    requires period >= 1 && ProperJobs(jobs) && Follows(period, jobs, g) && Next(period, jobs, g, x)
    ensures Follows(period, jobs, g + [x])
  {
    hide Next;
    var h := g + [x];
    forall t | 0 <= t < |h|
      ensures Next(period, jobs, h[..t], h[t])
    {
      if t < |g| {
        assert h[..t] == g[..t];
      } else {
        assert h[..t] == g;
      }
    }
  }

  lemma {:induction false} FollowsTick(m: MlfqState, jobs: seq<Job>, now: nat)
    requires Shaped(m) && Charted(m, jobs, now) && ProperJobs(jobs) && Follows(m.period, jobs, m.gantt)
    ensures Charted(MlfqTick(m, now), jobs, now + 1) && Follows(m.period, jobs, MlfqTick(m, now).gantt)
  {
    hide MlfqTick, Charted, Next, Follows, Boosted;
    var g := MlfqTick(m, now).gantt;
    TickCharted(m, jobs, now);
    FollowsGrows(m.period, jobs, m.gantt, g[now]);
    assert g == m.gantt + [g[now]];
  }

  lemma NoTicks(period: nat, jobs: seq<Job>)
    requires period >= 1 && ProperJobs(jobs)
    ensures Follows(period, jobs, [])
  {
  }

  ghost function Period(period: int): nat {
    if period <= 0 then 50 else period
  }

  lemma {:induction false} StartCharted(procs: seq<Process>, period: int)
    requires FreshProcs(procs)
    ensures Charted(InitialMlfq(procs, period), Jobs(procs), 0)
  {
    InitialBalanced(procs);
    StartLaw(procs, period);
    assert Base(InitialMlfq(procs, period)) == InitialCore(procs);
  }

  /** Whatever the processes, every tick of the chart keeps the rules: a job goes on for 2, 4 or 8
      ticks at its level, or until it has used up the level, and then the highest level that anyone
      waits at is served, by someone else if someone else waits there. */
  lemma {:induction false} MlfqFollows(procs: seq<Process>, period: int, n: nat)
    requires FreshProcs(procs)
    ensures Charted(MlfqRun(procs, period, n), Jobs(procs), n) && ProperJobs(Jobs(procs))
    ensures Follows(Period(period), Jobs(procs), MlfqRun(procs, period, n).gantt)
  {
    hide MlfqTick, Charted, FreshProcs, Follows, Shaped, Boosted;
    JobsProper(procs);
    if n == 0 {
      StartCharted(procs, period);
      NoTicks(Period(period), Jobs(procs));
    } else {
      MlfqFollows(procs, period, n - 1);
      FollowsTick(MlfqRun(procs, period, n - 1), Jobs(procs), n - 1);
    }
  }

  // ---- The counters ----

  /** Ticks that began a slice. */
  function SliceStarts(period: nat, g: Schedule): nat
    requires period >= 1
  {
    if g == [] then 0 else SliceStarts(period, g[..|g| - 1]) + if Slice(period, g) == 1 then 1 else 0
  }

  /** Only a dispatch counts. */
  lemma {:induction false} DispatchCounts(e: MlfqState, now: nat)
    requires Shaped(e)
    ensures var x, c := Expired(e), Chosen(Expired(e), now);
            && c.busy == e.busy && c.gantt == e.gantt && c.period == e.period
            && (x.running.Some? ==> c == x)
            && c.switches == e.switches + if x.running.None? && c.running.Some? then 1 else 0
  {
    hide Levelled;
  }

  lemma {:induction false} ChosenSwitches(e: MlfqState, jobs: seq<Job>, now: nat)
    requires Deciding(e, jobs, now)
    ensures var c := Chosen(Expired(e), now);
            && c.busy == e.busy && c.gantt == e.gantt && c.period == e.period
            && c.switches == e.switches + if Slice(e.period, e.gantt + [c.running]) == 1 then 1 else 0
  {
    hide Mid, Law, Noted, SliceOver, Slice, Levelled, Chosen, Expired, WorkConserving;
    DispatchCounts(e, now);
    var c := Chosen(Expired(e), now);
    if c.running.None? {
      IdleSlice(e.period, e.gantt + [None]);
    } else {
      SliceGrows(e.period, e.gantt, c.running.value);
      DispatchIff(e, jobs, now);
      if e.gantt != [] && e.gantt[|e.gantt| - 1].Some? {
        SliceBegun(e.period, e.gantt);
      }
    }
  }

  /** Whoever runs has been dispatched unless the slice of the last tick goes on. */
  lemma {:induction false} DispatchIff(e: MlfqState, jobs: seq<Job>, now: nat)
    requires Deciding(e, jobs, now) && Chosen(Expired(e), now).running.Some?
    ensures e.period >= 1
    ensures Expired(e).running.Some? <==>
            e.gantt != [] && e.gantt[|e.gantt| - 1] == Chosen(Expired(e), now).running && !SliceOver(e.period, e.gantt)
  {
    hide Law, SliceOver, Slice, Levelled, Chosen, Expired, WorkConserving;
    Ripens(e, jobs, now);
    DispatchCounts(e, now);
    if e.gantt != [] && e.gantt[|e.gantt| - 1].Some? {
      LastTick(e, jobs, now);
    }
    if Expired(e).running.None? {
      HeadInSystem(Expired(e), jobs, now);
    }
  }

  lemma {:induction false} IdleSlice(period: nat, g: Schedule)
    requires period >= 1 && g != [] && g[|g| - 1].None?
    ensures Slice(period, g) == 0
  {
  }

  lemma {:induction false} SliceBegun(period: nat, g: Schedule)
    requires period >= 1 && g != [] && g[|g| - 1].Some?
    ensures Slice(period, g) >= 1
  {
  }

  lemma {:induction false} TickCounts(m: MlfqState, jobs: seq<Job>, now: nat)
    requires Shaped(m) && Charted(m, jobs, now)
    ensures var m' := MlfqTick(m, now);
            && m.period >= 1 && m'.period == m.period
            && |m'.gantt| == |m.gantt| + 1 && m'.gantt[..|m.gantt|] == m.gantt
            && m'.busy == m.busy + (if m'.gantt[|m.gantt|].Some? then 1 else 0)
            && m'.switches == m.switches + if Slice(m.period, m'.gantt) == 1 then 1 else 0
  {
    hide Boosted, Entered, Expired, Chosen, Charted, Deciding, Slice, Levelled;
    PreparedShaped(m, now);
    Decides(m, jobs, now);
    BeforeCounts(m, now);
    ChosenSwitches(Before(m, now), jobs, now);
  }

  lemma {:induction false} BeforeCounts(m: MlfqState, now: nat)
    requires Shaped(m)
    ensures Before(m, now).busy == m.busy && Before(m, now).switches == m.switches
  {
  }

  ghost predicate Counted(m: MlfqState) {
    m.period >= 1 && m.busy == C.Busy(m.gantt) && m.switches == SliceStarts(m.period, m.gantt)
  }

  /** Busy time is the number of ticks that ran something, and context switches the number of slices. */
  lemma {:induction false} MlfqCounters(procs: seq<Process>, period: int, n: nat)
    requires FreshProcs(procs)
    ensures Counted(MlfqRun(procs, period, n))
  {
    hide MlfqTick, Counted, Charted, FreshProcs, Shaped, Follows;
    if n == 0 {
      StartCounted(procs, period);
    } else {
      MlfqCounters(procs, period, n - 1);
      MlfqFollows(procs, period, n - 1);
      TickCounted(MlfqRun(procs, period, n - 1), Jobs(procs), n - 1);
    }
  }

  lemma StartCounted(procs: seq<Process>, period: int)
    ensures Counted(InitialMlfq(procs, period))
  {
  }

  lemma {:induction false} TickCounted(m: MlfqState, jobs: seq<Job>, now: nat)
    requires Shaped(m) && Charted(m, jobs, now) && Counted(m)
    ensures Counted(MlfqTick(m, now))
  {
    hide MlfqTick, Charted, Shaped, Slice, SliceStarts, C.Busy;
    TickCounts(m, jobs, now);
    CountMore(m.period, m.gantt, MlfqTick(m, now).gantt);
  }

  lemma {:induction false} CountMore(period: nat, g: Schedule, h: Schedule)
    requires period >= 1 && |h| == |g| + 1 && h[..|g|] == g
    ensures C.Busy(h) == C.Busy(g) + if h[|g|].Some? then 1 else 0
    ensures SliceStarts(period, h) == SliceStarts(period, g) + if Slice(period, h) == 1 then 1 else 0
  {
  }
}
