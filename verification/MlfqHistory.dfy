/**
  Rule 4 as a law about history: the level and the used allotment of a process depend only on
  how many ticks it has run since the last boost.  Rule 5: when boosts happen, and why no
  process starves.
 */
module MlfqHistory {
  import opened Collections
  import opened Schedules
  import opened SchedulerCore
  import opened Mlfq
  import opened MlfqLaws

  // ---------------------------------------------------------------------------------------
  // The history law
  // ---------------------------------------------------------------------------------------

  /** Ticks at which process i ran, counted from tick `from`. */
  function Runs(g: Schedule, from: nat, i: nat): nat {
    if |g| <= from then 0
    else Runs(g[..|g|-1], from, i) + if g[|g|-1] == Some(i) then 1 else 0
  }

  function LastBoost(boosts: seq<nat>): nat {
    if boosts == [] then 0 else boosts[|boosts|-1]
  }

  /** Level and allotment of a queued process: 4 ticks at Q0, 8 at Q1, then rounds of 16 at Q2. */
  function WaitingRank(n: nat): (nat, nat) {
    if n < 4 then (0, n) else if n < 12 then (1, n - 4) else (2, (n - 12) % 16)
  }

  /** The same for the running process, which is moved on only at its next tick. */
  function RunningRank(n: nat): (nat, nat)
    requires n >= 1
  {
    if n <= 4 then (0, n) else if n <= 12 then (1, n - 4) else (2, (n - 13) % 16 + 1)
  }

  lemma RankMoves(n: nat)
    ensures n >= 1 ==>
              var (l, u) := RunningRank(n);
              l < 3 && WaitingRank(n) == if u >= Allotment(l) then (if l < 2 then l + 1 else l, 0) else (l, u)
    ensures RunningRank(n + 1) == (WaitingRank(n).0, WaitingRank(n).1 + 1)
  {
    if n >= 13 {
      NextInRound(n - 13);
    }
  }

  lemma NextInRound(k: nat)
    ensures (k + 1) % 16 == if k % 16 == 15 then 0 else k % 16 + 1
  {
  }

  /** Between ticks; after the boost and the arrivals; after expiry. */
  datatype Moment = Settled | Entering | Ripe

  ghost predicate Rated(p: Process, n: nat, at: Moment) {
    match p.status
    case New => n == 0
    case Ready => (p.level, p.used) == WaitingRank(n)
    case Running =>
      (match at
       case Settled => n >= 1 && (p.level, p.used) == RunningRank(n)
       case Entering => (p.level, p.used) == if n == 0 then (0, 0) else RunningRank(n)
       case Ripe => (p.level, p.used) == WaitingRank(n))
    case Terminated => true
  }

  /** Every entry of the queue names a process of that level. */
  ghost predicate AtLevel(q: seq<nat>, procs: seq<Process>, level: nat) {
    forall j :: 0 <= j < |q| ==> q[j] < |procs| && procs[q[j]].level == level
  }

  ghost predicate ByLevel(m: MlfqState)
    requires |m.queues| == 3
  {
    AtLevel(m.queues[0], m.procs, 0) && AtLevel(m.queues[1], m.procs, 1) && AtLevel(m.queues[2], m.procs, 2)
  }

  ghost predicate RatedAt(m: MlfqState, i: nat, at: Moment)
    requires i < |m.procs|
  {
    Rated(m.procs[i], Runs(m.gantt, LastBoost(m.boosts), i), at)
  }

  ghost predicate Law(m: MlfqState, at: Moment) {
    && Shaped(m) && Placed(Base(m)) && ByLevel(m)
    && forall i: nat :: i < |m.procs| ==> RatedAt(m, i, at)
  }

  lemma InSomeQueue(q: seq<seq<nat>>, i: nat)
    requires |q| == 3
    ensures i in Flat(q) <==> i in q[0] || i in q[1] || i in q[2]
  {
  }

  lemma BoostedRated(m: MlfqState, now: nat, i: nat)
    requires Shaped(m) && Placed(Base(m)) && |m.gantt| == now && i < |m.procs| && RatedAt(m, i, Settled)
    ensures RatedAt(Boosted(m, now), i, Entering)
    ensures m.sinceBoost + 1 >= m.period && i in Flat(m.queues) ==> Boosted(m, now).procs[i].level == 0
  {
    ResetAt(m.procs, Flat(m.queues), i);
    ResetAt(Reset(m.procs, Flat(m.queues)), Held(m.running), i);
  }

  lemma BoostedByLevel(m: MlfqState, now: nat)
    requires Law(m, Settled) && |m.gantt| == now
    ensures ByLevel(Boosted(m, now))
  {
    if m.sinceBoost + 1 >= m.period {
      var all := Flat(m.queues);
      forall j | 0 <= j < |all| ensures all[j] < |m.procs| && Boosted(m, now).procs[all[j]].level == 0 {
        assert RatedAt(m, all[j], Settled);
        BoostedRated(m, now, all[j]);
      }
    }
  }

  lemma BoostedLaw(m: MlfqState, now: nat)
    requires Law(m, Settled) && |m.gantt| == now
    ensures Law(Boosted(m, now), Entering)
  {
    var b := Boosted(m, now);
    PreparedShaped(m, now);
    BoostedSimilar(m, now);
    SimilarPlaced(Base(m), Base(b));
    BoostedByLevel(m, now);
    forall i: nat | i < |m.procs| ensures RatedAt(b, i, Entering) {
      BoostedRated(m, now, i);
    }
  }

  lemma EnteredRated(m: MlfqState, now: nat, i: nat)
    requires Shaped(m) && Placed(Base(m)) && i < |m.procs| && RatedAt(m, i, Entering)
    ensures RatedAt(Entered(m, now), i, Entering)
    ensures Entered(m, now).procs[i].level == if Arrives(m.procs[i], now) then 0 else m.procs[i].level
  {
    var arr := Arrivals(m.procs, now, |m.procs|);
    ArrivalsAre(m.procs, now, |m.procs|);
    ResetAt(Admitted(m.procs, now), arr, i);
    AgedLevel(Reset(Admitted(m.procs, now), arr), Flat(Entered(m, now).queues), i);
  }

  lemma EnteredByLevel(m: MlfqState, now: nat)
    requires Law(m, Entering)
    ensures ByLevel(Entered(m, now))
  {
    var e := Entered(m, now);
    var arr := Arrivals(m.procs, now, |m.procs|);
    ArrivalsAre(m.procs, now, |m.procs|);
    forall i: nat | i < |m.procs| ensures e.procs[i].level == if i in arr then 0 else m.procs[i].level {
      EnteredRated(m, now, i);
    }
    forall i: nat | i in Flat(m.queues) ensures i !in arr {
      assert m.procs[i].status == Ready;
    }
    StillAtLevel(m, e.procs, arr);
    assert e.queues[0] == m.queues[0] + arr;
  }

  /** Records outside the queues may change without disturbing any queue. */
  lemma StillAtLevel(m: MlfqState, procs: seq<Process>, changed: seq<nat>)
    requires Shaped(m) && ByLevel(m) && |procs| == |m.procs|
    requires forall i: nat :: i < |procs| && i !in changed ==> procs[i].level == m.procs[i].level
    requires forall i: nat :: i in Flat(m.queues) ==> i !in changed
    ensures ByLevel(m.(procs := procs))
  {
    forall k | 0 <= k < 3 ensures AtLevel(m.queues[k], procs, k) {
      forall j | 0 <= j < |m.queues[k]| ensures m.queues[k][j] < |procs| && procs[m.queues[k][j]].level == k {
        InSomeQueue(m.queues, m.queues[k][j]);
      }
    }
  }

  lemma EnteredLaw(m: MlfqState, now: nat)
    requires Law(m, Entering) && Shaped(Entered(m, now))
    ensures Law(Entered(m, now), Entering)
  {
    var e := Entered(m, now);
    EnteredSimilar(m, now);
    PreparedPlaced(Base(m), now);
    SimilarPlaced(Prepared(Base(m), now), Base(e));
    EnteredByLevel(m, now);
    forall i: nat | i < |m.procs| ensures RatedAt(e, i, Entering) {
      EnteredRated(m, now, i);
    }
  }

  lemma RequeuedByLevel(m: MlfqState, p: Process)
    requires Shaped(m) && Placed(Base(m)) && ByLevel(m) && m.running.Some? && p.level < 3
    ensures ByLevel(Requeued(m, p))
  {
    var r := m.running.value;
    var x := Requeued(m, p);
    assert m.procs[r].status == Running && r !in Flat(m.queues);
    StillAtLevel(m, x.procs, [r]);
  }

  lemma RequeuedLaw(m: MlfqState, p: Process)
    requires Law(m, Entering) && m.running.Some? && p.level < 3 && SameBut(m.procs[m.running.value], p)
    requires (p.level, p.used) == WaitingRank(Runs(m.gantt, LastBoost(m.boosts), m.running.value))
    ensures Law(Requeued(m, p), Ripe)
  {
    var x := Requeued(m, p);
    RequeuedSimilar(m, p);
    PreemptedPlaced(Base(m));
    SimilarPlaced(Preempted(Base(m)), Base(x));
    RequeuedByLevel(m, p);
    forall i: nat | i < |m.procs| ensures RatedAt(x, i, Ripe) {
      assert RatedAt(m, i, Entering);
    }
  }

  lemma ExpiredLaw(m: MlfqState)
    requires Law(m, Entering)
    ensures Law(Expired(m), Ripe)
  {
    if m.running.Some? {
      var p := m.procs[m.running.value];
      assert p.status == Running && RatedAt(m, m.running.value, Entering);
      RankMoves(Runs(m.gantt, LastBoost(m.boosts), m.running.value));
      if p.used >= Allotment(p.level) {
        RequeuedLaw(m, p.(level := if p.level < 2 then p.level + 1 else p.level, used := 0));
      } else if m.slice >= Quantum(p.level) {
        RequeuedLaw(m, p);
      } else {
        KeepsRunning(m);
      }
    } else {
      KeepsRunning(m);
    }
  }

  lemma KeepsRunning(m: MlfqState)
    requires Law(m, Entering) && (m.running.Some? ==> RatedAt(m, m.running.value, Ripe))
    ensures Law(m, Ripe)
  {
    forall i: nat | i < |m.procs| ensures RatedAt(m, i, Ripe) {
      assert RatedAt(m, i, Entering);
    }
  }

  lemma ChosenByLevel(m: MlfqState, now: nat)
    requires Shaped(m) && ByLevel(m) && m.running.None? && Flat(m.queues) != []
    ensures ByLevel(Chosen(m, now))
  {
  }

  lemma ChosenLaw(m: MlfqState, now: nat)
    requires Law(m, Ripe)
    ensures Law(Chosen(m, now), Ripe)
  {
    if m.running.None? && Flat(m.queues) != [] {
      var c := Chosen(m, now);
      ChosenIsDispatched(m, now);
      DispatchedPlaced(Base(m), now);
      ChosenByLevel(m, now);
      assert Flat(m.queues)[0] in Flat(m.queues);
      forall i: nat | i < |m.procs| ensures RatedAt(c, i, Ripe) {
        assert RatedAt(m, i, Ripe);
      }
    }
  }

  lemma RunsGrow(g: Schedule, x: Option<nat>, from: nat, i: nat)
    requires from <= |g|
    ensures Runs(g + [x], from, i) == Runs(g, from, i) + if x == Some(i) then 1 else 0
  {
    assert (g + [x])[..|g|] == g;
  }

  lemma UsedRated(m: MlfqState, now: nat, i: nat)
    requires Shaped(m) && Placed(Base(m)) && i < |m.procs| && RatedAt(m, i, Ripe) && LastBoost(m.boosts) <= |m.gantt|
    ensures RatedAt(Used(m, now), i, Settled)
  {
    RunsGrow(m.gantt, m.running, LastBoost(m.boosts), i);
    RankMoves(Runs(m.gantt, LastBoost(m.boosts), i));
  }

  lemma UsedLaw(m: MlfqState, now: nat)
    requires Law(m, Ripe) && LastBoost(m.boosts) <= |m.gantt|
    ensures Law(Used(m, now), Settled)
  {
    var u := Used(m, now);
    UsedSimilar(m, now);
    ExecutedPlaced(Base(m), now);
    SimilarPlaced(Executed(Base(m), now), Base(u));
    StillAtLevel(m, u.procs, []);
    forall i: nat | i < |m.procs| ensures RatedAt(u, i, Settled) {
      UsedRated(m, now, i);
    }
  }

  lemma TickLaw(m: MlfqState, now: nat)
    requires Law(m, Settled) && |m.gantt| == now && LastBoost(m.boosts) <= now
    ensures Law(MlfqTick(m, now), Settled)
  {
    hide Entered, Expired, Chosen, Used;
    PreparedShaped(m, now);
    var b := Boosted(m, now);
    BoostedLaw(m, now);
    EnteredLaw(b, now);
    ExpiredLaw(Entered(b, now));
    var x := Expired(Entered(b, now));
    ChosenLaw(x, now);
    UsedLaw(Chosen(x, now), now);
  }

  lemma {:induction false} LastBoostPast(n: nat, period: nat)
    requires period >= 1
    ensures LastBoost(BoostTicks(n, period)) <= n
  {
    if n != 0 { LastBoostPast(n - 1, period); }
  }

  lemma StartLaw(procs: seq<Process>, period: int)
    requires FreshProcs(procs)
    ensures Law(InitialMlfq(procs, period), Settled)
  {
    var m := InitialMlfq(procs, period);
    assert Base(m) == InitialCore(procs);
    forall i: nat | i < |procs| ensures RatedAt(m, i, Settled) {
      assert m.procs[i].status == New;
    }
  }

  /** After every tick, the level and allotment of each process in the system are a function of
      the ticks it ran since the last boost, and it waits in the queue of its level. */
  lemma {:induction false} HistoryLaw(procs: seq<Process>, period: int, n: nat)
    requires FreshProcs(procs)
    ensures Law(MlfqRun(procs, period, n), Settled)
  {
    if n == 0 {
      StartLaw(procs, period);
    } else {
      HistoryLaw(procs, period, n - 1);
      var m := MlfqRun(procs, period, n - 1);
      BoostsOnSchedule(procs, period, n - 1);
      LastBoostPast(n - 1, m.period);
      TickLaw(m, n - 1);
    }
  }
}
