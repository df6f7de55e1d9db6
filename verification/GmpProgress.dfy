/** Every step brings the goroutines closer to completion, and idle processors mean empty queues. */
module GmpProgress {
  import opened Collections
  import opened Gmp
  import opened GmpPlacement
  import opened GmpSteps

  // ---------------------------------------------------------------------------------------
  // The measure
  // ---------------------------------------------------------------------------------------

  function Units(work: int): nat {
    if work >= 1 then work else 1
  }

  /** Steps a goroutine can still be part of: its work, one dispatch, and four for a system call. */
  function Weight(g: Goroutine): nat {
    match g.status
    case Runnable => Units(g.work) + 1 + if g.isSyscall then 4 else 0
    case Running => Units(g.work) + if g.isSyscall then 4 else 0
    case InSyscall => Units(g.work) + 1 + if g.syscallTicks <= 3 then 3 - g.syscallTicks else 0
    case Dead => 0
  }

  function Total(gs: seq<Goroutine>): nat {
    if gs == [] then 0 else Total(gs[..|gs|-1]) + Weight(gs[|gs|-1])
  }

  lemma {:induction false} TotalUpdate(gs: seq<Goroutine>, i: nat, g: Goroutine)
    requires i < |gs|
    ensures Total(gs[i := g]) == Total(gs) - Weight(gs[i]) + Weight(g)
  {
    var n := |gs| - 1;
    if i == n {
      assert gs[i := g][..n] == gs[..n];
    } else {
      assert gs[i := g][..n] == gs[..n][i := g];
      TotalUpdate(gs[..n], i, g);
    }
  }

  lemma {:induction false} TotalZero(gs: seq<Goroutine>)
    ensures Total(gs) == 0 <==> forall g :: 0 <= g < |gs| ==> gs[g].status == Dead
  {
    if gs != [] {
      var n := |gs| - 1;
      TotalZero(gs[..n]);
      assert Weight(gs[n]) == 0 <==> gs[n].status == Dead;
      if Total(gs) == 0 {
        forall g | 0 <= g < |gs| ensures gs[g].status == Dead {
          if g < n { assert gs[..n][g] == gs[g]; }
        }
      }
    }
  }

  ghost predicate SomeBlocked(rt: Runtime) {
    exists m :: 0 <= m < |rt.ms| && rt.ms[m].blocked
  }

  // ---------------------------------------------------------------------------------------
  // Serving one processor
  // ---------------------------------------------------------------------------------------

  lemma HandedOffWeight(rt: Runtime, p: nat)
    requires Linked(rt) && p < |rt.ps| && HandsOff(rt, p)
    ensures Total(HandedOff(rt, p).gs) == Total(rt.gs) && SomeBlocked(HandedOff(rt, p))
  {
    var c := Current(rt, p).value;
    TotalUpdate(rt.gs, c, rt.gs[c].(status := InSyscall));
    assert HandedOff(rt, p).ms[rt.ps[p].thread].blocked;
  }

  lemma WorkedWeight(rt: Runtime, p: nat)
    requires Linked(rt) && p < |rt.ps| && ThreadFine(rt, rt.ps[p].thread) && ProcessorFine(rt, p) && !HandsOff(rt, p)
    ensures Current(rt, p).None? ==> Worked(rt, p) == rt
    ensures Current(rt, p).Some? ==> Total(Worked(rt, p).gs) < Total(rt.gs)
    ensures SomeBlocked(rt) ==> SomeBlocked(Worked(rt, p))
  {
    var w := Worked(rt, p);
    if Current(rt, p).Some? {
      var c := Current(rt, p).value;
      TotalUpdate(rt.gs, c, w.gs[c]);
    }
    if SomeBlocked(rt) {
      var m :| 0 <= m < |rt.ms| && rt.ms[m].blocked;
      assert w.ms[m].blocked;
    }
  }

  lemma FilledWeight(rt: Runtime, p: nat, start: nat)
    requires Valid(rt) && p < |rt.ps| && start < |rt.ps|
    ensures Total(Filled(rt, p, start).gs) <= Total(rt.gs)
    ensures Current(rt, p).None? && Found(rt, p, start).found.Some? ==> Total(Filled(rt, p, start).gs) < Total(rt.gs)
    ensures SomeBlocked(rt) ==> SomeBlocked(Filled(rt, p, start))
  {
    var f := Filled(rt, p, start);
    FilledPlacesNone(rt, p, start);
    if Current(rt, p).None? && Found(rt, p, start).found.Some? {
      var c := Found(rt, p, start).found.value;
      FoundLinked(rt, p, start);
      FilledPlaces(rt, p, start, c);
      assert GoroutineFine(rt, c);
      TotalUpdate(rt.gs, c, f.gs[c]);
    }
    if SomeBlocked(rt) {
      var m :| 0 <= m < |rt.ms| && rt.ms[m].blocked;
      FilledKeepsBlocked(rt, p, start, m);
    }
  }

  lemma FilledKeepsBlocked(rt: Runtime, p: nat, start: nat, m: nat)
    requires Linked(rt) && p < |rt.ps| && start < |rt.ps| && m < |rt.ms| && rt.ms[m].blocked
    ensures m < |Filled(rt, p, start).ms| && Filled(rt, p, start).ms[m].blocked
  {
    FilledPlacesNone(rt, p, start);
    FoundLinked(rt, p, start);
    FoundBound(rt, p, start);
  }

  /** Nothing moved: the same goroutines in the same places on the same threads. */
  ghost predicate Unmoved(rt: Runtime, s: Runtime) {
    && s.gs == rt.gs && s.ms == rt.ms && |s.ps| == |rt.ps|
    && (forall p: nat :: p < |rt.ps| ==> s.ps[p].thread == rt.ps[p].thread)
    && (forall g: nat :: Waiting(s, g) == Waiting(rt, g))
  }

  ghost predicate NoneWaiting(rt: Runtime) {
    forall g: nat :: Waiting(rt, g) == 0
  }

  lemma ClockedUnmoved(rt: Runtime, p: nat)
    requires Linked(rt) && p < |rt.ps|
    ensures Unmoved(rt, Clocked(rt, p))
  {
    forall g: nat ensures Waiting(Clocked(rt, p), g) == Waiting(rt, g) {
      QueuesUpdate(rt.ps, p, Clocked(rt, p).ps[p], g);
    }
  }

  lemma FilledNothing(rt: Runtime, p: nat, start: nat)
    requires Linked(rt) && p < |rt.ps| && start < |rt.ps| && Current(rt, p).None? && Found(rt, p, start).found.None?
    ensures Filled(rt, p, start) == rt && NoneWaiting(rt)
  {
    forall g: nat ensures Filled(rt, p, start) == rt && Waiting(rt, g) == 0 {
      FilledPlaces(rt, p, start, g);
    }
  }

  /** Serving a processor never adds to the measure.  It lowers it, leaves a thread in a system
      call, or finds nothing to do at all. */
  lemma ServedProgress(rt: Runtime, p: nat, start: nat)
    requires Valid(rt) && p < |rt.ps| && start < |rt.ps|
    ensures Total(Served(rt, p, start).gs) <= Total(rt.gs)
    ensures SomeBlocked(rt) ==> SomeBlocked(Served(rt, p, start))
    ensures || Total(Served(rt, p, start).gs) < Total(rt.gs)
            || SomeBlocked(Served(rt, p, start))
            || (Unmoved(rt, Served(rt, p, start)) && Current(rt, p).None? && NoneWaiting(rt))
  {
    var t := Clocked(rt, p);
    ClockedValid(rt, p);
    ClockedUnmoved(rt, p);
    if HandsOff(t, p) {
      HandedOffWeight(t, p);
    } else {
      assert ThreadFine(t, t.ps[p].thread) && ProcessorFine(t, p);
      WorkedWeight(t, p);
      WorkedValid(t, p);
      WorkedLinked(t, p);
      var w := Worked(t, p);
      FilledWeight(w, p, start);
      if Current(t, p).None? && Found(w, p, start).found.None? {
        FilledNothing(w, p, start);
      }
    }
  }

  // ---------------------------------------------------------------------------------------
  // Serving them all
  // ---------------------------------------------------------------------------------------

  ghost predicate IdleBelow(rt: Runtime, k: nat)
    requires Linked(rt) && k <= |rt.ps|
  {
    (forall p: nat :: p < k ==> Current(rt, p).None?) && (k > 0 ==> NoneWaiting(rt))
  }

  ghost predicate Moves(rt: Runtime, s: Runtime, k: nat)
    requires Linked(rt) && k <= |rt.ps|
  {
    && Total(s.gs) <= Total(rt.gs)
    && (Total(s.gs) < Total(rt.gs) || SomeBlocked(s) || (Unmoved(rt, s) && IdleBelow(rt, k)))
  }

  lemma MovesOn(rt: Runtime, a: Runtime, b: Runtime, k: nat)
    requires Linked(rt) && Linked(a) && k < |rt.ps| && |a.ps| == |rt.ps| && Moves(rt, a, k)
    requires Total(b.gs) <= Total(a.gs) && (SomeBlocked(a) ==> SomeBlocked(b))
    requires || Total(b.gs) < Total(a.gs) || SomeBlocked(b)
             || (Unmoved(a, b) && Current(a, k).None? && NoneWaiting(a))
    ensures Moves(rt, b, k + 1)
  {
    if Total(b.gs) == Total(rt.gs) && !SomeBlocked(b) {
      assert Unmoved(rt, a) && Unmoved(a, b);
      forall g: nat ensures Waiting(rt, g) == 0 && Waiting(b, g) == Waiting(rt, g) {
        assert Waiting(a, g) == Waiting(rt, g);
      }
    }
  }

  lemma MovesServed(rt: Runtime, a: Runtime, k: nat, start: nat)
    requires Linked(rt) && Valid(a) && k < |rt.ps| && |a.ps| == |rt.ps| && start < |a.ps| && Moves(rt, a, k)
    ensures Moves(rt, Served(a, k, start), k + 1)
  {
    ServedProgress(a, k, start);
    MovesOn(rt, a, Served(a, k, start), k);
  }

  lemma ServedAllProgress(rt: Runtime, starts: seq<nat>)
    requires Valid(rt) && |starts| == |rt.ps| && InRange(starts, |rt.ps|)
    ensures Moves(rt, ServedAll(rt, starts, |rt.ps|), |rt.ps|)
  {
    var inv := (s: Runtime, p: nat) => p <= |rt.ps| && Valid(s) && Moves(rt, s, p);
    forall s: Runtime, p: nat, start: nat | Linked(s) && |s.ps| == |rt.ps| && p < |s.ps| && start < |s.ps| && inv(s, p)
      ensures inv(Served(s, p, start), p + 1)
    {
      ServedValid(s, p, start);
      MovesServed(rt, s, p, start);
    }
    assert Advances(inv, |rt.ps|);
    ServedAllKeeps(inv, rt, starts, |rt.ps|);
  }

  // ---------------------------------------------------------------------------------------
  // Waking threads
  // ---------------------------------------------------------------------------------------

  lemma WokenWeight(rt: Runtime, m: nat)
    requires Linked(rt) && m < |rt.ms| && ThreadFine(rt, m)
    ensures Total(Woken(rt, m).gs) == Total(rt.gs) - if rt.ms[m].blocked then 1 else 0
    ensures forall l :: 0 <= l < |rt.ms| && l != m ==> Woken(rt, m).ms[l] == rt.ms[l]
  {
    if rt.ms[m].blocked {
      var c := rt.ms[m].cur.value;
      TotalUpdate(rt.gs, c, Woken(rt, m).gs[c]);
    }
  }

  ghost predicate BlockedBelow(rt: Runtime, k: nat) {
    exists m :: 0 <= m < k && m < |rt.ms| && rt.ms[m].blocked
  }

  /** The first k threads have been woken. */
  ghost predicate Waked(rt: Runtime, s: Runtime, k: nat) {
    && |s.ms| == |rt.ms| && Total(s.gs) <= Total(rt.gs)
    && (forall l :: k <= l < |rt.ms| ==> s.ms[l] == rt.ms[l])
    && (BlockedBelow(rt, k) ==> Total(s.gs) < Total(rt.gs))
  }

  lemma WakedNone(rt: Runtime)
    ensures Waked(rt, rt, 0)
  {
  }

  lemma WakedOn(rt: Runtime, a: Runtime, k: nat)
    requires Linked(a) && k < |rt.ms| && Waked(rt, a, k) && ThreadFine(a, k)
    ensures Waked(rt, Woken(a, k), k + 1)
  {
    WokenWeight(a, k);
  }

  lemma {:induction false} WokenAllWeight(rt: Runtime, k: nat)
    requires Valid(rt) && k <= |rt.ms|
    ensures Waked(rt, WokenAll(rt, k), k)
  {
    hide Waked, Woken, ThreadFine;
    if k == 0 {
      WakedNone(rt);
    } else {
      var a := WokenAll(rt, k - 1);
      WokenAllWeight(rt, k - 1);
      WokenAllValid(rt, k - 1);
      assert ThreadFine(a, k - 1);
      WakedOn(rt, a, k - 1);
    }
  }

  // ---------------------------------------------------------------------------------------
  // Steps
  // ---------------------------------------------------------------------------------------

  lemma {:induction false} HeldSomewhere(ms: seq<Thread>, g: nat) returns (m: nat)
    requires OnThreads(ms, g) > 0
    ensures m < |ms| && ms[m].cur == Some(g)
  {
    var n := |ms| - 1;
    if ms[n].cur == Some(g) {
      m := n;
    } else {
      m := HeldSomewhere(ms[..n], g);
    }
  }

  lemma HeldIsCurrent(rt: Runtime, m: nat, g: nat)
    requires Linked(rt) && m < |rt.ms| && ThreadFine(rt, m) && rt.ms[m].cur == Some(g) && !rt.ms[m].blocked
    ensures exists p: nat :: p < |rt.ps| && Current(rt, p) == Some(g)
  {
    assert Current(rt, rt.ms[m].bound.value) == Some(g);
  }

  /** If no processor has anything to do and no thread is blocked, every goroutine is finished. */
  lemma QuietIsDone(rt: Runtime)
    requires Valid(rt) && IdleBelow(rt, |rt.ps|) && !SomeBlocked(rt)
    ensures Total(rt.gs) == 0
  {
    forall g | 0 <= g < |rt.gs| ensures rt.gs[g].status == Dead {
      assert GoroutineFine(rt, g) && Waiting(rt, g) == 0;
      if OnThreads(rt.ms, g) > 0 {
        var m := HeldSomewhere(rt.ms, g);
        HeldIsCurrent(rt, m, g);
      }
    }
    TotalZero(rt.gs);
  }

  /** Every step lowers the measure until it is zero, whatever is stolen from whom. */
  lemma StepProgress(rt: Runtime, starts: seq<nat>)
    requires Valid(rt) && |starts| == |rt.ps| && InRange(starts, |rt.ps|)
    ensures Total(Stepped(rt, starts).gs) < Total(rt.gs) || Total(rt.gs) == Total(Stepped(rt, starts).gs) == 0
  {
    var n := |rt.ps|;
    var s := ServedAll(rt, starts, n);
    ServedAllProgress(rt, starts);
    ServedAllValid(rt, starts, n);
    WokenAllWeight(s, |s.ms|);
    if Total(s.gs) == Total(rt.gs) && !SomeBlocked(s) {
      QuietIsDone(rt);
    }
  }

  function Run(rt: Runtime, picks: seq<seq<nat>>): (rt': Runtime)
    requires Linked(rt) && forall k :: 0 <= k < |picks| ==> |picks[k]| == |rt.ps| && InRange(picks[k], |rt.ps|)
    ensures Linked(rt') && |rt'.gs| == |rt.gs|
    decreases |picks|
  {
    if picks == [] then rt else Run(Stepped(rt, picks[0]), picks[1..])
  }

  /** Once nothing is spawned any more, all goroutines complete within as many steps as the
      measure says, for any choice of steal victims. */
  lemma {:induction false} AllComplete(rt: Runtime, picks: seq<seq<nat>>)
    requires Valid(rt) && forall k :: 0 <= k < |picks| ==> |picks[k]| == |rt.ps| && InRange(picks[k], |rt.ps|)
    requires |picks| >= Total(rt.gs)
    ensures Valid(Run(rt, picks)) && Total(Run(rt, picks).gs) == 0
    decreases |picks|
  {
    if picks != [] {
      var s := Stepped(rt, picks[0]);
      SteppedValid(rt, picks[0]);
      StepProgress(rt, picks[0]);
      AllComplete(s, picks[1..]);
      assert Run(rt, picks) == Run(s, picks[1..]);
    }
  }

  /** The same, in terms of CompletedGs: every goroutine is there exactly once. */
  lemma AllInCompleted(rt: Runtime, picks: seq<seq<nat>>, g: nat)
    requires Valid(rt) && forall k :: 0 <= k < |picks| ==> |picks[k]| == |rt.ps| && InRange(picks[k], |rt.ps|)
    requires |picks| >= Total(rt.gs) && g < |rt.gs|
    ensures Count(Run(rt, picks).completed, g) == 1
  {
    var s := Run(rt, picks);
    AllComplete(rt, picks);
    TotalZero(s.gs);
    assert GoroutineFine(s, g) && s.gs[g].status == Dead;
    if OnThreads(s.ms, g) > 0 {
      var m := HeldSomewhere(s.ms, g);
      DeadIsNotHeld(s, m, g);
    }
  }

  lemma DeadIsNotHeld(s: Runtime, m: nat, g: nat)
    requires Linked(s) && m < |s.ms| && ThreadFine(s, m) && g < |s.gs| && s.gs[g].status == Dead
    ensures s.ms[m].cur != Some(g)
  {
  }

  /** What the measure is for goroutines that have just been spawned. */
  lemma SpawnWeight(rt: Runtime, work: int, isSyscall: bool)
    requires Linked(rt)
    ensures Total(Spawned(rt, work, isSyscall).gs) == Total(rt.gs) + Units(work) + 1 + if isSyscall then 4 else 0
  {
    var gs := Spawned(rt, work, isSyscall).gs;
    assert gs[..|gs|-1] == rt.gs;
  }

  /** What a run has asked for: the work of each spawn, one dispatch, and four for a system call. */
  function Demand(ops: seq<Op>): nat {
    if ops == [] then 0
    else
      Demand(ops[..|ops| - 1]) +
      match ops[|ops| - 1]
      case Spawn(work, isSyscall) => Units(work) + 1 + if isSyscall then 4 else 0
      case Step(_) => 0
  }

  function Spawns(ops: seq<Op>): nat {
    if ops == [] then 0 else Spawns(ops[..|ops| - 1]) + if ops[|ops| - 1].Spawn? then 1 else 0
  }

  lemma {:induction false} DemandBounds(gomaxprocs: int, ops: seq<Op>)
    requires ProperOps(ops, if gomaxprocs <= 0 then 2 else gomaxprocs)
    ensures Total(After(gomaxprocs, ops).gs) <= Demand(ops)
    ensures |After(gomaxprocs, ops).gs| == Spawns(ops)
  {
    if ops != [] {
      var n := |ops| - 1;
      var a := After(gomaxprocs, ops[..n]);
      DemandBounds(gomaxprocs, ops[..n]);
      match ops[n]
      case Spawn(work, isSyscall) =>
        SpawnWeight(a, work, isSyscall);
      case Step(starts) =>
        ReachableValid(gomaxprocs, ops[..n]);
        StepProgress(a, starts);
    }
  }

  /** After any run of spawns and steps, as many further steps as the run has asked for put every
      goroutine it spawned into CompletedGs, exactly once, for any choice of steal victims. */
  lemma EverythingCompletes(gomaxprocs: int, ops: seq<Op>, picks: seq<seq<nat>>, g: nat)
    requires var n := if gomaxprocs <= 0 then 2 else gomaxprocs;
             && ProperOps(ops, n)
             && forall k :: 0 <= k < |picks| ==> |picks[k]| == n && InRange(picks[k], n)
    requires |picks| >= Demand(ops) && g < Spawns(ops)
    ensures Count(Run(After(gomaxprocs, ops), picks).completed, g) == 1
  {
    ReachableValid(gomaxprocs, ops);
    DemandBounds(gomaxprocs, ops);
    AllInCompleted(After(gomaxprocs, ops), picks, g);
  }
}
