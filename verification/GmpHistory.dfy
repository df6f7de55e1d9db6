/** What a goroutine has been through decides where it is: work done, ticks in the kernel, completion. */
module GmpHistory {
  import opened Collections
  import opened Gmp
  import opened GmpPlacement
  import opened GmpSteps
  import opened GmpProgress
  import opened GmpIdle

  // ---------------------------------------------------------------------------------------
  // One step, seen from one goroutine
  // ---------------------------------------------------------------------------------------

  /** Equal but for the notes on which thread and processor it runs. */
  predicate Like(x: Goroutine, y: Goroutine) {
    y == x.(onM := y.onM, onP := y.onP)
  }

  /** A goroutine given to processor p, with notes of where it runs. */
  function Placed(x: Goroutine, s: Runtime, p: nat): Goroutine {
    x.(status := Running, onP := p, onM := if p < |s.ps| then s.ps[p].thread else 0)
  }

  /** What its processor does with a running goroutine. */
  function Turned(x: Goroutine): Goroutine {
    if x.isSyscall then x.(status := InSyscall)
    else x.(work := x.work - 1, status := if x.work - 1 <= 0 then Dead else Running)
  }

  /** What the end of a step does with a goroutine in a system call. */
  function Waked(x: Goroutine): Goroutine {
    if x.syscallTicks + 1 >= 3
    then x.(syscallTicks := x.syscallTicks + 1, status := Runnable, isSyscall := false)
    else x.(syscallTicks := x.syscallTicks + 1)
  }

  predicate IsCurrent(s: Runtime, p: nat, g: nat) {
    Linked(s) && p < |s.ps| && Current(s, p) == Some(g)
  }

  lemma {:induction false} CurrentRuns(s: Runtime, p: nat, g: nat)
    requires Valid(s) && IsCurrent(s, p, g)
    ensures g < |s.gs| && s.gs[g].status == Running && (s.gs[g].isSyscall ==> s.gs[g].syscallTicks == 0)
    ensures HandsOff(s, p) <==> s.gs[g].isSyscall
    ensures s.ms[s.ps[p].thread].bound == Some(p) && !s.ms[s.ps[p].thread].blocked
  {
    assert ProcessorFine(s, p) && ThreadFine(s, s.ps[p].thread);
  }

  lemma {:induction false} CurrentOnce(s: Runtime, p: nat, q: nat, g: nat)
    requires Valid(s) && IsCurrent(s, p, g) && q < |s.ps| && q != p
    ensures !IsCurrent(s, q, g)
  {
    ThreadsApart(s, p, q);
    assert GoroutineFine(s, g);
    HeldOnce(s, s.ps[p].thread, s.ps[q].thread, g);
  }

  /** The search finds a waiting goroutine, and assigning it changes nobody else. */
  lemma {:induction false} FilledRecord(s: Runtime, p: nat, start: nat, g: nat)
    requires Linked(s) && p < |s.ps| && start < |s.ps| && g < |s.gs| && GoroutineFine(s, g)
    ensures var f := Filled(s, p, start);
            && Linked(f) && |f.ps| == |s.ps| && |f.gs| == |s.gs|
            && (Current(s, p).Some? ==> f == s)
            && (f.gs[g] == s.gs[g] ||
                (s.gs[g].status == Runnable && f.gs[g] == Placed(s.gs[g], f, p) && IsCurrent(f, p, g)))
  {
    FilledLinked(s, p, start);
    FoundLinked(s, p, start);
    FilledPlacesNone(s, p, start);
    if Current(s, p).None? {
      FilledPlaces(s, p, start, g);
      FoundBound(s, p, start);
    }
  }

  lemma {:induction false} WorkedRecord(t: Runtime, p: nat, g: nat)
    requires Valid(t) && p < |t.ps| && g < |t.gs| && !HandsOff(t, p)
    ensures var w := Worked(t, p);
            && |w.gs| == |t.gs|
            && (IsCurrent(t, p, g) ==> w.gs[g] == Turned(t.gs[g]) && (w.gs[g].status == Running ==> IsCurrent(w, p, g)))
            && (!IsCurrent(t, p, g) ==> w.gs[g] == t.gs[g])
  {
    WorkedLinked(t, p);
    if Current(t, p).Some? {
      CurrentRuns(t, p, Current(t, p).value);
    }
  }

  lemma {:induction false} HandedOffRecord(t: Runtime, p: nat, g: nat)
    requires Valid(t) && p < |t.ps| && g < |t.gs| && HandsOff(t, p)
    ensures HandedOff(t, p).gs[g] == if IsCurrent(t, p, g) then Turned(t.gs[g]) else t.gs[g]
  {
    CurrentRuns(t, p, Current(t, p).value);
  }

  /** One processor's turn, seen from g. */
  lemma {:induction false} ServedRecord(s: Runtime, p: nat, start: nat, g: nat)
    requires Valid(s) && p < |s.ps| && start < |s.ps| && g < |s.gs|
    ensures var x, y := s.gs[g], Served(s, p, start).gs[g];
            if IsCurrent(s, p, g) then y == Turned(x) && (y.status == Running ==> IsCurrent(Served(s, p, start), p, g))
            else
              || y == x
              || (x.status == Runnable && y == Placed(x, Served(s, p, start), p) && IsCurrent(Served(s, p, start), p, g))
  {
    hide HandedOff, Worked, Filled, HandsOff, Valid;
    ValidRecord(s, g);
    var t := Clocked(s, p);
    ClockedValid(s, p);
    if HandsOff(t, p) {
      HandedOffRecord(t, p, g);
      if IsCurrent(s, p, g) {
        CurrentRuns(t, p, g);
      }
    } else {
      WorkedValid(t, p);
      WorkedLinked(t, p);
      WorkedRecord(t, p, g);
      ValidRecord(Worked(t, p), g);
      FilledRecord(Worked(t, p), p, start, g);
    }
  }

  lemma {:induction false} ValidRecord(s: Runtime, g: nat)
    requires Valid(s)
    ensures Linked(s) && GoroutineFine(s, g)
  {
  }

  // ---- All processors ----

  /** Not yet dealt with: its processor, if it runs, is still to come. */
  ghost predicate Untouched(x: Goroutine, s: Runtime, g: nat, k: nat) {
    && g < |s.gs| && s.gs[g] == x
    && (x.status == Running ==> exists r :: k <= r < |s.ps| && IsCurrent(s, r, g))
  }

  /** Dealt with: it has had its turn, or has been given a processor. */
  ghost predicate Dealt(x: Goroutine, s: Runtime, g: nat, k: nat) {
    && g < |s.gs|
    && (if x.status == Running then s.gs[g] == Turned(x)
        else x.status == Runnable && Like(x.(status := Running), s.gs[g]))
    && (s.gs[g].status == Running ==> exists r :: 0 <= r < k && r < |s.ps| && IsCurrent(s, r, g))
  }

  lemma {:induction false} UntouchedOn(x: Goroutine, s: Runtime, g: nat, p: nat, start: nat)
    requires Valid(s) && p < |s.ps| && start < |s.ps| && Untouched(x, s, g, p)
    ensures var s' := Served(s, p, start); Untouched(x, s', g, p + 1) || Dealt(x, s', g, p + 1)
  {
    var s' := Served(s, p, start);
    ServedRecord(s, p, start, g);
    if IsCurrent(s, p, g) {
      CurrentRuns(s, p, g);
    } else if s'.gs[g] == x && x.status == Running {
      var r :| p <= r < |s.ps| && IsCurrent(s, r, g);
      assert r != p;
      ServedElsewhere(s, p, start, r);
      assert IsCurrent(s', r, g);
    }
  }

  lemma {:induction false} DealtOn(x: Goroutine, s: Runtime, g: nat, p: nat, start: nat)
    requires Valid(s) && p < |s.ps| && start < |s.ps| && Dealt(x, s, g, p)
    ensures Dealt(x, Served(s, p, start), g, p + 1)
  {
    var s' := Served(s, p, start);
    ServedRecord(s, p, start, g);
    if IsCurrent(s, p, g) {
      CurrentRuns(s, p, g);
    }
    if s.gs[g].status == Running {
      var r :| 0 <= r < p && r < |s.ps| && IsCurrent(s, r, g);
      CurrentOnce(s, r, p, g);
      ServedElsewhere(s, p, start, r);
      assert IsCurrent(s', r, g);
    }
  }

  lemma {:induction false} ServedAllRecord(rt: Runtime, starts: seq<nat>, g: nat, k: nat)
    requires Valid(rt) && |starts| == |rt.ps| && InRange(starts, |rt.ps|) && g < |rt.gs| && k <= |rt.ps|
    ensures var s := ServedAll(rt, starts, k); Untouched(rt.gs[g], s, g, k) || Dealt(rt.gs[g], s, g, k)
  {
    hide Served, Untouched, Dealt;
    if k == 0 {
      StartsUntouched(rt, g);
    } else {
      ServedAllRecord(rt, starts, g, k - 1);
      ServedAllValid(rt, starts, k - 1);
      var s := ServedAll(rt, starts, k - 1);
      if Untouched(rt.gs[g], s, g, k - 1) {
        UntouchedOn(rt.gs[g], s, g, k - 1, starts[k - 1]);
      } else {
        DealtOn(rt.gs[g], s, g, k - 1, starts[k - 1]);
      }
    }
  }

  lemma {:induction false} StartsUntouched(rt: Runtime, g: nat)
    requires Valid(rt) && g < |rt.gs|
    ensures Untouched(rt.gs[g], rt, g, 0)
  {
    if rt.gs[g].status == Running {
      var m := HolderOf(rt, g);
      assert ThreadFine(rt, m);
      var p := rt.ms[m].bound.value;
      assert IsCurrent(rt, p, g);
    }
  }

  /** A goroutine that runs or is in the kernel is on a thread. */
  lemma {:induction false} HolderOf(rt: Runtime, g: nat) returns (m: nat)
    requires Valid(rt) && g < |rt.gs| && (rt.gs[g].status == Running || rt.gs[g].status == InSyscall)
    ensures m < |rt.ms| && rt.ms[m].cur == Some(g) && (rt.ms[m].blocked <==> rt.gs[g].status == InSyscall)
  {
    assert GoroutineFine(rt, g);
    m := HeldSomewhere(rt.ms, g);
    assert ThreadFine(rt, m);
  }

  // ---- Returning from system calls ----

  lemma {:induction false} WokenRecord(s: Runtime, m: nat, g: nat)
    requires Valid(s) && m < |s.ms| && g < |s.gs|
    ensures var w := Woken(s, m);
            && (s.ms[m].cur == Some(g) && s.ms[m].blocked ==> s.gs[g].status == InSyscall && w.gs[g] == Waked(s.gs[g]))
            && (!(s.ms[m].cur == Some(g) && s.ms[m].blocked) ==> w.gs[g] == s.gs[g])
            && (forall l :: 0 <= l < |s.ms| && l != m ==> w.ms[l] == s.ms[l])
            && (w.gs[g].status == InSyscall ==> w.ms[m] == s.ms[m] || s.ms[m].cur != Some(g))
  {
    assert ThreadFine(s, m);
  }

  /** The thread that holds g, if it is in the kernel, is one of those still to come, or has been woken. */
  ghost predicate Asleep(y: Goroutine, s: Runtime, g: nat, k: nat) {
    && g < |s.gs| && s.gs[g] == y
    && (y.status == InSyscall ==> exists h :: k <= h < |s.ms| && s.ms[h].cur == Some(g) && s.ms[h].blocked)
  }

  ghost predicate Roused(y: Goroutine, s: Runtime, g: nat, k: nat) {
    && g < |s.gs| && y.status == InSyscall && s.gs[g] == Waked(y)
    && (s.gs[g].status == InSyscall ==> exists h :: 0 <= h < k && h < |s.ms| && s.ms[h].cur == Some(g))
  }

  lemma {:induction false} AsleepOn(y: Goroutine, s: Runtime, g: nat, m: nat)
    requires Valid(s) && m < |s.ms| && Asleep(y, s, g, m)
    ensures Asleep(y, Woken(s, m), g, m + 1) || Roused(y, Woken(s, m), g, m + 1)
  {
    var w := Woken(s, m);
    WokenRecord(s, m, g);
    if s.ms[m].cur == Some(g) && s.ms[m].blocked {
      assert w.gs[g].status == InSyscall ==> w.ms[m].cur == Some(g);
    } else if y.status == InSyscall {
      var h :| m <= h < |s.ms| && s.ms[h].cur == Some(g) && s.ms[h].blocked;
      assert w.ms[h] == s.ms[h];
    }
  }

  lemma {:induction false} RousedOn(y: Goroutine, s: Runtime, g: nat, m: nat)
    requires Valid(s) && m < |s.ms| && Roused(y, s, g, m)
    ensures Roused(y, Woken(s, m), g, m + 1)
  {
    var w := Woken(s, m);
    WokenRecord(s, m, g);
    assert ThreadFine(s, m);
    if s.gs[g].status == InSyscall {
      var h :| 0 <= h < m && h < |s.ms| && s.ms[h].cur == Some(g);
      assert GoroutineFine(s, g);
      HeldOnce(s, h, m, g);
      assert w.ms[h] == s.ms[h];
    }
  }

  lemma {:induction false} WokenAllRecord(s: Runtime, g: nat, k: nat)
    requires Valid(s) && g < |s.gs| && k <= |s.ms|
    ensures var w := WokenAll(s, k); Asleep(s.gs[g], w, g, k) || Roused(s.gs[g], w, g, k)
  {
    hide Woken, Asleep, Roused;
    if k == 0 {
      StartsAsleep(s, g);
    } else {
      WokenAllRecord(s, g, k - 1);
      WokenAllValid(s, k - 1);
      var w := WokenAll(s, k - 1);
      if Asleep(s.gs[g], w, g, k - 1) {
        AsleepOn(s.gs[g], w, g, k - 1);
      } else {
        RousedOn(s.gs[g], w, g, k - 1);
      }
    }
  }

  lemma {:induction false} StartsAsleep(s: Runtime, g: nat)
    requires Valid(s) && g < |s.gs|
    ensures Asleep(s.gs[g], s, g, 0)
  {
    if s.gs[g].status == InSyscall {
      var m := HolderOf(s, g);
    }
  }

  // ---- The whole step ----

  /** What a step makes of a goroutine. */
  ghost predicate Evolves(x: Goroutine, y: Goroutine) {
    match x.status
    case Running => if x.isSyscall then y == Waked(x.(status := InSyscall)) else y == Turned(x)
    case InSyscall => y == Waked(x)
    case Runnable => Like(x, y) || Like(x.(status := Running), y)
    case Dead => y == x
  }

  lemma {:induction false} StepEvolves(rt: Runtime, starts: seq<nat>, g: nat)
    requires Valid(rt) && |starts| == |rt.ps| && InRange(starts, |rt.ps|) && g < |rt.gs|
    ensures Evolves(rt.gs[g], Stepped(rt, starts).gs[g])
  {
    var s := ServedAll(rt, starts, |rt.ps|);
    ServedAllRecord(rt, starts, g, |rt.ps|);
    ServedAllValid(rt, starts, |rt.ps|);
    WokenAllRecord(s, g, |s.ms|);
  }

  // ---------------------------------------------------------------------------------------
  // Histories
  // ---------------------------------------------------------------------------------------

  /** At the start of a step: g is current on a processor and is not about to enter the kernel. */
  ghost predicate Works(rt: Runtime, g: nat) {
    exists p: nat :: IsCurrent(rt, p, g) && !HandsOff(rt, p)
  }

  /** At the start of a step: g is in the kernel, or about to enter it. */
  ghost predicate InKernel(rt: Runtime, g: nat) {
    || (exists p: nat :: IsCurrent(rt, p, g) && HandsOff(rt, p))
    || (exists m: nat :: m < |rt.ms| && rt.ms[m].blocked && rt.ms[m].cur == Some(g))
  }

  ghost predicate Proper(gomaxprocs: int, ops: seq<Op>) {
    ProperOps(ops, if gomaxprocs <= 0 then 2 else gomaxprocs)
  }

  /** Steps in which g did a unit of work. */
  ghost function WorkSteps(gomaxprocs: int, ops: seq<Op>, g: nat): nat
    requires Proper(gomaxprocs, ops)
  {
    if ops == [] then 0
    else
      var front := ops[..|ops| - 1];
      WorkSteps(gomaxprocs, front, g) +
      if ops[|ops| - 1].Step? && Works(After(gomaxprocs, front), g) then 1 else 0
  }

  /** Steps that g spent in the kernel. */
  ghost function KernelSteps(gomaxprocs: int, ops: seq<Op>, g: nat): nat
    requires Proper(gomaxprocs, ops)
  {
    if ops == [] then 0
    else
      var front := ops[..|ops| - 1];
      KernelSteps(gomaxprocs, front, g) +
      if ops[|ops| - 1].Step? && InKernel(After(gomaxprocs, front), g) then 1 else 0
  }

  /** The spawn that made goroutine g. */
  ghost function SpawnOf(ops: seq<Op>, g: nat): (op: Op)
    requires g < Spawns(ops)
    ensures op.Spawn?
  {
    var n := |ops| - 1;
    if g < Spawns(ops[..n]) then SpawnOf(ops[..n], g) else ops[n]
  }

  lemma {:induction false} WorksIff(rt: Runtime, g: nat)
    requires Valid(rt)
    ensures Works(rt, g) <==> g < |rt.gs| && rt.gs[g].status == Running && !rt.gs[g].isSyscall
    ensures InKernel(rt, g) <==>
            g < |rt.gs| && (rt.gs[g].status == InSyscall || (rt.gs[g].status == Running && rt.gs[g].isSyscall))
  {
    forall p: nat | IsCurrent(rt, p, g)
      ensures g < |rt.gs| && rt.gs[g].status == Running && (HandsOff(rt, p) <==> rt.gs[g].isSyscall)
    {
      CurrentRuns(rt, p, g);
    }
    forall m: nat | m < |rt.ms| && rt.ms[m].blocked && rt.ms[m].cur == Some(g)
      ensures g < |rt.gs| && rt.gs[g].status == InSyscall
    {
      assert ThreadFine(rt, m);
    }
    if g < |rt.gs| && rt.gs[g].status == Running {
      StartsUntouched(rt, g);
      var p :| 0 <= p < |rt.ps| && IsCurrent(rt, p, g);
    } else if g < |rt.gs| && rt.gs[g].status == InSyscall {
      var m := HolderOf(rt, g);
    }
  }

  /** All that the record of g owes to its spawn and its history. */
  ghost predicate Earned(x: Goroutine, op: Op, worked: nat, kernel: nat)
    requires op.Spawn?
  {
    && x.work == op.work - worked && worked <= Units(op.work)
    && (x.status == Dead <==> worked == Units(op.work))
    && x.syscallTicks == kernel && kernel <= (if op.isSyscall then 3 else 0)
    && (x.isSyscall <==> op.isSyscall && kernel < 3)
    && (x.status == InSyscall <==> 1 <= kernel <= 2)
    && (worked > 0 && op.isSyscall ==> kernel == 3)
  }

  lemma {:induction false} EarnedOn(x: Goroutine, y: Goroutine, op: Op, worked: nat, kernel: nat)
    requires op.Spawn? && Earned(x, op, worked, kernel) && Evolves(x, y)
    requires x.status == Running && x.isSyscall ==> x.syscallTicks == 0
    ensures Earned(y, op, worked + (if x.status == Running && !x.isSyscall then 1 else 0),
                   kernel + (if x.status == InSyscall || (x.status == Running && x.isSyscall) then 1 else 0))
  {
  }

  /** After any run of spawns and steps: a goroutine has done one unit of work in each step that found
      it current and not entering the kernel, and is in CompletedGs exactly when those are all its
      units; a system call has cost it three steps, all before its first unit. */
  lemma {:induction false} WorkHistory(gomaxprocs: int, ops: seq<Op>, g: nat)
    requires Proper(gomaxprocs, ops) && g < Spawns(ops)
    ensures var rt := After(gomaxprocs, ops);
            && g < |rt.gs|
            && Earned(rt.gs[g], SpawnOf(ops, g), WorkSteps(gomaxprocs, ops, g), KernelSteps(gomaxprocs, ops, g))
            && (g in rt.completed <==> WorkSteps(gomaxprocs, ops, g) == Units(SpawnOf(ops, g).work))
  {
    EarnedOver(gomaxprocs, ops, g);
    ReachableValid(gomaxprocs, ops);
    DemandBounds(gomaxprocs, ops);
    CompletedIffDead(After(gomaxprocs, ops), g);
  }

  lemma {:induction false} CompletedIffDead(rt: Runtime, g: nat)
    requires Valid(rt) && g < |rt.gs|
    ensures g in rt.completed <==> rt.gs[g].status == Dead
  {
    assert GoroutineFine(rt, g);
    if rt.gs[g].status == Dead && OnThreads(rt.ms, g) > 0 {
      var m := HeldSomewhere(rt.ms, g);
      DeadIsNotHeld(rt, m, g);
    }
  }

  lemma {:induction false} NotYetSpawned(gomaxprocs: int, ops: seq<Op>, g: nat)
    requires Proper(gomaxprocs, ops) && g >= Spawns(ops)
    ensures WorkSteps(gomaxprocs, ops, g) == 0 && KernelSteps(gomaxprocs, ops, g) == 0
  {
    if ops != [] {
      var front := ops[..|ops| - 1];
      NotYetSpawned(gomaxprocs, front, g);
      ReachableValid(gomaxprocs, front);
      DemandBounds(gomaxprocs, front);
      WorksIff(After(gomaxprocs, front), g);
    }
  }

  lemma {:induction false} EarnedOver(gomaxprocs: int, ops: seq<Op>, g: nat)
    requires Proper(gomaxprocs, ops) && g < Spawns(ops)
    ensures var rt := After(gomaxprocs, ops);
            && g < |rt.gs|
            && Earned(rt.gs[g], SpawnOf(ops, g), WorkSteps(gomaxprocs, ops, g), KernelSteps(gomaxprocs, ops, g))
  {
    hide Earned, Works, InKernel, Valid, Evolves, Stepped, Spawned, Linked;
    var n := |ops| - 1;
    var front := ops[..n];
    var a := After(gomaxprocs, front);
    DemandBounds(gomaxprocs, front);
    ReachableValid(gomaxprocs, front);
    if g < Spawns(front) {
      EarnedOver(gomaxprocs, front, g);
      if ops[n].Step? {
        EarnedStep(a, ops[n].starts, g, SpawnOf(front, g), WorkSteps(gomaxprocs, front, g),
                   KernelSteps(gomaxprocs, front, g));
      } else {
        SpawnAppends(a, ops[n]);
      }
    } else {
      NotYetSpawned(gomaxprocs, front, g);
      SpawnAppends(a, ops[n]);
      SpawnEarns(ops[n]);
    }
  }

  lemma {:induction false} SpawnAppends(a: Runtime, op: Op)
    requires Linked(a) && op.Spawn?
    ensures Spawned(a, op.work, op.isSyscall).gs == a.gs + [Goroutine(Runnable, op.work, op.isSyscall, 0, -1, -1)]
  {
  }

  lemma {:induction false} SpawnEarns(op: Op)
    requires op.Spawn?
    ensures Earned(Goroutine(Runnable, op.work, op.isSyscall, 0, -1, -1), op, 0, 0)
  {
  }

  lemma {:induction false} EarnedStep(a: Runtime, starts: seq<nat>, g: nat, op: Op, worked: nat, kernel: nat)
    requires Valid(a) && |starts| == |a.ps| && InRange(starts, |a.ps|) && g < |a.gs|
    requires op.Spawn? && Earned(a.gs[g], op, worked, kernel)
    ensures Earned(Stepped(a, starts).gs[g], op, worked + (if Works(a, g) then 1 else 0),
                   kernel + (if InKernel(a, g) then 1 else 0))
  {
    hide Earned, Works, InKernel, Evolves, Stepped;
    StepEvolves(a, starts, g);
    WorksIff(a, g);
    if a.gs[g].status == Running {
      StartsUntouched(a, g);
      var p :| 0 <= p < |a.ps| && IsCurrent(a, p, g);
      CurrentRuns(a, p, g);
    }
    EarnedOn(a.gs[g], Stepped(a, starts).gs[g], op, worked, kernel);
  }

  // ---------------------------------------------------------------------------------------
  // Which queue goes first
  // ---------------------------------------------------------------------------------------

  /** With work in both queues the local one goes first, except on every 61st tick of the processor;
      with work in one of them its head is found; either way exactly that head leaves its queue. */
  lemma {:induction false} FoundOrder(rt: Runtime, p: nat, start: nat)
    requires Linked(rt) && p < |rt.ps| && start < |rt.ps| && (rt.ps[p].queue != [] || rt.global != [])
    ensures var s := Found(rt, p, start);
            var global := rt.global != [] && (rt.ps[p].queue == [] || rt.ps[p].ticks % 61 == 0);
            && s.found.Some?
            && [s.found.value] + (if global then s.rt.global else s.rt.ps[p].queue) ==
               (if global then rt.global else rt.ps[p].queue)
            && (if global then s.rt.ps == rt.ps else s.rt.global == rt.global)
            && s.rt.gs == rt.gs && s.rt.ms == rt.ms && s.rt.steals == rt.steals
  {
  }

  function Steps(ops: seq<Op>): nat {
    if ops == [] then 0 else Steps(ops[..|ops| - 1]) + if ops[|ops| - 1].Step? then 1 else 0
  }

  lemma {:induction false} ServedTicks(s: Runtime, p: nat, start: nat, q: nat)
    requires Linked(s) && p < |s.ps| && start < |s.ps| && q < |s.ps|
    ensures Served(s, p, start).ps[q].ticks == s.ps[q].ticks + if q == p then 1 else 0
  {
    var t := Clocked(s, p);
    if !HandsOff(t, p) {
      WorkedLinked(t, p);
      FilledTicks(Worked(t, p), p, start, q);
    }
  }

  lemma {:induction false} FilledTicks(s: Runtime, p: nat, start: nat, q: nat)
    requires Linked(s) && p < |s.ps| && start < |s.ps| && q < |s.ps|
    ensures |Filled(s, p, start).ps| == |s.ps| && Filled(s, p, start).ps[q].ticks == s.ps[q].ticks
  {
    FoundLinked(s, p, start);
  }

  lemma {:induction false} ServedAllTicks(rt: Runtime, starts: seq<nat>, q: nat, k: nat)
    requires Linked(rt) && |starts| == |rt.ps| && InRange(starts, |rt.ps|) && q < |rt.ps| && k <= |rt.ps|
    ensures ServedAll(rt, starts, k).ps[q].ticks == rt.ps[q].ticks + if q < k then 1 else 0
  {
    hide Served, Linked;
    if k > 0 {
      ServedAllTicks(rt, starts, q, k - 1);
      ServedTicks(ServedAll(rt, starts, k - 1), k - 1, starts[k - 1], q);
    }
  }

  lemma {:induction false} SteppedTicks(rt: Runtime, starts: seq<nat>, q: nat)
    requires Linked(rt) && |starts| == |rt.ps| && InRange(starts, |rt.ps|) && q < |rt.ps|
    ensures Stepped(rt, starts).ps[q].ticks == rt.ps[q].ticks + 1
  {
    hide ServedAll, WokenAll, Linked;
    ServedAllTicks(rt, starts, q, |rt.ps|);
    var s := ServedAll(rt, starts, |rt.ps|);
    assert WokenAll(s, |s.ms|).ps == s.ps;
  }

  lemma {:induction false} SpawnedTicks(rt: Runtime, work: int, isSyscall: bool, q: nat)
    requires Linked(rt) && q < |rt.ps|
    ensures |Spawned(rt, work, isSyscall).ps| == |rt.ps| && Spawned(rt, work, isSyscall).ps[q].ticks == rt.ps[q].ticks
  {
  }

  /** The tick of every processor is the number of steps, so that the global queue goes first in
      every 61st step. */
  lemma {:induction false} TicksAreSteps(gomaxprocs: int, ops: seq<Op>, q: nat)
    requires Proper(gomaxprocs, ops) && q < |After(gomaxprocs, ops).ps|
    ensures After(gomaxprocs, ops).ps[q].ticks == Steps(ops)
  {
    hide Stepped, Spawned, Linked;
    if ops != [] {
      var n := |ops| - 1;
      TicksAreSteps(gomaxprocs, ops[..n], q);
      var a := After(gomaxprocs, ops[..n]);
      if ops[n].Step? {
        SteppedTicks(a, ops[n].starts, q);
      } else {
        SpawnedTicks(a, ops[n].work, ops[n].isSyscall, q);
      }
    }
  }

  /** Spawned goroutines go to the processors in turn, beginning after the first one, as long as
      there is room. */
  lemma {:induction false} SpawnsInTurn(gomaxprocs: int, ops: seq<Op>, work: int, isSyscall: bool)
    requires Proper(gomaxprocs, ops)
    ensures var a := After(gomaxprocs, ops);
            var b, p := Spawned(a, work, isSyscall), (Spawns(ops) + 1) % |a.ps|;
            if |a.ps[p].queue| < 256 then
              && b.ps[p].queue == a.ps[p].queue + [Spawns(ops)] && b.global == a.global
              && forall q :: 0 <= q < |a.ps| && q != p ==> b.ps[q] == a.ps[q]
            else b.ps == a.ps && b.global == a.global + [Spawns(ops)]
  {
    DemandBounds(gomaxprocs, ops);
  }

  // ---------------------------------------------------------------------------------------
  // Notes and counters
  // ---------------------------------------------------------------------------------------

  /** A running goroutine notes the processor it is current on, and that processor's thread. */
  ghost predicate Posted(s: Runtime, g: nat) {
    g < |s.gs| && s.gs[g].status == Running ==>
      exists r: nat :: IsCurrent(s, r, g) && s.gs[g].onP == r && s.gs[g].onM == s.ps[r].thread
  }

  lemma {:induction false} ServedThread(s: Runtime, p: nat, start: nat)
    requires Linked(s) && p < |s.ps| && start < |s.ps| && !HandsOff(s, p)
    ensures Served(s, p, start).ps[p].thread == s.ps[p].thread
  {
    var t := Clocked(s, p);
    assert HandsOff(t, p) == HandsOff(s, p);
    WorkedLinked(t, p);
    FilledThreadStays(Worked(t, p), p, start);
  }

  lemma {:induction false} FilledThreadStays(s: Runtime, p: nat, start: nat)
    requires Linked(s) && p < |s.ps| && start < |s.ps|
    ensures |Filled(s, p, start).ps| == |s.ps| && Filled(s, p, start).ps[p].thread == s.ps[p].thread
  {
    FoundLinked(s, p, start);
  }

  lemma {:induction false} ServedPosted(s: Runtime, p: nat, start: nat, g: nat)
    requires Valid(s) && p < |s.ps| && start < |s.ps| && g < |s.gs| && Posted(s, g)
    ensures Posted(Served(s, p, start), g)
  {
    hide Served, Linked, Valid;
    ValidRecord(s, g);
    var s' := Served(s, p, start);
    ServedRecord(s, p, start, g);
    if s.gs[g].status == Running {
      var r: nat :| IsCurrent(s, r, g) && s.gs[g].onP == r && s.gs[g].onM == s.ps[r].thread;
      if IsCurrent(s, p, g) {
        if r != p {
          CurrentOnce(s, r, p, g);
        }
        CurrentRuns(s, p, g);
        if s'.gs[g].status == Running {
          ServedThread(s, p, start);
        }
      } else {
        ServedElsewhere(s, p, start, r);
        assert IsCurrent(s', r, g);
      }
    } else if IsCurrent(s, p, g) {
      CurrentRuns(s, p, g);
      assert false;
    } else if s'.gs[g].status == Running {
      assert IsCurrent(s', p, g) && s'.gs[g].onP == p && s'.gs[g].onM == s'.ps[p].thread;
    }
  }

  lemma {:induction false} WokenPosted(s: Runtime, m: nat, g: nat)
    requires Valid(s) && m < |s.ms| && g < |s.gs| && Posted(s, g)
    ensures Posted(Woken(s, m), g)
  {
    var w := Woken(s, m);
    WokenRecord(s, m, g);
    if w.gs[g].status == Running {
      var r: nat :| IsCurrent(s, r, g) && s.gs[g].onP == r && s.gs[g].onM == s.ps[r].thread;
      CurrentRuns(s, r, g);
      assert w.ms[s.ps[r].thread] == s.ms[s.ps[r].thread];
      assert IsCurrent(w, r, g);
    }
  }

  lemma {:induction false} ServedAllPosted(rt: Runtime, starts: seq<nat>, g: nat, k: nat)
    requires Valid(rt) && |starts| == |rt.ps| && InRange(starts, |rt.ps|) && k <= |rt.ps|
    requires g < |rt.gs| && Posted(rt, g)
    ensures Posted(ServedAll(rt, starts, k), g)
  {
    hide Served, Posted, Linked, Valid;
    ValidRecord(rt, g);
    if k > 0 {
      ServedAllPosted(rt, starts, g, k - 1);
      ServedAllValid(rt, starts, k - 1);
      ServedPosted(ServedAll(rt, starts, k - 1), k - 1, starts[k - 1], g);
    }
  }

  lemma {:induction false} WokenAllPosted(s: Runtime, g: nat, k: nat)
    requires Valid(s) && k <= |s.ms| && g < |s.gs| && Posted(s, g)
    ensures Posted(WokenAll(s, k), g)
  {
    hide Woken, Posted, Linked, Valid;
    ValidRecord(s, g);
    if k > 0 {
      WokenAllPosted(s, g, k - 1);
      WokenAllValid(s, k - 1);
      WokenPosted(WokenAll(s, k - 1), k - 1, g);
    }
  }

  lemma {:induction false} SpawnPosted(a: Runtime, work: int, isSyscall: bool, g: nat)
    requires Linked(a) && Posted(a, g)
    ensures Posted(Spawned(a, work, isSyscall), g)
  {
    var b := Spawned(a, work, isSyscall);
    if g < |a.gs| && a.gs[g].status == Running {
      var r: nat :| IsCurrent(a, r, g) && a.gs[g].onP == r && a.gs[g].onM == a.ps[r].thread;
      assert IsCurrent(b, r, g);
    }
  }

  /** In every reachable state a running goroutine notes where it runs. */
  lemma {:induction false} RunsWhereNoted(gomaxprocs: int, ops: seq<Op>, g: nat)
    requires Proper(gomaxprocs, ops)
    ensures Posted(After(gomaxprocs, ops), g)
  {
    hide Posted, Stepped, Spawned, Linked, Valid;
    if ops == [] {
      NobodyPosted(gomaxprocs, g);
    } else {
      var n := |ops| - 1;
      var a := After(gomaxprocs, ops[..n]);
      RunsWhereNoted(gomaxprocs, ops[..n], g);
      ReachableValid(gomaxprocs, ops[..n]);
      if ops[n].Spawn? {
        SpawnPosted(a, ops[n].work, ops[n].isSyscall, g);
      } else {
        SteppedPosted(a, ops[n].starts, g);
      }
    }
  }

  lemma {:induction false} NobodyPosted(gomaxprocs: int, g: nat)
    ensures Posted(InitialRuntime(gomaxprocs), g)
  {
  }

  lemma {:induction false} SteppedPosted(a: Runtime, starts: seq<nat>, g: nat)
    requires Valid(a) && |starts| == |a.ps| && InRange(starts, |a.ps|) && Posted(a, g)
    ensures Posted(Stepped(a, starts), g)
  {
    if g < |a.gs| {
      hide Posted, ServedAll, WokenAll;
      var s := ServedAll(a, starts, |a.ps|);
      ServedAllPosted(a, starts, g, |a.ps|);
      ServedAllValid(a, starts, |a.ps|);
      WokenAllPosted(s, g, |s.ms|);
    }
  }

  // ---- Handoffs and completions ----

  ghost function HandoffsBelow(rt: Runtime, k: nat): nat
    requires Linked(rt) && k <= |rt.ps|
  {
    if k == 0 then 0 else HandoffsBelow(rt, k - 1) + if HandsOff(rt, k - 1) then 1 else 0
  }

  lemma {:induction false} ServedCounts(s: Runtime, p: nat, start: nat)
    requires Linked(s) && p < |s.ps| && start < |s.ps|
    ensures Served(s, p, start).handoffs == s.handoffs + if HandsOff(s, p) then 1 else 0
    ensures s.completed <= Served(s, p, start).completed
  {
    var t := Clocked(s, p);
    assert HandsOff(t, p) == HandsOff(s, p);
    if !HandsOff(t, p) {
      WorkedLinked(t, p);
      FilledCounts(Worked(t, p), p, start);
    }
  }

  lemma {:induction false} FilledCounts(s: Runtime, p: nat, start: nat)
    requires Linked(s) && p < |s.ps| && start < |s.ps|
    ensures Filled(s, p, start).handoffs == s.handoffs && Filled(s, p, start).completed == s.completed
  {
    FoundLinked(s, p, start);
  }

  /** A processor still to be served has the goroutine it had at the start of the step. */
  lemma {:induction false} StillCurrent(rt: Runtime, starts: seq<nat>, k: nat, q: nat)
    requires Valid(rt) && |starts| == |rt.ps| && InRange(starts, |rt.ps|) && k <= q < |rt.ps|
    ensures Current(ServedAll(rt, starts, k), q) == Current(rt, q)
  {
    hide Served;
    if k > 0 {
      StillCurrent(rt, starts, k - 1, q);
      ServedAllValid(rt, starts, k - 1);
      ServedElsewhere(ServedAll(rt, starts, k - 1), k - 1, starts[k - 1], q);
    }
  }

  lemma {:induction false} HandsOffStill(rt: Runtime, starts: seq<nat>, k: nat)
    requires Valid(rt) && |starts| == |rt.ps| && InRange(starts, |rt.ps|) && k < |rt.ps|
    ensures HandsOff(ServedAll(rt, starts, k), k) == HandsOff(rt, k)
  {
    hide Served;
    var s := ServedAll(rt, starts, k);
    StillCurrent(rt, starts, k, k);
    ServedAllValid(rt, starts, k);
    if Current(rt, k).Some? {
      var g := Current(rt, k).value;
      ServedAllRecord(rt, starts, g, k);
      CurrentRuns(rt, k, g);
      CurrentRuns(s, k, g);
      if Dealt(rt.gs[g], s, g, k) {
        var r :| 0 <= r < k && r < |s.ps| && IsCurrent(s, r, g);
        CurrentOnce(s, r, k, g);
        assert false;
      }
    }
  }

  lemma {:induction false} ServedAllCounts(rt: Runtime, starts: seq<nat>, k: nat)
    requires Valid(rt) && |starts| == |rt.ps| && InRange(starts, |rt.ps|) && k <= |rt.ps|
    ensures ServedAll(rt, starts, k).handoffs == rt.handoffs + HandoffsBelow(rt, k)
    ensures rt.completed <= ServedAll(rt, starts, k).completed
  {
    hide Served, HandsOff;
    if k > 0 {
      ServedAllCounts(rt, starts, k - 1);
      HandsOffStill(rt, starts, k - 1);
      ServedCounts(ServedAll(rt, starts, k - 1), k - 1, starts[k - 1]);
    }
  }

  lemma {:induction false} WokenAllCounts(s: Runtime, k: nat)
    requires Linked(s) && k <= |s.ms|
    ensures WokenAll(s, k).handoffs == s.handoffs && WokenAll(s, k).completed == s.completed
  {
    if k > 0 {
      WokenAllCounts(s, k - 1);
    }
  }

  /** A step counts one handoff for each processor whose goroutine enters the kernel, and appends the
      goroutines it completes to those completed before. */
  lemma {:induction false} StepCounts(rt: Runtime, starts: seq<nat>)
    requires Valid(rt) && |starts| == |rt.ps| && InRange(starts, |rt.ps|)
    ensures Stepped(rt, starts).handoffs == rt.handoffs + HandoffsBelow(rt, |rt.ps|)
    ensures rt.completed <= Stepped(rt, starts).completed
  {
    hide ServedAll, WokenAll;
    var s := ServedAll(rt, starts, |rt.ps|);
    ServedAllCounts(rt, starts, |rt.ps|);
    WokenAllCounts(s, |s.ms|);
  }

  // ---- The global queue ----

  /** b is a without some of its first entries. */
  ghost predicate Shortened(a: seq<nat>, b: seq<nat>) {
    |b| <= |a| && b == a[|a| - |b|..]
  }

  lemma {:induction false} ServedGlobal(s: Runtime, p: nat, start: nat)
    requires Linked(s) && p < |s.ps| && start < |s.ps|
    ensures Shortened(s.global, Served(s, p, start).global)
  {
    var t := Clocked(s, p);
    if !HandsOff(t, p) {
      WorkedLinked(t, p);
      FilledGlobal(Worked(t, p), p, start);
    }
  }

  lemma {:induction false} FilledGlobal(s: Runtime, p: nat, start: nat)
    requires Linked(s) && p < |s.ps| && start < |s.ps|
    ensures Shortened(s.global, Filled(s, p, start).global)
  {
    FoundLinked(s, p, start);
  }

  lemma {:induction false} ServedAllGlobal(rt: Runtime, starts: seq<nat>, k: nat)
    requires Linked(rt) && |starts| == |rt.ps| && InRange(starts, |rt.ps|) && k <= |rt.ps|
    ensures Shortened(rt.global, ServedAll(rt, starts, k).global)
  {
    hide Served, Linked;
    if k > 0 {
      ServedAllGlobal(rt, starts, k - 1);
      ServedGlobal(ServedAll(rt, starts, k - 1), k - 1, starts[k - 1]);
    }
  }

  lemma {:induction false} WokenAllGlobal(s: Runtime, k: nat)
    requires Linked(s) && k <= |s.ms|
    ensures s.global <= WokenAll(s, k).global
  {
    if k > 0 {
      WokenAllGlobal(s, k - 1);
    }
  }

  /** The global queue is served from the front and joined at the back. */
  lemma {:induction false} GlobalIsFifo(rt: Runtime, starts: seq<nat>)
    requires Linked(rt) && |starts| == |rt.ps| && InRange(starts, |rt.ps|)
    ensures exists k: nat :: k <= |rt.global| && rt.global[k..] <= Stepped(rt, starts).global
  {
    hide ServedAll, WokenAll, Linked;
    var s := ServedAll(rt, starts, |rt.ps|);
    ServedAllGlobal(rt, starts, |rt.ps|);
    WokenAllGlobal(s, |s.ms|);
    var k := |rt.global| - |s.global|;
    assert rt.global[k..] == s.global;
  }
}
