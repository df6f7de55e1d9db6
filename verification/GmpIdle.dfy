/** Work conservation: a processor that ends a step idle has found every run queue empty. */
module GmpIdle {
  import opened Collections
  import opened Gmp
  import opened GmpPlacement
  import opened GmpSteps
  import opened GmpProgress

  // ---------------------------------------------------------------------------------------
  // Serving one processor leaves the others alone and never adds to the run queues
  // ---------------------------------------------------------------------------------------

  lemma ThreadsApart(rt: Runtime, p: nat, q: nat)
    requires Valid(rt) && p < |rt.ps| && q < |rt.ps| && p != q
    ensures rt.ps[p].thread != rt.ps[q].thread
  {
    assert ProcessorFine(rt, p) && ProcessorFine(rt, q);
  }

  lemma FilledElsewhere(rt: Runtime, p: nat, start: nat, q: nat)
    requires Linked(rt) && p < |rt.ps| && start < |rt.ps| && q < |rt.ps| && rt.ps[p].thread != rt.ps[q].thread
    ensures var f := Filled(rt, p, start);
            Linked(f) && q < |f.ps| && f.ps[q].thread == rt.ps[q].thread && Current(f, q) == Current(rt, q)
  {
    FilledLinked(rt, p, start);
    FilledPlacesNone(rt, p, start);
    FoundBound(rt, p, start);
    FoundLinked(rt, p, start);
  }

  lemma ServedElsewhere(rt: Runtime, p: nat, start: nat, q: nat)
    requires Valid(rt) && p < |rt.ps| && start < |rt.ps| && q < |rt.ps| && p != q
    ensures Served(rt, p, start).ps[q].thread == rt.ps[q].thread
    ensures Current(Served(rt, p, start), q) == Current(rt, q)
  {
    ThreadsApart(rt, p, q);
    var t := Clocked(rt, p);
    if !HandsOff(t, p) {
      WorkedLinked(t, p);
      FilledElsewhere(Worked(t, p), p, start, q);
    }
  }

  lemma FilledWaiting(rt: Runtime, p: nat, start: nat, g: nat)
    requires Linked(rt) && p < |rt.ps| && start < |rt.ps|
    ensures Waiting(Filled(rt, p, start), g) <= Waiting(rt, g)
  {
    FilledPlacesNone(rt, p, start);
    if Current(rt, p).None? { FilledPlaces(rt, p, start, g); }
  }

  lemma ServedWaiting(rt: Runtime, p: nat, start: nat, g: nat)
    requires Linked(rt) && p < |rt.ps| && start < |rt.ps|
    ensures Waiting(Served(rt, p, start), g) <= Waiting(rt, g)
  {
    var t := Clocked(rt, p);
    QueuesUpdate(rt.ps, p, t.ps[p], g);
    if HandsOff(t, p) {
      QueuesUpdate(t.ps, p, HandedOff(t, p).ps[p], g);
    } else {
      WorkedLinked(t, p);
      assert Waiting(Worked(t, p), g) == Waiting(t, g);
      FilledWaiting(Worked(t, p), p, start, g);
    }
  }

  /** Served without a handoff and still idle: nothing was waiting anywhere. */
  lemma IdleSawNothing(rt: Runtime, p: nat, start: nat)
    requires Valid(rt) && p < |rt.ps| && start < |rt.ps|
    requires Served(rt, p, start).ps[p].thread == rt.ps[p].thread && Current(Served(rt, p, start), p).None?
    ensures NoneWaiting(Served(rt, p, start))
  {
    var t := Clocked(rt, p);
    if !HandsOff(t, p) {
      var w := Worked(t, p);
      WorkedLinked(t, p);
      if Current(w, p).None? {
        IdleFill(w, p, start);
      } else {
        FilledPlacesNone(w, p, start);
      }
    }
  }

  lemma IdleFill(w: Runtime, p: nat, start: nat)
    requires Linked(w) && p < |w.ps| && start < |w.ps| && Current(w, p).None?
    requires Linked(Filled(w, p, start)) && p < |Filled(w, p, start).ps| && Current(Filled(w, p, start), p).None?
    ensures NoneWaiting(Filled(w, p, start))
  {
    if Found(w, p, start).found.None? {
      FilledNothing(w, p, start);
    } else {
      FoundLinked(w, p, start);
      FoundBound(w, p, start);
    }
  }

  // ---------------------------------------------------------------------------------------
  // Over a whole step
  // ---------------------------------------------------------------------------------------

  /** Processor p kept its thread; once it has been served, being idle means nothing waits. */
  ghost predicate Tracks(rt: Runtime, p: nat, s: Runtime, k: nat) {
    && Valid(s) && p < |s.ps| && p < |rt.ps|
    && (k <= p ==> s.ps[p].thread == rt.ps[p].thread && |s.ms| >= |rt.ms|)
    && (k > p && s.ps[p].thread == rt.ps[p].thread && Current(s, p).None? ==> NoneWaiting(s))
  }

  lemma ServedGrows(rt: Runtime, p: nat, start: nat)
    requires Linked(rt) && p < |rt.ps| && start < |rt.ps|
    ensures |Served(rt, p, start).ms| >= |rt.ms|
  {
    var t := Clocked(rt, p);
    if !HandsOff(t, p) {
      WorkedLinked(t, p);
      FilledPlacesNone(Worked(t, p), p, start);
      FoundBound(Worked(t, p), p, start);
      FoundLinked(Worked(t, p), p, start);
    }
  }

  lemma TracksOn(rt: Runtime, p: nat, s: Runtime, k: nat, start: nat)
    requires Tracks(rt, p, s, k) && k < |s.ps| && start < |s.ps|
    ensures Tracks(rt, p, Served(s, k, start), k + 1)
  {
    ServedValid(s, k, start);
    ServedGrows(s, k, start);
    if k == p {
      if Served(s, p, start).ps[p].thread == rt.ps[p].thread && Current(Served(s, p, start), p).None? {
        IdleSawNothing(s, p, start);
      }
    } else {
      ServedElsewhere(s, k, start, p);
      forall g: nat ensures Waiting(Served(s, k, start), g) <= Waiting(s, g) {
        ServedWaiting(s, k, start, g);
      }
    }
  }

  lemma ServedAllIdle(rt: Runtime, starts: seq<nat>, p: nat)
    requires Valid(rt) && |starts| == |rt.ps| && InRange(starts, |rt.ps|) && p < |rt.ps|
    ensures Tracks(rt, p, ServedAll(rt, starts, |rt.ps|), |rt.ps|)
  {
    var inv := (s: Runtime, k: nat) => Tracks(rt, p, s, k);
    forall s: Runtime, k: nat, start: nat | Linked(s) && |s.ps| == |rt.ps| && k < |s.ps| && start < |s.ps| && inv(s, k)
      ensures inv(Served(s, k, start), k + 1)
    {
      TracksOn(rt, p, s, k, start);
    }
    assert Advances(inv, |rt.ps|);
    ServedAllKeeps(inv, rt, starts, |rt.ps|);
  }

  /** A goroutine found deep in a system call was in it when the step began. */
  ghost predicate Deep(rt: Runtime, s: Runtime, g: nat) {
    g < |rt.gs| && |s.gs| == |rt.gs| &&
    (s.gs[g].status == InSyscall && s.gs[g].syscallTicks > 0 ==> rt.gs[g].status == InSyscall)
  }

  lemma DeepOn(rt: Runtime, s: Runtime, g: nat, k: nat, start: nat)
    requires Linked(s) && Deep(rt, s, g) && k < |s.ps| && start < |s.ps|
    ensures Deep(rt, Served(s, k, start), g)
  {
    var t := Clocked(s, k);
    if !HandsOff(t, k) {
      var w := Worked(t, k);
      WorkedLinked(t, k);
      FilledPlacesNone(w, k, start);
      if Current(w, k).None? {
        FilledPlaces(w, k, start, g);
        FoundLinked(w, k, start);
      }
    }
  }

  lemma ServedAllDeep(rt: Runtime, starts: seq<nat>, g: nat)
    requires Linked(rt) && |starts| == |rt.ps| && InRange(starts, |rt.ps|) && g < |rt.gs|
    ensures Deep(rt, ServedAll(rt, starts, |rt.ps|), g)
  {
    var inv := (s: Runtime, k: nat) => Deep(rt, s, g);
    forall s: Runtime, k: nat, start: nat | Linked(s) && |s.ps| == |rt.ps| && k < |s.ps| && start < |s.ps| && inv(s, k)
      ensures inv(Served(s, k, start), k + 1)
    {
      DeepOn(rt, s, g, k, start);
    }
    assert Advances(inv, |rt.ps|);
    ServedAllKeeps(inv, rt, starts, |rt.ps|);
  }

  // What waking does to the queues

  /** Thread l still carries what it carried before the waking began. */
  ghost predicate Untouched(s: Runtime, w: Runtime, l: nat)
    requires Linked(w) && l < |w.ms|
  {
    l < |s.ms| && w.ms[l] == s.ms[l] &&
    (w.ms[l].cur.Some? ==> w.ms[l].cur.value < |s.gs| && w.gs[w.ms[l].cur.value] == s.gs[w.ms[l].cur.value])
  }

  /** A goroutine that waits now and did not before was on its third tick in a system call. */
  ghost predicate JustWoken(s: Runtime, w: Runtime, g: nat) {
    Waiting(w, g) > Waiting(s, g) ==> g < |s.gs| && s.gs[g].status == InSyscall && s.gs[g].syscallTicks == 2
  }

  ghost predicate OnlyWoken(s: Runtime, w: Runtime, k: nat) {
    && Valid(w) && w.ps == s.ps && |w.ms| == |s.ms|
    && (forall g: nat :: JustWoken(s, w, g))
    && (forall l: nat :: k <= l < |w.ms| ==> Untouched(s, w, l))
    && (forall p: nat :: p < |s.ps| ==> BoundSame(s, w, p))
  }

  ghost predicate BoundSame(s: Runtime, w: Runtime, p: nat) {
    p < |s.ps| && s.ps[p].thread < |w.ms| && s.ps[p].thread < |s.ms| && w.ms[s.ps[p].thread] == s.ms[s.ps[p].thread]
  }

  lemma UntouchedOn(s: Runtime, w: Runtime, m: nat, l: nat)
    requires Valid(w) && m < |w.ms| && l < |w.ms| && l != m && Untouched(s, w, l)
    ensures Untouched(s, Woken(w, m), l)
  {
    if w.ms[m].cur.Some? {
      assert GoroutineFine(w, w.ms[m].cur.value);
      HeldOnce(w, m, l, w.ms[m].cur.value);
    }
  }

  lemma OnlyWokenOn(s: Runtime, w: Runtime, m: nat)
    requires m < |w.ms| && OnlyWoken(s, w, m)
    ensures OnlyWoken(s, Woken(w, m), m + 1)
  {
    var v := Woken(w, m);
    WokenValid(w, m);
    assert Untouched(s, w, m) && ThreadFine(w, m);
    forall g: nat ensures JustWoken(s, v, g) {
      assert JustWoken(s, w, g);
      WokenPlaces(w, m, g);
    }
    forall l: nat | m + 1 <= l < |v.ms| ensures Untouched(s, v, l) {
      assert Untouched(s, w, l);
      UntouchedOn(s, w, m, l);
    }
    forall p: nat | p < |s.ps| ensures BoundSame(s, v, p) {
      assert BoundSame(s, w, p) && ProcessorFine(w, p);
    }
  }

  lemma WokenAllOnly(s: Runtime)
    requires Valid(s)
    ensures OnlyWoken(s, WokenAll(s, |s.ms|), |s.ms|)
  {
    var inv := (w: Runtime, k: nat) => OnlyWoken(s, w, k);
    forall w: Runtime, m: nat | Linked(w) && m < |w.ms| && inv(w, m) ensures inv(Woken(w, m), m + 1) {
      OnlyWokenOn(s, w, m);
    }
    WokenAllKeeps(inv, s, |s.ms|);
  }

  lemma {:induction false} QueueCounts(ps: seq<Processor>, v: nat, k: nat)
    requires v < |ps| && k < |ps[v].queue|
    ensures InQueues(ps, ps[v].queue[k]) > 0
  {
    var n := |ps| - 1;
    if v == n {
      assert ps[v].queue[k] in multiset(ps[v].queue);
    } else {
      QueueCounts(ps[..n], v, k);
    }
  }

  lemma NoneWaitingEmpty(s: Runtime, v: nat)
    requires v < |s.ps| && NoneWaiting(s)
    ensures s.ps[v].queue == []
  {
    if s.ps[v].queue != [] {
      assert Waiting(s, s.ps[v].queue[0]) == 0;
      QueueCounts(s.ps, v, 0);
    }
  }

  lemma GlobalWaits(w: Runtime, k: nat)
    requires k < |w.global|
    ensures Waiting(w, w.global[k]) > 0
  {
    assert w.global[k] in multiset(w.global);
  }

  /** A processor that ends the step idle on the thread it began with leaves no goroutine in any
      local queue, and the global queue holds only goroutines whose system call ended in this step. */
  lemma IdleMeansEmpty(rt: Runtime, starts: seq<nat>, p: nat)
    requires Valid(rt) && |starts| == |rt.ps| && InRange(starts, |rt.ps|) && p < |rt.ps|
    requires Stepped(rt, starts).ps[p].thread == rt.ps[p].thread && Current(Stepped(rt, starts), p).None?
    ensures forall v :: 0 <= v < |rt.ps| ==> Stepped(rt, starts).ps[v].queue == []
    ensures forall k :: 0 <= k < |Stepped(rt, starts).global| ==>
              && rt.gs[Stepped(rt, starts).global[k]].status == InSyscall
              && Stepped(rt, starts).gs[Stepped(rt, starts).global[k]].status == Runnable
  {
    var s := ServedAll(rt, starts, |rt.ps|);
    var w := WokenAll(s, |s.ms|);
    IdleServed(rt, starts, p);
    WokenAllOnly(s);
    forall v | 0 <= v < |rt.ps| ensures w.ps[v].queue == [] {
      NoneWaitingEmpty(s, v);
    }
    forall k | 0 <= k < |w.global| ensures rt.gs[w.global[k]].status == InSyscall && w.gs[w.global[k]].status == Runnable {
      var g := w.global[k];
      GlobalWaits(w, k);
      assert Waiting(s, g) == 0 && JustWoken(s, w, g) && GoroutineFine(w, g);
      ServedAllDeep(rt, starts, g);
    }
  }

  lemma IdleServed(rt: Runtime, starts: seq<nat>, p: nat)
    requires Valid(rt) && |starts| == |rt.ps| && InRange(starts, |rt.ps|) && p < |rt.ps|
    requires Stepped(rt, starts).ps[p].thread == rt.ps[p].thread && Current(Stepped(rt, starts), p).None?
    ensures Valid(ServedAll(rt, starts, |rt.ps|)) && NoneWaiting(ServedAll(rt, starts, |rt.ps|))
  {
    var s := ServedAll(rt, starts, |rt.ps|);
    ServedAllIdle(rt, starts, p);
    WokenAllOnly(s);
    assert BoundSame(s, WokenAll(s, |s.ms|), p);
  }
}
