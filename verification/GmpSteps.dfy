/** Every operation of the runtime keeps goroutines, threads and processors in their places. */
module GmpSteps {
  import opened Collections
  import opened Gmp
  import opened GmpPlacement

  lemma InitialValid(gomaxprocs: int)
    ensures Valid(InitialRuntime(gomaxprocs))
  {
    var rt := InitialRuntime(gomaxprocs);
    forall g: nat ensures GoroutineFine(rt, g) {
      NoneQueued(rt.ps, g);
      NoneHeld(rt.ms, g);
    }
  }

  lemma {:induction false} NoneHeld(ms: seq<Thread>, g: nat)
    requires forall m :: 0 <= m < |ms| ==> ms[m].cur != Some(g)
    ensures OnThreads(ms, g) == 0
  {
    if ms != [] { NoneHeld(ms[..|ms|-1], g); }
  }

  // Spawning

  lemma SpawnedGoroutine(rt: Runtime, work: int, isSyscall: bool, g: nat)
    requires Linked(rt) && GoroutineFine(rt, g)
    ensures GoroutineFine(Spawned(rt, work, isSyscall), g)
  {
    hide InQueues, Count, OnThreads;
    var p := (|rt.gs| + 1) % |rt.ps|;
    CountLast(rt.ps[p].queue, |rt.gs|, g);
    CountLast(rt.global, |rt.gs|, g);
    QueuesUpdate(rt.ps, p, rt.ps[p].(queue := rt.ps[p].queue + [|rt.gs|]), g);
  }

  lemma SpawnedValid(rt: Runtime, work: int, isSyscall: bool)
    requires Valid(rt)
    ensures Valid(Spawned(rt, work, isSyscall))
  {
    var s := Spawned(rt, work, isSyscall);
    forall g: nat ensures GoroutineFine(s, g) {
      assert GoroutineFine(rt, g);
      SpawnedGoroutine(rt, work, isSyscall, g);
    }
    forall m: nat | m < |s.ms| ensures ThreadFine(s, m) {
      assert ThreadFine(rt, m);
    }
    forall p: nat | p < |s.ps| ensures ProcessorFine(s, p) {
      assert ProcessorFine(rt, p);
    }
  }

  // Serving a processor

  lemma ClockedValid(rt: Runtime, p: nat)
    requires Valid(rt) && p < |rt.ps|
    ensures Valid(Clocked(rt, p))
  {
    var t := Clocked(rt, p);
    forall g: nat ensures GoroutineFine(t, g) {
      assert GoroutineFine(rt, g);
      QueuesUpdate(rt.ps, p, t.ps[p], g);
    }
    forall m: nat | m < |t.ms| ensures ThreadFine(t, m) {
      assert ThreadFine(rt, m);
    }
    forall k: nat | k < |t.ps| ensures ProcessorFine(t, k) {
      assert ProcessorFine(rt, k);
    }
  }

  lemma HandedOffGoroutine(rt: Runtime, p: nat, g: nat)
    requires Linked(rt) && p < |rt.ps| && HandsOff(rt, p) && GoroutineFine(rt, g)
    ensures GoroutineFine(HandedOff(rt, p), g)
  {
    var h := HandedOff(rt, p);
    var m := rt.ps[p].thread;
    QueuesUpdate(rt.ps, p, h.ps[p], g);
    ThreadsUpdate(rt.ms, m, h.ms[m], g);
    ThreadsAppend(rt.ms[m := h.ms[m]], h.ms[|rt.ms|], g);
    if rt.ms[m].cur == Some(g) { HeldAlone(rt, m, g); }
  }

  lemma HandedOffThread(rt: Runtime, p: nat, l: nat)
    requires Valid(rt) && p < |rt.ps| && HandsOff(rt, p) && Linked(HandedOff(rt, p)) && l < |rt.ms| + 1
    ensures ThreadFine(HandedOff(rt, p), l)
  {
    var m := rt.ps[p].thread;
    assert ThreadFine(rt, m) && ProcessorFine(rt, p);
    if l < |rt.ms| && l != m {
      assert ThreadFine(rt, l) && GoroutineFine(rt, rt.ms[m].cur.value);
      HeldOnce(rt, m, l, rt.ms[m].cur.value);
    }
  }

  lemma HandedOffValid(rt: Runtime, p: nat)
    requires Valid(rt) && p < |rt.ps| && HandsOff(rt, p)
    ensures Valid(HandedOff(rt, p))
  {
    var h := HandedOff(rt, p);
    HandedOffLinked(rt, p);
    forall g: nat ensures GoroutineFine(h, g) {
      assert GoroutineFine(rt, g);
      HandedOffGoroutine(rt, p, g);
    }
    forall l: nat | l < |h.ms| ensures ThreadFine(h, l) {
      HandedOffThread(rt, p, l);
    }
    assert ProcessorFine(rt, p);
    forall k: nat | k < |h.ps| ensures ProcessorFine(h, k) {
      assert ProcessorFine(rt, k);
    }
  }

  lemma WorkedGoroutine(rt: Runtime, p: nat, g: nat)
    requires Linked(rt) && p < |rt.ps| && GoroutineFine(rt, g)
    ensures GoroutineFine(Worked(rt, p), g)
  {
    var w := Worked(rt, p);
    var m := rt.ps[p].thread;
    ThreadsUpdate(rt.ms, m, w.ms[m], g);
    if rt.ms[m].cur.Some? { CountLast(rt.completed, rt.ms[m].cur.value, g); }
    if rt.ms[m].cur == Some(g) { HeldAlone(rt, m, g); }
  }

  lemma WorkedThread(rt: Runtime, p: nat, l: nat)
    requires Valid(rt) && p < |rt.ps| && Linked(Worked(rt, p)) && l < |rt.ms|
    ensures ThreadFine(Worked(rt, p), l)
  {
    var m := rt.ps[p].thread;
    assert ThreadFine(rt, l) && ProcessorFine(rt, p);
    if l != m && rt.ms[m].cur.Some? {
      assert GoroutineFine(rt, rt.ms[m].cur.value);
      HeldOnce(rt, m, l, rt.ms[m].cur.value);
    }
  }

  lemma WorkedValid(rt: Runtime, p: nat)
    requires Valid(rt) && p < |rt.ps|
    ensures Valid(Worked(rt, p))
  {
    var w := Worked(rt, p);
    WorkedLinked(rt, p);
    forall g: nat ensures GoroutineFine(w, g) {
      assert GoroutineFine(rt, g);
      WorkedGoroutine(rt, p, g);
    }
    forall l: nat | l < |w.ms| ensures ThreadFine(w, l) {
      WorkedThread(rt, p, l);
    }
    forall k: nat | k < |w.ps| ensures ProcessorFine(w, k) {
      assert ProcessorFine(rt, k);
    }
  }

  /** What filling an idle processor does to the places of g. */
  lemma FilledPlaces(rt: Runtime, p: nat, start: nat, g: nat)
    requires Linked(rt) && p < |rt.ps| && start < |rt.ps| && Current(rt, p).None?
    ensures var f := Filled(rt, p, start); var s := Found(rt, p, start);
            && Waiting(f, g) == Waiting(rt, g) - (if s.found == Some(g) then 1 else 0)
            && OnThreads(f.ms, g) == OnThreads(rt.ms, g) + (if s.found == Some(g) then 1 else 0)
            && f.completed == rt.completed && |f.gs| == |rt.gs|
            && (s.found.None? ==> f == rt && Waiting(rt, g) == 0)
            && (g < |rt.gs| && s.found != Some(g) ==> f.gs[g] == rt.gs[g])
  {
    var s := Found(rt, p, start);
    FoundConserves(rt, p, start, g);
    FoundBound(rt, p, start);
    FoundLinked(rt, p, start);
    if s.found.Some? {
      var m := rt.ps[p].thread;
      ThreadsUpdate(rt.ms, m, rt.ms[m].(cur := s.found), g);
    }
  }

  lemma FilledGoroutine(rt: Runtime, p: nat, start: nat, g: nat)
    requires Linked(rt) && p < |rt.ps| && start < |rt.ps| && Current(rt, p).None? && GoroutineFine(rt, g)
    ensures GoroutineFine(Filled(rt, p, start), g)
  {
    FilledPlaces(rt, p, start, g);
  }

  lemma FilledThread(rt: Runtime, p: nat, start: nat, l: nat)
    requires Valid(rt) && p < |rt.ps| && start < |rt.ps| && Current(rt, p).None? && Found(rt, p, start).found.Some?
    requires l < |rt.ms|
    ensures Linked(Filled(rt, p, start)) && l < |Filled(rt, p, start).ms| && ThreadFine(Filled(rt, p, start), l)
  {
    FilledLinked(rt, p, start);
    FoundBound(rt, p, start);
    FoundLinked(rt, p, start);
    var c := Found(rt, p, start).found.value;
    FilledPlaces(rt, p, start, c);
    assert GoroutineFine(rt, c) && ThreadFine(rt, l) && ProcessorFine(rt, p);
    WaitingAlone(rt, c, l);
  }

  lemma FilledProcessor(rt: Runtime, p: nat, start: nat, k: nat)
    requires Valid(rt) && p < |rt.ps| && start < |rt.ps| && Current(rt, p).None? && k < |rt.ps|
    ensures Linked(Filled(rt, p, start)) && k < |Filled(rt, p, start).ps| && ProcessorFine(Filled(rt, p, start), k)
  {
    FilledLinked(rt, p, start);
    FoundBound(rt, p, start);
    FoundLinked(rt, p, start);
    assert ProcessorFine(rt, k);
    FoundRoomy(rt, p, start, k);
  }

  lemma FilledValid(rt: Runtime, p: nat, start: nat)
    requires Valid(rt) && p < |rt.ps| && start < |rt.ps|
    ensures Valid(Filled(rt, p, start))
  {
    FilledPlacesNone(rt, p, start);
    if Current(rt, p).None? && Found(rt, p, start).found.Some? {
      var f := Filled(rt, p, start);
      FilledLinked(rt, p, start);
      FoundBound(rt, p, start);
      FoundLinked(rt, p, start);
      forall g: nat ensures GoroutineFine(f, g) {
        assert GoroutineFine(rt, g);
        FilledGoroutine(rt, p, start, g);
      }
      forall l: nat | l < |f.ms| ensures ThreadFine(f, l) {
        FilledThread(rt, p, start, l);
      }
      forall k: nat | k < |f.ps| ensures ProcessorFine(f, k) {
        FilledProcessor(rt, p, start, k);
      }
    }
  }

  lemma FilledPlacesNone(rt: Runtime, p: nat, start: nat)
    requires Linked(rt) && p < |rt.ps| && start < |rt.ps|
    ensures Current(rt, p).Some? || Found(rt, p, start).found.None? ==> Filled(rt, p, start) == rt
  {
    if Current(rt, p).None? { FilledPlaces(rt, p, start, 0); }
  }

  lemma ServedValid(rt: Runtime, p: nat, start: nat)
    requires Valid(rt) && p < |rt.ps| && start < |rt.ps|
    ensures Valid(Served(rt, p, start))
  {
    var t := Clocked(rt, p);
    ClockedValid(rt, p);
    if HandsOff(t, p) {
      HandedOffValid(t, p);
    } else {
      WorkedValid(t, p);
      WorkedLinked(t, p);
      FilledValid(Worked(t, p), p, start);
    }
  }

  /** Serving processor p turns inv(_, p) into inv(_, p + 1). */
  ghost predicate Advances(inv: (Runtime, nat) -> bool, n: nat) {
    forall s: Runtime, p: nat, start: nat ::
      Linked(s) && |s.ps| == n && p < |s.ps| && start < |s.ps| && inv(s, p) ==> inv(Served(s, p, start), p + 1)
  }

  lemma AdvancesOne(inv: (Runtime, nat) -> bool, n: nat, s: Runtime, p: nat, start: nat)
    requires Advances(inv, n) && Linked(s) && |s.ps| == n && p < n && start < n && inv(s, p)
    ensures inv(Served(s, p, start), p + 1)
  {
  }

  /** Induction over the processors. */
  lemma ServedAllKeeps(inv: (Runtime, nat) -> bool, rt: Runtime, starts: seq<nat>, k: nat)
    requires Linked(rt) && inv(rt, 0) && k <= |rt.ps| && |starts| == |rt.ps| && InRange(starts, |rt.ps|)
    requires Advances(inv, |rt.ps|)
    ensures inv(ServedAll(rt, starts, k), k)
  {
    for j := 0 to k
      invariant inv(ServedAll(rt, starts, j), j)
    {
      AdvancesOne(inv, |rt.ps|, ServedAll(rt, starts, j), j, starts[j]);
    }
  }

  lemma ServedAllValid(rt: Runtime, starts: seq<nat>, k: nat)
    requires Valid(rt) && k <= |rt.ps| && |starts| == |rt.ps| && InRange(starts, |rt.ps|)
    ensures Valid(ServedAll(rt, starts, k))
  {
    var inv := (s: Runtime, p: nat) => Valid(s);
    forall s: Runtime, p: nat, start: nat | Linked(s) && |s.ps| == |rt.ps| && p < |s.ps| && start < |s.ps| && inv(s, p)
      ensures inv(Served(s, p, start), p + 1)
    {
      ServedValid(s, p, start);
    }
    assert Advances(inv, |rt.ps|);
    ServedAllKeeps(inv, rt, starts, k);
  }

  // Waking threads

  lemma WokenPlaces(rt: Runtime, m: nat, g: nat)
    requires Linked(rt) && m < |rt.ms|
    ensures Places(Woken(rt, m), g) == Places(rt, g)
    ensures Waiting(Woken(rt, m), g) >= Waiting(rt, g)
    ensures Waiting(Woken(rt, m), g) > Waiting(rt, g) ==>
              rt.ms[m].blocked && rt.ms[m].cur == Some(g) && Woken(rt, m).gs[g].syscallTicks >= 3
  {
    var w := Woken(rt, m);
    ThreadsUpdate(rt.ms, m, w.ms[m], g);
    if rt.ms[m].cur.Some? { CountLast(rt.global, rt.ms[m].cur.value, g); }
  }

  lemma WokenGoroutine(rt: Runtime, m: nat, g: nat)
    requires Linked(rt) && m < |rt.ms| && GoroutineFine(rt, g)
    ensures GoroutineFine(Woken(rt, m), g)
  {
    WokenPlaces(rt, m, g);
    if rt.ms[m].cur == Some(g) { HeldAlone(rt, m, g); }
  }

  lemma WokenThread(rt: Runtime, m: nat, l: nat)
    requires Valid(rt) && m < |rt.ms| && l < |rt.ms|
    ensures ThreadFine(Woken(rt, m), l)
  {
    assert ThreadFine(rt, m) && ThreadFine(rt, l);
    if l != m && rt.ms[m].cur.Some? {
      assert GoroutineFine(rt, rt.ms[m].cur.value);
      HeldOnce(rt, m, l, rt.ms[m].cur.value);
    }
  }

  lemma WokenValid(rt: Runtime, m: nat)
    requires Valid(rt) && m < |rt.ms|
    ensures Valid(Woken(rt, m))
  {
    var w := Woken(rt, m);
    forall g: nat ensures GoroutineFine(w, g) {
      assert GoroutineFine(rt, g);
      WokenGoroutine(rt, m, g);
    }
    forall l: nat | l < |w.ms| ensures ThreadFine(w, l) {
      WokenThread(rt, m, l);
    }
    assert ThreadFine(rt, m);
    forall k: nat | k < |w.ps| ensures ProcessorFine(w, k) {
      assert ProcessorFine(rt, k);
    }
  }

  /** Induction over the threads. */
  lemma WokenAllKeeps(inv: (Runtime, nat) -> bool, rt: Runtime, k: nat)
    requires Linked(rt) && inv(rt, 0) && k <= |rt.ms|
    requires forall s: Runtime, m: nat :: Linked(s) && m < |s.ms| && inv(s, m) ==> inv(Woken(s, m), m + 1)
    ensures inv(WokenAll(rt, k), k)
  {
    for m := 0 to k
      invariant inv(WokenAll(rt, m), m)
    {
      assert inv(Woken(WokenAll(rt, m), m), m + 1);
    }
  }

  lemma WokenAllValid(rt: Runtime, k: nat)
    requires Valid(rt) && k <= |rt.ms|
    ensures Valid(WokenAll(rt, k))
  {
    var inv := (s: Runtime, m: nat) => Valid(s);
    forall s: Runtime, m: nat | Linked(s) && m < |s.ms| && inv(s, m) ensures inv(Woken(s, m), m + 1) {
      WokenValid(s, m);
    }
    WokenAllKeeps(inv, rt, k);
  }

  /** A step loses, duplicates and misplaces no goroutine, whatever the steal starts are. */
  lemma SteppedValid(rt: Runtime, starts: seq<nat>)
    requires Valid(rt) && |starts| == |rt.ps| && InRange(starts, |rt.ps|)
    ensures Valid(Stepped(rt, starts))
  {
    ServedAllValid(rt, starts, |rt.ps|);
    var s := ServedAll(rt, starts, |rt.ps|);
    WokenAllValid(s, |s.ms|);
  }

  datatype Op = Spawn(work: int, isSyscall: bool) | Step(starts: seq<nat>)

  predicate ProperOps(ops: seq<Op>, n: nat) {
    forall k :: 0 <= k < |ops| && ops[k].Step? ==> |ops[k].starts| == n && InRange(ops[k].starts, n)
  }

  function After(gomaxprocs: int, ops: seq<Op>): (rt: Runtime)
    requires ProperOps(ops, if gomaxprocs <= 0 then 2 else gomaxprocs)
    ensures Linked(rt) && |rt.ps| == if gomaxprocs <= 0 then 2 else gomaxprocs
  {
    if ops == [] then InitialRuntime(gomaxprocs)
    else
      var rt := After(gomaxprocs, ops[..|ops|-1]);
      match ops[|ops|-1]
      case Spawn(work, isSyscall) => Spawned(rt, work, isSyscall)
      case Step(starts) => Stepped(rt, starts)
  }

  /** Every state that spawns and steps can reach has every goroutine in one place, processors
      and threads bound to each other, and local queues within their capacity. */
  lemma {:induction false} ReachableValid(gomaxprocs: int, ops: seq<Op>)
    requires ProperOps(ops, if gomaxprocs <= 0 then 2 else gomaxprocs)
    ensures Valid(After(gomaxprocs, ops))
  {
    if ops == [] {
      InitialValid(gomaxprocs);
    } else {
      var n := |ops| - 1;
      ReachableValid(gomaxprocs, ops[..n]);
      var a := After(gomaxprocs, ops[..n]);
      match ops[n]
      case Spawn(work, isSyscall) => SpawnedValid(a, work, isSyscall);
      case Step(starts) => SteppedValid(a, starts);
    }
  }
}
