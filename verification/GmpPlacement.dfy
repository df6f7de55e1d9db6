/** Where goroutines, threads and processors can be: what every spawn and every step keeps. */
module GmpPlacement {
  import opened Collections
  import opened Gmp

  /** How often g occurs in a queue. */
  ghost function Count(q: seq<nat>, g: nat): nat {
    multiset(q)[g]
  }

  ghost function InQueues(ps: seq<Processor>, g: nat): nat {
    if ps == [] then 0 else InQueues(ps[..|ps|-1], g) + Count(ps[|ps|-1].queue, g)
  }

  ghost function On(m: Thread, g: nat): nat {
    if m.cur == Some(g) then 1 else 0
  }

  ghost function OnThreads(ms: seq<Thread>, g: nat): nat {
    if ms == [] then 0 else OnThreads(ms[..|ms|-1], g) + On(ms[|ms|-1], g)
  }

  /** How often g occurs in the run queues. */
  ghost function Waiting(rt: Runtime, g: nat): nat {
    InQueues(rt.ps, g) + Count(rt.global, g)
  }

  ghost function Places(rt: Runtime, g: nat): nat {
    Waiting(rt, g) + OnThreads(rt.ms, g) + Count(rt.completed, g)
  }

  ghost predicate Waits(g: Goroutine) {
    g.status == Runnable && (g.isSyscall ==> g.syscallTicks == 0)
  }

  /** Goroutine g is in exactly one place, once, and has the status of that place. */
  ghost predicate GoroutineFine(rt: Runtime, g: nat) {
    && Places(rt, g) == (if g < |rt.gs| then 1 else 0)
    && (Waiting(rt, g) > 0 ==> g < |rt.gs| && Waits(rt.gs[g]))
    && (Count(rt.completed, g) > 0 ==> g < |rt.gs| && rt.gs[g].status == Dead)
  }

  /** A thread runs its goroutine for a processor that points back at it, or is blocked in a
      system call without one, or idles. */
  ghost predicate ThreadFine(rt: Runtime, m: nat)
    requires Linked(rt) && m < |rt.ms|
  {
    var t := rt.ms[m];
    && (t.bound.Some? ==> t.bound.value < |rt.ps| && rt.ps[t.bound.value].thread == m && !t.blocked)
    && if t.cur.None? then !t.blocked
       else
         var g := rt.gs[t.cur.value];
         if t.blocked then g.status == InSyscall && g.isSyscall && g.syscallTicks <= 2
         else t.bound.Some? && g.status == Running && (g.isSyscall ==> g.syscallTicks == 0)
  }

  ghost predicate ProcessorFine(rt: Runtime, p: nat)
    requires Linked(rt) && p < |rt.ps|
  {
    rt.ms[rt.ps[p].thread].bound == Some(p) && |rt.ps[p].queue| <= LOCAL_CAPACITY
  }

  ghost predicate Valid(rt: Runtime) {
    && Linked(rt)
    && (forall g: nat :: GoroutineFine(rt, g))
    && (forall m: nat :: m < |rt.ms| ==> ThreadFine(rt, m))
    && (forall p: nat :: p < |rt.ps| ==> ProcessorFine(rt, p))
  }

  // ---------------------------------------------------------------------------------------
  // Counting
  // ---------------------------------------------------------------------------------------

  lemma {:induction false} QueuesUpdate(ps: seq<Processor>, i: nat, x: Processor, g: nat)
    requires i < |ps|
    ensures Count(ps[i].queue, g) <= InQueues(ps, g)
    ensures InQueues(ps[i := x], g) == InQueues(ps, g) - Count(ps[i].queue, g) + Count(x.queue, g)
  {
    var n := |ps| - 1;
    if i == n {
      assert ps[i := x][..n] == ps[..n];
    } else {
      assert ps[i := x][..n] == ps[..n][i := x];
      QueuesUpdate(ps[..n], i, x, g);
    }
  }

  lemma {:induction false} ThreadsUpdate(ms: seq<Thread>, i: nat, x: Thread, g: nat)
    requires i < |ms|
    ensures On(ms[i], g) <= OnThreads(ms, g)
    ensures OnThreads(ms[i := x], g) == OnThreads(ms, g) - On(ms[i], g) + On(x, g)
  {
    var n := |ms| - 1;
    if i == n {
      assert ms[i := x][..n] == ms[..n];
    } else {
      assert ms[i := x][..n] == ms[..n][i := x];
      ThreadsUpdate(ms[..n], i, x, g);
    }
  }

  lemma ThreadsAppend(ms: seq<Thread>, x: Thread, g: nat)
    ensures OnThreads(ms + [x], g) == OnThreads(ms, g) + On(x, g)
  {
    assert (ms + [x])[..|ms|] == ms;
  }

  lemma CountHead(q: seq<nat>, g: nat)
    requires q != []
    ensures Count(q, g) == Count(q[1..], g) + if q[0] == g then 1 else 0
  {
    assert q == [q[0]] + q[1..];
  }

  lemma CountLast(q: seq<nat>, x: nat, g: nat)
    ensures Count(q + [x], g) == Count(q, g) + if x == g then 1 else 0
  {
  }

  lemma ThreadsTwice(ms: seq<Thread>, m: nat, l: nat, g: nat)
    requires m < |ms| && l < |ms| && m != l && ms[m].cur == Some(g) && ms[l].cur == Some(g)
    ensures OnThreads(ms, g) >= 2
  {
    var idle := Thread(None, None, false);
    ThreadsUpdate(ms, m, idle, g);
    ThreadsUpdate(ms[m := idle], l, idle, g);
  }

  /** A goroutine on a thread is nowhere else. */
  lemma HeldAlone(rt: Runtime, m: nat, g: nat)
    requires Linked(rt) && GoroutineFine(rt, g) && m < |rt.ms| && rt.ms[m].cur == Some(g)
    ensures g < |rt.gs| && Waiting(rt, g) == 0 && Count(rt.completed, g) == 0 && OnThreads(rt.ms, g) == 1
  {
    ThreadsUpdate(rt.ms, m, rt.ms[m], g);
  }

  lemma HeldOnce(rt: Runtime, m: nat, l: nat, g: nat)
    requires Linked(rt) && GoroutineFine(rt, g) && m < |rt.ms| && rt.ms[m].cur == Some(g)
    requires l < |rt.ms| && l != m
    ensures rt.ms[l].cur != Some(g)
  {
    if rt.ms[l].cur == Some(g) {
      ThreadsTwice(rt.ms, m, l, g);
    }
  }

  /** A goroutine in a run queue is nowhere else. */
  lemma WaitingAlone(rt: Runtime, g: nat, l: nat)
    requires Linked(rt) && GoroutineFine(rt, g) && Waiting(rt, g) > 0 && l < |rt.ms|
    ensures rt.ms[l].cur != Some(g)
  {
    ThreadsUpdate(rt.ms, l, rt.ms[l], g);
  }

  // ---------------------------------------------------------------------------------------
  // findRunnableG
  // ---------------------------------------------------------------------------------------

  lemma {:induction false} VictimNone(ps: seq<Processor>, p: nat, start: nat, i: nat, k: nat)
    requires start < |ps| && i <= k < |ps| && Victim(ps, p, start, i).None?
    ensures Slot(start, k, |ps|) == p || ps[Slot(start, k, |ps|)].queue == []
    decreases k - i
  {
    if i < k { VictimNone(ps, p, start, i + 1, k); }
  }

  lemma NothingToSteal(ps: seq<Processor>, p: nat, start: nat)
    requires p < |ps| && start < |ps| && Victim(ps, p, start, 0).None? && ps[p].queue == []
    ensures forall v :: 0 <= v < |ps| ==> ps[v].queue == []
  {
    forall v | 0 <= v < |ps| ensures ps[v].queue == [] {
      // the walk reaches every processor
      VictimNone(ps, p, start, 0, if v >= start then v - start else v - start + |ps|);
    }
  }

  lemma {:induction false} NoneQueued(ps: seq<Processor>, g: nat)
    requires forall p :: 0 <= p < |ps| ==> ps[p].queue == []
    ensures InQueues(ps, g) == 0
  {
    if ps != [] { NoneQueued(ps[..|ps|-1], g); }
  }

  lemma StolenConserves(rt: Runtime, p: nat, v: nat, g: nat)
    requires p < |rt.ps| && v < |rt.ps| && p != v && rt.ps[v].queue != []
    ensures var s := Stolen(rt, p, v);
            Waiting(s.rt, g) == Waiting(rt, g) - if s.found == Some(g) then 1 else 0
  {
    hide Count, InQueues;
    var q := rt.ps[v].queue;
    var keep := |q| - (|q| + 1) / 2;
    var kept := rt.ps[v].(queue := q[..keep]);
    var ps := rt.ps[v := kept];
    CountSplit(q, keep, g);
    QueuesUpdate(rt.ps, v, kept, g);
    QueuesUpdate(ps, p, ps[p].(queue := ps[p].queue + q[keep+1..]), g);
    CountJoin(ps[p].queue, q[keep+1..], g);
  }

  lemma CountJoin(a: seq<nat>, b: seq<nat>, g: nat)
    ensures Count(a + b, g) == Count(a, g) + Count(b, g)
  {
  }

  lemma CountSplit(q: seq<nat>, k: nat, g: nat)
    requires k < |q|
    ensures Count(q, g) == Count(q[..k], g) + Count(q[k+1..], g) + if q[k] == g then 1 else 0
  {
    assert q == q[..k] + [q[k]] + q[k+1..];
  }

  /** The search takes exactly one goroutine out of the run queues, or finds them all empty. */
  lemma FoundConserves(rt: Runtime, p: nat, start: nat, g: nat)
    requires Linked(rt) && p < |rt.ps| && start < |rt.ps|
    ensures var s := Found(rt, p, start);
            && Waiting(s.rt, g) == Waiting(rt, g) - (if s.found == Some(g) then 1 else 0)
            && (s.found.None? ==> s.rt == rt && Waiting(rt, g) == 0)
  {
    if rt.global != [] && (rt.ps[p].ticks % 61 == 0 || rt.ps[p].queue == []) {
      CountHead(rt.global, g);
    } else if rt.ps[p].queue != [] {
      CountHead(rt.ps[p].queue, g);
      QueuesUpdate(rt.ps, p, rt.ps[p].(queue := rt.ps[p].queue[1..]), g);
    } else if Victim(rt.ps, p, start, 0).Some? {
      if |rt.ps| > 1 {
        StolenConserves(rt, p, Victim(rt.ps, p, start, 0).value, g);
      } else {
        NoneQueued(rt.ps, g);
      }
    } else {
      NothingToSteal(rt.ps, p, start);
      NoneQueued(rt.ps, g);
    }
  }

  /** v gives p the younger half of its queue, in order: p runs the first of it and queues the rest. */
  ghost predicate Halved(a: Runtime, b: Runtime, p: nat, v: nat, g: nat) {
    && |b.ps| == |a.ps| && p < |a.ps| && v < |a.ps| && v != p
    && a.ps[v].queue == b.ps[v].queue + [g] + b.ps[p].queue
    && |b.ps[v].queue| == |a.ps[v].queue| / 2
    && forall k :: 0 <= k < |a.ps| && k != v && k != p ==> b.ps[k] == a.ps[k]
  }

  /** With nothing local and nothing global, p finds work if and only if some queue holds any, and
      then takes half of it. */
  lemma FoundSteals(rt: Runtime, p: nat, start: nat)
    requires Linked(rt) && p < |rt.ps| && start < |rt.ps| && rt.ps[p].queue == [] && rt.global == []
    ensures var s := Found(rt, p, start);
            && (s.found.None? <==> forall k :: 0 <= k < |rt.ps| ==> rt.ps[k].queue == [])
            && (s.found.Some? ==> exists v: nat :: Halved(rt, s.rt, p, v, s.found.value))
            && s.rt.steals == rt.steals + (if s.found.Some? then 1 else 0)
  {
    var v := Victim(rt.ps, p, start, 0);
    if |rt.ps| > 1 && v.Some? {
      assert Halved(rt, Found(rt, p, start).rt, p, v.value, Found(rt, p, start).found.value);
    } else if |rt.ps| > 1 {
      NothingToSteal(rt.ps, p, start);
    }
  }

  lemma FoundRoomy(rt: Runtime, p: nat, start: nat, k: nat)
    requires Linked(rt) && p < |rt.ps| && start < |rt.ps| && k < |rt.ps| && |rt.ps[k].queue| <= LOCAL_CAPACITY
    requires forall v: nat :: v < |rt.ps| ==> ProcessorFine(rt, v)
    ensures |Found(rt, p, start).rt.ps| == |rt.ps| && |Found(rt, p, start).rt.ps[k].queue| <= LOCAL_CAPACITY
  {
    if rt.ps[p].queue == [] && rt.global == [] && |rt.ps| > 1 && Victim(rt.ps, p, start, 0).Some? {
      assert ProcessorFine(rt, Victim(rt.ps, p, start, 0).value);
    }
  }

  lemma FoundBound(rt: Runtime, p: nat, start: nat)
    requires Linked(rt) && p < |rt.ps| && start < |rt.ps|
    ensures var s := Found(rt, p, start).rt;
            |s.ps| == |rt.ps| && s.ms == rt.ms && s.gs == rt.gs && s.completed == rt.completed && s.handoffs == rt.handoffs &&
            forall k :: 0 <= k < |rt.ps| ==> s.ps[k].thread == rt.ps[k].thread
  {
  }
}
