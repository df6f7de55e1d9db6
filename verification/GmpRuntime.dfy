/** The mutable runtime of pkg/cpu/gmp_runtime.go. */
module GmpRuntimes {
  import opened Collections
  import opened Gmp

  /** The first k processors round from `start` are p itself or have nothing to steal. */
  ghost predicate NoneBefore(ps: seq<Processor>, p: nat, start: nat, k: nat)
    requires start < |ps| && k <= |ps|
  {
    forall j :: 0 <= j < k ==> Slot(start, j, |ps|) == p || ps[Slot(start, j, |ps|)].queue == []
  }

  method FindVictim(ps: seq<Processor>, p: nat, start: nat) returns (v: Option<nat>)
    requires start < |ps|
    ensures v == Victim(ps, p, start, 0)
    ensures v.Some? ==> exists k :: 0 <= k < |ps| && v.value == Slot(start, k, |ps|) && NoneBefore(ps, p, start, k)
    ensures v.None? ==> NoneBefore(ps, p, start, |ps|)
  {
    for i := 0 to |ps|
      invariant Victim(ps, p, start, 0) == Victim(ps, p, start, i) && NoneBefore(ps, p, start, i)
    {
      var victim := (start + i) % |ps|;
      assert victim == Slot(start, i, |ps|);
      if victim != p && |ps[victim].queue| > 0 {
        return Some(victim);
      }
    }
    return None;
  }

  method FindRunnableG(rt: Runtime, p: nat, start: nat) returns (s: Search)
    requires Linked(rt) && p < |rt.ps| && start < |rt.ps|
    ensures s == Found(rt, p, start)
  {
    if rt.ps[p].ticks % 61 == 0 && |rt.global| > 0 {
      return Search(rt.(global := rt.global[1..]), Some(rt.global[0]));
    }
    if |rt.ps[p].queue| > 0 {
      var q := rt.ps[p].queue;
      return Search(rt.(ps := rt.ps[p := rt.ps[p].(queue := q[1..])]), Some(q[0]));
    }
    if |rt.global| > 0 {
      return Search(rt.(global := rt.global[1..]), Some(rt.global[0]));
    }
    if |rt.ps| > 1 {
      var v := FindVictim(rt.ps, p, start);
      if v.Some? {
        var q := rt.ps[v.value].queue;
        var count := (|q| + 1) / 2;
        var stolen := q[|q| - count..];
        var ps := rt.ps[v.value := rt.ps[v.value].(queue := q[..|q| - count])];
        assert stolen[1..] == q[|q| - count + 1..];
        ps := ps[p := ps[p].(queue := ps[p].queue + stolen[1..])];
        return Search(rt.(ps := ps, steals := rt.steals + 1), Some(stolen[0]));
      }
    }
    return Search(rt, None);
  }

  method Serve(before: Runtime, p: nat, start: nat) returns (rt: Runtime)
    requires Linked(before) && p < |before.ps| && start < |before.ps|
    ensures rt == Served(before, p, start)
  {
    rt := Clocked(before, p);
    var m := rt.ps[p].thread;
    if rt.ms[m].cur.Some? {
      var c := rt.ms[m].cur.value;
      if rt.gs[c].isSyscall && rt.gs[c].status == Running && rt.gs[c].syscallTicks == 0 {
        return HandedOff(rt, p);
      }
    }
    assert !HandsOff(rt, p);
    WorkedLinked(rt, p);
    rt := Worked(rt, p);
    if rt.ms[rt.ps[p].thread].cur.None? {
      FoundLinked(rt, p, start);
      var s := FindRunnableG(rt, p, start);
      rt := s.rt;
      if s.found.Some? {
        rt := Assigned(rt, p, s.found.value);
      }
    }
  }

  class GmpRuntime {
    var gs: seq<Goroutine>
    var ms: seq<Thread>
    var ps: seq<Processor>
    var global: seq<nat>
    var completed: seq<nat>
    var handoffs: nat
    var steals: nat

    ghost function View(): Runtime
      reads this
    {
      Runtime(gs, ms, ps, global, completed, handoffs, steals)
    }

    constructor (gomaxprocs: int)
      ensures View() == InitialRuntime(gomaxprocs)
    {
      var n := if gomaxprocs <= 0 then 2 else gomaxprocs;
      gs, global, completed, handoffs, steals := [], [], [], 0, 0;
      ms := seq(n, i requires 0 <= i < n => Thread(None, Some(i), false));
      ps := seq(n, i requires 0 <= i < n => Processor([], i, 0));
    }

    method Store(rt: Runtime)
      modifies this
      ensures View() == rt
    {
      gs, ms, ps, global, completed, handoffs, steals :=
        rt.gs, rt.ms, rt.ps, rt.global, rt.completed, rt.handoffs, rt.steals;
    }

    method SpawnGoroutine(work: int, isSyscall: bool) returns (g: nat)
      requires Linked(View())
      modifies this
      ensures View() == Spawned(old(View()), work, isSyscall) && g == |old(gs)|
    {
      g := |gs|;
      gs := gs + [Goroutine(Runnable, work, isSyscall, 0, -1, -1)];
      var target := |gs| % |ps|;
      if |ps[target].queue| < LOCAL_CAPACITY {
        ps := ps[target := ps[target].(queue := ps[target].queue + [g])];
      } else {
        global := global + [g];
      }
    }

    method Step(starts: seq<nat>)
      requires Linked(View()) && |starts| == |ps| && InRange(starts, |ps|)
      modifies this
      ensures View() == Stepped(old(View()), starts)
    {
      hide Served, Woken;
      var rt := Runtime(gs, ms, ps, global, completed, handoffs, steals);
      for p := 0 to |ps|
        invariant rt == ServedAll(old(View()), starts, p)
      {
        rt := Serve(rt, p, starts[p]);
      }
      ghost var s := rt;
      for m := 0 to |rt.ms|
        invariant |rt.ms| == |s.ms| && rt == WokenAll(s, m)
      {
        rt := Woken(rt, m);
      }
      Store(rt);
    }
  }
}
