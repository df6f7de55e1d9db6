/**
  pkg/cpu/gmp_runtime.go: goroutines (G), OS threads (M) and logical processors (P).
  Each is named by its position in AllGs, AllMs and AllPs.  The random start of the steal
  search is a parameter, one for every processor and step.
 */
module Gmp {
  import opened Collections

  datatype Status = Runnable | Running | InSyscall | Dead

  datatype Goroutine = Goroutine(status: Status, work: int, isSyscall: bool, syscallTicks: nat, onM: int, onP: int)

  datatype Thread = Thread(cur: Option<nat>, bound: Option<nat>, blocked: bool)

  datatype Processor = Processor(queue: seq<nat>, thread: nat, ticks: nat)

  datatype Runtime = Runtime(
    gs: seq<Goroutine>,
    ms: seq<Thread>,
    ps: seq<Processor>,
    global: seq<nat>,
    completed: seq<nat>,
    handoffs: nat,
    steals: nat
  )

  const LOCAL_CAPACITY: nat := 256

  /** Every index points somewhere. */
  predicate Linked(rt: Runtime) {
    && |rt.ps| >= 1
    && (forall p :: 0 <= p < |rt.ps| ==> rt.ps[p].thread < |rt.ms| && InRange(rt.ps[p].queue, |rt.gs|))
    && (forall m :: 0 <= m < |rt.ms| ==> rt.ms[m].cur.Some? ==> rt.ms[m].cur.value < |rt.gs|)
    && InRange(rt.global, |rt.gs|) && InRange(rt.completed, |rt.gs|)
  }

  function InitialRuntime(gomaxprocs: int): Runtime {
    var n := if gomaxprocs <= 0 then 2 else gomaxprocs;
    Runtime([], seq(n, i requires 0 <= i < n => Thread(None, Some(i), false)),
            seq(n, i requires 0 <= i < n => Processor([], i, 0)), [], [], 0, 0)
  }

  function Spawned(rt: Runtime, work: int, isSyscall: bool): (rt': Runtime)
    requires Linked(rt)
    ensures Linked(rt')
  {
    var g := |rt.gs|;
    var gs := rt.gs + [Goroutine(Runnable, work, isSyscall, 0, -1, -1)];
    var p := (g + 1) % |rt.ps|;
    if |rt.ps[p].queue| < LOCAL_CAPACITY then
      rt.(gs := gs, ps := rt.ps[p := rt.ps[p].(queue := rt.ps[p].queue + [g])])
    else
      rt.(gs := gs, global := rt.global + [g])
  }

  // ---------------------------------------------------------------------------------------
  // findRunnableG
  // ---------------------------------------------------------------------------------------

  /** Position i of a walk round n processors that begins at `start`: (start + i) % n. */
  function Slot(start: nat, i: nat, n: nat): (v: nat)
    requires start < n && i < n
    ensures v < n && v == (start + i) % n
  {
    if start + i < n then start + i else start + i - n
  }

  /** The first processor from `start` onwards, other than p, that has something to steal. */
  function Victim(ps: seq<Processor>, p: nat, start: nat, i: nat): (v: Option<nat>)
    requires start < |ps| && i <= |ps|
    ensures v.Some? ==> v.value < |ps| && v.value != p && ps[v.value].queue != []
    decreases |ps| - i
  {
    if i == |ps| then None
    else
      var v := Slot(start, i, |ps|);
      if v != p && ps[v].queue != [] then Some(v) else Victim(ps, p, start, i + 1)
  }

  datatype Search = Search(rt: Runtime, found: Option<nat>)

  function FromGlobal(rt: Runtime): Search
    requires rt.global != []
  {
    Search(rt.(global := rt.global[1..]), Some(rt.global[0]))
  }

  function FromLocal(rt: Runtime, p: nat): Search
    requires p < |rt.ps| && rt.ps[p].queue != []
  {
    Search(rt.(ps := rt.ps[p := rt.ps[p].(queue := rt.ps[p].queue[1..])]), Some(rt.ps[p].queue[0]))
  }

  /** p takes the younger half of v's queue, runs the first of it and queues the rest. */
  function Stolen(rt: Runtime, p: nat, v: nat): Search
    requires p < |rt.ps| && v < |rt.ps| && p != v && rt.ps[v].queue != []
  {
    var q := rt.ps[v].queue;
    var keep := |q| - (|q| + 1) / 2;
    var ps := rt.ps[v := rt.ps[v].(queue := q[..keep])];
    Search(rt.(ps := ps[p := ps[p].(queue := ps[p].queue + q[keep+1..])], steals := rt.steals + 1), Some(q[keep]))
  }

  function Found(rt: Runtime, p: nat, start: nat): (s: Search)
    requires Linked(rt) && p < |rt.ps| && start < |rt.ps|
  {
    if rt.ps[p].ticks % 61 == 0 && rt.global != [] then FromGlobal(rt)
    else if rt.ps[p].queue != [] then FromLocal(rt, p)
    else if rt.global != [] then FromGlobal(rt)
    else if |rt.ps| > 1 then
      var v := Victim(rt.ps, p, start, 0);
      if v.Some? then Stolen(rt, p, v.value) else Search(rt, None)
    else Search(rt, None)
  }

  // ---------------------------------------------------------------------------------------
  // Step
  // ---------------------------------------------------------------------------------------

  function Current(rt: Runtime, p: nat): Option<nat>
    requires Linked(rt) && p < |rt.ps|
  {
    rt.ms[rt.ps[p].thread].cur
  }

  predicate HandsOff(rt: Runtime, p: nat)
    requires Linked(rt) && p < |rt.ps|
  {
    var c := Current(rt, p);
    c.Some? && rt.gs[c.value].isSyscall && rt.gs[c.value].status == Running && rt.gs[c.value].syscallTicks == 0
  }

  /** The goroutine blocks its thread in the kernel; the processor gets a new thread. */
  function HandedOff(rt: Runtime, p: nat): (rt': Runtime)
    requires Linked(rt) && p < |rt.ps| && HandsOff(rt, p)
  {
    var m := rt.ps[p].thread;
    var g := rt.ms[m].cur.value;
    rt.(gs := rt.gs[g := rt.gs[g].(status := InSyscall)],
        ms := rt.ms[m := rt.ms[m].(bound := None, blocked := true)] + [Thread(None, Some(p), false)],
        ps := rt.ps[p := rt.ps[p].(thread := |rt.ms|)],
        handoffs := rt.handoffs + 1)
  }

  /** One unit of work, and retirement when none is left. */
  function Worked(rt: Runtime, p: nat): (rt': Runtime)
    requires Linked(rt) && p < |rt.ps|
  {
    var m := rt.ps[p].thread;
    var c := rt.ms[m].cur;
    if c.None? || rt.gs[c.value].status != Running then rt
    else
      var g := rt.gs[c.value].(work := rt.gs[c.value].work - 1);
      if g.work <= 0 then
        rt.(gs := rt.gs[c.value := g.(status := Dead)], completed := rt.completed + [c.value],
            ms := rt.ms[m := rt.ms[m].(cur := None)])
      else rt.(gs := rt.gs[c.value := g])
  }

  function Assigned(rt: Runtime, p: nat, g: nat): (rt': Runtime)
    requires Linked(rt) && p < |rt.ps| && g < |rt.gs|
  {
    var m := rt.ps[p].thread;
    rt.(gs := rt.gs[g := rt.gs[g].(status := Running, onM := m, onP := p)], ms := rt.ms[m := rt.ms[m].(cur := Some(g))])
  }

  function Filled(rt: Runtime, p: nat, start: nat): (rt': Runtime)
    requires Linked(rt) && p < |rt.ps| && start < |rt.ps|
  {
    if Current(rt, p).Some? then rt
    else
      FoundLinked(rt, p, start);
      var s := Found(rt, p, start);
      if s.found.None? then s.rt else Assigned(s.rt, p, s.found.value)
  }

  function Clocked(rt: Runtime, p: nat): (rt': Runtime)
    requires Linked(rt) && p < |rt.ps|
    ensures Linked(rt') && |rt'.ps| == |rt.ps|
  {
    rt.(ps := rt.ps[p := rt.ps[p].(ticks := rt.ps[p].ticks + 1)])
  }

  lemma FoundLinked(rt: Runtime, p: nat, start: nat)
    requires Linked(rt) && p < |rt.ps| && start < |rt.ps|
    ensures Linked(Found(rt, p, start).rt)
    ensures |Found(rt, p, start).rt.ps| == |rt.ps|
    ensures Found(rt, p, start).rt.gs == rt.gs && Found(rt, p, start).rt.ms == rt.ms
    ensures Found(rt, p, start).found.Some? ==> Found(rt, p, start).found.value < |rt.gs|
  {
  }

  lemma WorkedLinked(rt: Runtime, p: nat)
    requires Linked(rt) && p < |rt.ps|
    ensures Linked(Worked(rt, p)) && Worked(rt, p).ps == rt.ps && |Worked(rt, p).gs| == |rt.gs|
  {
  }

  lemma FilledLinked(rt: Runtime, p: nat, start: nat)
    requires Linked(rt) && p < |rt.ps| && start < |rt.ps|
    ensures Linked(Filled(rt, p, start)) && |Filled(rt, p, start).ps| == |rt.ps| && |Filled(rt, p, start).gs| == |rt.gs|
  {
    FoundLinked(rt, p, start);
  }

  lemma HandedOffLinked(rt: Runtime, p: nat)
    requires Linked(rt) && p < |rt.ps| && HandsOff(rt, p)
    ensures Linked(HandedOff(rt, p)) && |HandedOff(rt, p).ps| == |rt.ps| && |HandedOff(rt, p).gs| == |rt.gs|
  {
  }

  /** What one step does for processor p. */
  function Served(rt: Runtime, p: nat, start: nat): (rt': Runtime)
    requires Linked(rt) && p < |rt.ps| && start < |rt.ps|
    ensures Linked(rt') && |rt'.ps| == |rt.ps| && |rt'.gs| == |rt.gs|
  {
    var t := Clocked(rt, p);
    if HandsOff(t, p) then
      HandedOffLinked(t, p);
      HandedOff(t, p)
    else
      WorkedLinked(t, p);
      FilledLinked(Worked(t, p), p, start);
      Filled(Worked(t, p), p, start)
  }

  function ServedAll(rt: Runtime, starts: seq<nat>, k: nat): (rt': Runtime)
    requires Linked(rt) && k <= |rt.ps| && |starts| == |rt.ps| && InRange(starts, |rt.ps|)
    ensures Linked(rt') && |rt'.ps| == |rt.ps| && |rt'.gs| == |rt.gs|
  {
    if k == 0 then rt else Served(ServedAll(rt, starts, k - 1), k - 1, starts[k-1])
  }

  /** Thread m spends a tick in its system call, if it is in one, and returns from it after three. */
  function Woken(rt: Runtime, m: nat): (rt': Runtime)
    requires Linked(rt) && m < |rt.ms|
    ensures Linked(rt') && rt'.ps == rt.ps && |rt'.gs| == |rt.gs| && |rt'.ms| == |rt.ms|
  {
    if !rt.ms[m].blocked || rt.ms[m].cur.None? then rt
    else
      var c := rt.ms[m].cur.value;
      var g := rt.gs[c].(syscallTicks := rt.gs[c].syscallTicks + 1);
      if g.syscallTicks >= 3 then
        rt.(gs := rt.gs[c := g.(status := Runnable, isSyscall := false)], global := rt.global + [c],
            ms := rt.ms[m := rt.ms[m].(blocked := false, cur := None)])
      else rt.(gs := rt.gs[c := g])
  }

  function WokenAll(rt: Runtime, k: nat): (rt': Runtime)
    requires Linked(rt) && k <= |rt.ms|
    ensures Linked(rt') && rt'.ps == rt.ps && |rt'.gs| == |rt.gs| && |rt'.ms| == |rt.ms|
  {
    if k == 0 then rt else Woken(WokenAll(rt, k - 1), k - 1)
  }

  function Stepped(rt: Runtime, starts: seq<nat>): (rt': Runtime)
    requires Linked(rt) && |starts| == |rt.ps| && InRange(starts, |rt.ps|)
    ensures Linked(rt') && |rt'.ps| == |rt.ps| && |rt'.gs| == |rt.gs|
  {
    var s := ServedAll(rt, starts, |rt.ps|);
    WokenAll(s, |s.ms|)
  }
}
