/**
  What the schedulers of pkg/cpu share: the process control block, the phases of a tick
  that are written the same way in every scheduler, and the books those phases keep.
  Processes are named by their position in allProcesses.
 */
module SchedulerCore {
  import opened Collections
  import opened Schedules

  datatype Status = New | Ready | Running | Terminated

  datatype Process = Process(
    arrival: int,
    burst: int,
    remaining: int,
    status: Status,
    start: int,        // -1 until first dispatched
    finish: int,       // -1 until terminated
    waiting: int,
    turnaround: int,
    response: int,
    level: nat,        // CurrentQueue, used by MLFQ
    used: nat          // AllotmentUsed, used by MLFQ
  )

  function NewProcess(arrival: int, burst: int): Process {
    Process(arrival, burst, burst, New, -1, -1, 0, 0, 0, 0, 0)
  }

  /** The fields every scheduler has. */
  datatype Core = Core(
    procs: seq<Process>,
    ready: seq<nat>,
    running: Option<nat>,
    completed: seq<nat>,
    gantt: Schedule,
    switches: nat,
    busy: nat
  )

  predicate Indexed(c: Core) {
    && InRange(c.ready, |c.procs|)
    && InRange(c.completed, |c.procs|)
    && (c.running.Some? ==> c.running.value < |c.procs|)
  }

  function InitialCore(procs: seq<Process>): Core {
    Core(procs, [], None, [], [], 0, 0)
  }

  // ---------------------------------------------------------------------------------------
  // The phases of a tick
  // ---------------------------------------------------------------------------------------

  predicate Arrives(p: Process, now: int) {
    p.arrival == now && p.status == New
  }

  /** Positions below k that arrive at `now`, in order. */
  function Arrivals(procs: seq<Process>, now: int, k: nat): (q: seq<nat>)
    requires k <= |procs|
    ensures InRange(q, k)
  {
    if k == 0 then []
    else Arrivals(procs, now, k - 1) + if Arrives(procs[k-1], now) then [k - 1] else []
  }

  function Admitted(procs: seq<Process>, now: int): (r: seq<Process>)
    ensures |r| == |procs|
  {
    seq(|procs|, i requires 0 <= i < |procs| =>
      if Arrives(procs[i], now) then procs[i].(status := Ready) else procs[i])
  }

  /** One more waiting tick for every entry of the queue. */
  function Aged(procs: seq<Process>, q: seq<nat>): (r: seq<Process>)
    requires InRange(q, |procs|)
    ensures |r| == |procs|
  {
    if q == [] then procs
    else
      var r := Aged(procs, q[..|q|-1]);
      var i := q[|q|-1];
      r[i := r[i].(waiting := r[i].waiting + 1)]
  }

  function Prepared(c: Core, now: int): (c': Core)
    requires Indexed(c)
    ensures Indexed(c') && |c'.procs| == |c.procs|
    ensures c'.gantt == c.gantt && c'.running == c.running
  {
    var ready := c.ready + Arrivals(c.procs, now, |c.procs|);
    c.(procs := Aged(Admitted(c.procs, now), ready), ready := ready)
  }

  /** The running process goes to the back of the ready queue. */
  function Preempted(c: Core): (c': Core)
    requires Indexed(c) && c.running.Some?
    ensures Indexed(c') && |c'.procs| == |c.procs|
  {
    var r := c.running.value;
    c.(procs := c.procs[r := c.procs[r].(status := Ready)], ready := c.ready + [r], running := None)
  }

  /** The head of the ready queue gets the CPU. */
  function Dispatched(c: Core, now: int): (c': Core)
    requires Indexed(c) && c.running.None? && c.ready != []
    ensures Indexed(c') && |c'.procs| == |c.procs|
  {
    var r := c.ready[0];
    c.(procs := c.procs[r := Begun(c.procs[r], now)], ready := c.ready[1..], running := Some(r), switches := c.switches + 1)
  }

  function Begun(p: Process, now: int): Process {
    if p.start == -1 then p.(status := Running, start := now, response := now - p.arrival)
    else p.(status := Running)
  }

  /** The running process, if there is one, uses the tick. */
  function Executed(c: Core, now: int): (c': Core)
    requires Indexed(c)
    ensures Indexed(c') && |c'.procs| == |c.procs|
    ensures c'.gantt == c.gantt + [c.running]
  {
    if c.running.None? then c.(gantt := c.gantt + [None])
    else
      var r := c.running.value;
      var p := c.procs[r].(remaining := c.procs[r].remaining - 1);
      var d := c.(gantt := c.gantt + [Some(r)], busy := c.busy + 1);
      if p.remaining == 0 then
        d.(procs := c.procs[r := p.(status := Terminated, finish := now + 1, turnaround := now + 1 - p.arrival)],
           completed := c.completed + [r], running := None)
      else
        d.(procs := c.procs[r := p])
  }

  // The loops that implement admission and ageing.

  method Admit(procs: seq<Process>, ready: seq<nat>, now: int) returns (procs': seq<Process>, ready': seq<nat>)
    ensures procs' == Admitted(procs, now)
    ensures ready' == ready + Arrivals(procs, now, |procs|)
  {
    procs', ready' := procs, ready;
    for i := 0 to |procs|
      invariant |procs'| == |procs|
      invariant forall j :: 0 <= j < i ==> procs'[j] == Admitted(procs, now)[j]
      invariant forall j :: i <= j < |procs| ==> procs'[j] == procs[j]
      invariant ready' == ready + Arrivals(procs, now, i)
    {
      if procs'[i].arrival == now && procs'[i].status == New {
        procs' := procs'[i := procs'[i].(status := Ready)];
        ready' := ready' + [i];
      }
    }
  }

  method Age(procs: seq<Process>, q: seq<nat>) returns (procs': seq<Process>)
    requires InRange(q, |procs|)
    ensures procs' == Aged(procs, q)
  {
    procs' := procs;
    for k := 0 to |q|
      invariant procs' == Aged(procs, q[..k])
    {
      assert q[..k+1][..k] == q[..k];
      procs' := procs'[q[k] := procs'[q[k]].(waiting := procs'[q[k]].waiting + 1)];
    }
    assert q[..|q|] == q;
  }

  method Preempt(c: Core) returns (c': Core)
    requires Indexed(c) && c.running.Some?
    ensures c' == Preempted(c)
  {
    var r := c.running.value;
    c' := c.(procs := c.procs[r := c.procs[r].(status := Ready)]);
    c' := c'.(ready := c'.ready + [r], running := None);
  }

  method Dispatch(c: Core, now: int) returns (c': Core)
    requires Indexed(c) && c.running.None? && c.ready != []
    ensures c' == Dispatched(c, now)
  {
    var r := c.ready[0];
    c' := c.(running := Some(r), ready := c.ready[1..], switches := c.switches + 1);
    var p := c.procs[r].(status := Running);
    if p.start == -1 {
      p := p.(start := now, response := now - p.arrival);
    }
    c' := c'.(procs := c.procs[r := p]);
  }

  method Execute(c: Core, now: int) returns (c': Core)
    requires Indexed(c)
    ensures c' == Executed(c, now)
  {
    var procs, completed, running := c.procs, c.completed, c.running;
    if running.None? {
      return c.(gantt := c.gantt + [None]);
    }
    var r := running.value;
    procs := procs[r := procs[r].(remaining := procs[r].remaining - 1)];
    if procs[r].remaining == 0 {
      procs := procs[r := procs[r].(status := Terminated, finish := now + 1, turnaround := now + 1 - procs[r].arrival)];
      completed := completed + [r];
      running := None;
    }
    return Core(procs, c.ready, running, completed, c.gantt + [Some(r)], c.switches, c.busy + 1);
  }

  // ---------------------------------------------------------------------------------------
  // The books
  // ---------------------------------------------------------------------------------------

  /** Every process is in exactly one place, the one its status names. */
  ghost predicate Placed(c: Core) {
    && Indexed(c) && Distinct(c.ready) && Distinct(c.completed)
    && forall i: nat :: i < |c.procs| ==>
         && (c.procs[i].status == Ready <==> i in c.ready)
         && (c.procs[i].status == Running <==> c.running == Some(i))
         && (c.procs[i].status == Terminated <==> i in c.completed)
  }

  /** Time in the system is split exactly between waiting and running, except that the tick of
      a dispatch counts as both.  `aged` says whether tick `now` has been charged already. */
  ghost predicate Books(p: Process, now: int, aged: bool) {
    && 0 <= p.arrival && 1 <= p.burst
    && match p.status {
         case New => p.remaining == p.burst && p.waiting == 0 && (if aged then p.arrival > now else p.arrival >= now)
         case Ready => 1 <= p.remaining <= p.burst && (if aged then p.arrival <= now else p.arrival < now) &&
                       p.waiting + p.burst - p.remaining == now - p.arrival + if aged then 1 else 0
         case Running => 1 <= p.remaining <= p.burst && (if aged then p.arrival <= now else p.arrival < now) &&
                         p.waiting + p.burst - p.remaining == now - p.arrival + 1
         case Terminated => p.remaining == 0 && p.arrival < p.finish <= now &&
                            p.turnaround == p.finish - p.arrival && p.waiting + p.burst == p.turnaround + 1
       }
  }

  /** The start field is the first tick that ran the process, and the response time counts up to it. */
  ghost predicate StartNoted(p: Process, i: nat, gantt: Schedule, aged: bool) {
    && (p.start == -1 ==> (p.status == New || p.status == Ready) && Some(i) !in gantt)
    && (p.start != -1 ==> p.status != New && p.response == p.start - p.arrival && 0 <= p.start)
    && (0 <= p.start < |gantt| ==> gantt[p.start] == Some(i) && Some(i) !in gantt[..p.start])
    && (p.start >= |gantt| ==> aged && p.start == |gantt| && p.status == Running && Some(i) !in gantt)
  }

  ghost predicate FinishNoted(p: Process, i: nat, jobs: seq<Job>, gantt: Schedule)
    requires ProperJobs(jobs) && i < |jobs|
  {
    p.status == Terminated ==> Left(jobs, gantt, i) == 0 && p.finish == Finish(jobs, gantt, i)
  }

  /** All that the record of process i must agree with. */
  ghost predicate Noted(p: Process, i: nat, jobs: seq<Job>, gantt: Schedule, now: nat, aged: bool)
    requires ProperJobs(jobs) && i < |jobs|
  {
    && p.arrival == jobs[i].arrival && p.burst == jobs[i].burst
    && Books(p, now, aged)
    && StartNoted(p, i, gantt, aged)
    && p.remaining == Left(jobs, gantt, i)
    && FinishNoted(p, i, jobs, gantt)
  }

  /** Processes are listed as completed in the order of their finishing. */
  ghost predicate FinishOrder(c: Core) {
    && InRange(c.completed, |c.procs|)
    && forall a, b :: 0 <= a < b < |c.completed| ==> c.procs[c.completed[a]].finish < c.procs[c.completed[b]].finish
  }

  ghost predicate Kept(c: Core, jobs: seq<Job>, now: nat, aged: bool) {
    && Placed(c) && FinishOrder(c) && ProperJobs(jobs) && |c.procs| == |jobs| && |c.gantt| == now
    && forall i: nat :: i < |jobs| ==> Noted(c.procs[i], i, jobs, c.gantt, now, aged)
  }

  /** What holds between ticks. */
  ghost predicate Balanced(c: Core, jobs: seq<Job>, now: nat) {
    Kept(c, jobs, now, false) && WorkConserving(jobs, c.gantt)
  }

  /** What holds inside a tick, once the arrivals are admitted and the queue is aged. */
  ghost predicate Mid(c: Core, jobs: seq<Job>, now: nat) {
    Kept(c, jobs, now, true) && WorkConserving(jobs, c.gantt)
  }

  ghost predicate FreshProcs(procs: seq<Process>) {
    forall i :: 0 <= i < |procs| ==>
      0 <= procs[i].arrival && 1 <= procs[i].burst && procs[i] == NewProcess(procs[i].arrival, procs[i].burst)
  }

  ghost function Jobs(procs: seq<Process>): (jobs: seq<Job>)
    ensures |jobs| == |procs|
  {
    seq(|procs|, i requires 0 <= i < |procs| => Job(procs[i].arrival, procs[i].burst))
  }

  lemma JobsProper(procs: seq<Process>)
    requires FreshProcs(procs)
    ensures ProperJobs(Jobs(procs))
  {
  }

  lemma InitialBalanced(procs: seq<Process>)
    requires FreshProcs(procs)
    ensures Balanced(InitialCore(procs), Jobs(procs), 0)
  {
  }

  lemma {:induction false} AgedAt(procs: seq<Process>, q: seq<nat>, i: nat)
    requires InRange(q, |procs|) && Distinct(q) && i < |procs|
    ensures Aged(procs, q)[i] == if i in q then procs[i].(waiting := procs[i].waiting + 1) else procs[i]
  {
    if q != [] {
      var n := |q| - 1;
      assert q == q[..n] + [q[n]];
      AgedAt(procs, q[..n], i);
    }
  }

  lemma {:induction false} ArrivalsAre(procs: seq<Process>, now: int, k: nat)
    requires k <= |procs|
    ensures forall i: nat :: i in Arrivals(procs, now, k) <==> i < k && Arrives(procs[i], now)
    ensures Distinct(Arrivals(procs, now, k))
  {
    if k != 0 { ArrivalsAre(procs, now, k - 1); }
  }

  lemma PreparedQueue(c: Core, now: int)
    requires Placed(c)
    ensures Distinct(Prepared(c, now).ready)
    ensures forall i: nat :: i in Prepared(c, now).ready <==>
              i < |c.procs| && (c.procs[i].status == Ready || Arrives(c.procs[i], now))
  {
    var arr := Arrivals(c.procs, now, |c.procs|);
    ArrivalsAre(c.procs, now, |c.procs|);
    var q := c.ready + arr;
    forall i, j | 0 <= i < j < |q| ensures q[i] != q[j] {
      if i < |c.ready| <= j {
        assert q[i] in c.ready && q[j] in arr;
      }
    }
    forall i: nat ensures i in q <==> i in c.ready || i in arr {
    }
  }

  lemma PreparedAt(c: Core, now: int, i: nat)
    requires Placed(c) && i < |c.procs|
    ensures Prepared(c, now).procs[i] ==
            if Arrives(c.procs[i], now) then c.procs[i].(status := Ready, waiting := c.procs[i].waiting + 1)
            else if c.procs[i].status == Ready then c.procs[i].(waiting := c.procs[i].waiting + 1)
            else c.procs[i]
  {
    var q := c.ready + Arrivals(c.procs, now, |c.procs|);
    PreparedQueue(c, now);
    AgedAt(Admitted(c.procs, now), q, i);
  }

  lemma PreparedPlaced(c: Core, now: int)
    requires Placed(c)
    ensures Placed(Prepared(c, now))
  {
    var d := Prepared(c, now);
    PreparedQueue(c, now);
    forall i: nat | i < |c.procs|
      ensures (d.procs[i].status == Ready <==> i in d.ready) &&
              (d.procs[i].status == Running <==> d.running == Some(i)) &&
              (d.procs[i].status == Terminated <==> i in d.completed)
    {
      PreparedAt(c, now, i);
    }
  }

  lemma PreparedKept(c: Core, jobs: seq<Job>, now: nat)
    requires Balanced(c, jobs, now)
    ensures Mid(Prepared(c, now), jobs, now)
  {
    var d := Prepared(c, now);
    PreparedPlaced(c, now);
    forall i: nat | i < |jobs| ensures Noted(d.procs[i], i, jobs, d.gantt, now, true) {
      PreparedAt(c, now, i);
      assert Noted(c.procs[i], i, jobs, c.gantt, now, false);
    }
  }

  lemma RunningStarted(c: Core, jobs: seq<Job>, now: nat)
    requires Balanced(c, jobs, now)
    ensures c.running.Some? ==> Prepared(c, now).procs[c.running.value].start < now
  {
    if c.running.Some? {
      var r := c.running.value;
      assert Noted(c.procs[r], r, jobs, c.gantt, now, false);
      PreparedAt(c, now, r);
    }
  }

  lemma PreemptedPlaced(c: Core)
    requires Placed(c) && c.running.Some?
    ensures Placed(Preempted(c))
  {
    var d := Preempted(c);
    var r := c.running.value;
    assert c.procs[r].status == Running && r !in c.ready;
    forall i: nat | i < |c.procs| ensures i in d.ready <==> i in c.ready || i == r {
    }
  }

  lemma FinishOrderStays(c: Core, d: Core)
    requires FinishOrder(c) && d.completed == c.completed && |d.procs| == |c.procs|
    requires forall i :: 0 <= i < |c.procs| ==> d.procs[i].finish == c.procs[i].finish
    ensures FinishOrder(d)
  {
  }

  /** Inside a tick, changing one record and keeping it noted keeps the books. */
  lemma OneChanged(c: Core, d: Core, r: nat, jobs: seq<Job>, now: nat)
    requires Mid(c, jobs, now) && Placed(d) && r < |jobs| && d.gantt == c.gantt && |d.procs| == |c.procs|
    requires d.procs == c.procs[r := d.procs[r]] && Noted(d.procs[r], r, jobs, c.gantt, now, true)
    requires d.completed == c.completed && d.procs[r].finish == c.procs[r].finish
    ensures Mid(d, jobs, now)
  {
    hide Placed;
    FinishOrderStays(c, d);
    forall i: nat | i < |jobs| ensures Noted(d.procs[i], i, jobs, d.gantt, now, true) {
      assert Noted(c.procs[i], i, jobs, c.gantt, now, true);
    }
  }

  lemma PreemptedKept(c: Core, jobs: seq<Job>, now: nat)
    requires Mid(c, jobs, now) && c.running.Some? && c.procs[c.running.value].start < now
    ensures Mid(Preempted(c), jobs, now)
  {
    PreemptedPlaced(c);
    var r := c.running.value;
    assert Noted(c.procs[r], r, jobs, c.gantt, now, true) && c.procs[r].status == Running;
    OneChanged(c, Preempted(c), r, jobs, now);
  }

  lemma DispatchedPlaced(c: Core, now: int)
    requires Placed(c) && c.running.None? && c.ready != []
    ensures Placed(Dispatched(c, now))
  {
    var d := Dispatched(c, now);
    var r := c.ready[0];
    assert c.ready == [r] + d.ready;
    forall i: nat | i < |c.procs| ensures i in c.ready <==> i == r || i in d.ready {
    }
    assert r !in d.ready;
  }

  lemma DispatchedKept(c: Core, jobs: seq<Job>, now: nat)
    requires Mid(c, jobs, now) && c.running.None? && c.ready != []
    ensures Mid(Dispatched(c, now), jobs, now)
  {
    DispatchedPlaced(c, now);
    var r := c.ready[0];
    assert r in c.ready;
    assert Noted(c.procs[r], r, jobs, c.gantt, now, true) && c.procs[r].status == Ready;
    OneChanged(c, Dispatched(c, now), r, jobs, now);
  }

  /** The order of the ready queue is no part of the books. */
  lemma ReorderedKept(c: Core, q: seq<nat>, jobs: seq<Job>, now: nat)
    requires Mid(c, jobs, now) && multiset(q) == multiset(c.ready)
    ensures Mid(c.(ready := q), jobs, now)
  {
    MembersOf(c.ready, q);
    forall k | 0 <= k < |q| ensures q[k] < |c.procs| {
      assert q[k] in q;
    }
  }

  /** Inside a tick the jobs in the system are the ready and the running processes. */
  lemma OutstandingIsLive(c: Core, jobs: seq<Job>, now: nat)
    requires Mid(c, jobs, now)
    ensures forall i: nat :: i in Outstanding(jobs, c.gantt) <==> i < |c.procs| && (i in c.ready || c.running == Some(i))
  {
    forall i: nat | i < |c.procs|
      ensures i in Outstanding(jobs, c.gantt) <==> i in c.ready || c.running == Some(i)
    {
      assert Noted(c.procs[i], i, jobs, c.gantt, now, true);
    }
  }

  lemma WorkConservingGrows(jobs: seq<Job>, s: Schedule, x: Option<nat>)
    requires ProperJobs(jobs) && WorkConserving(jobs, s)
    requires if x.None? then Outstanding(jobs, s) == {} else x.value in Outstanding(jobs, s)
    ensures WorkConserving(jobs, s + [x])
  {
    var s' := s + [x];
    forall t | 0 <= t < |s'|
      ensures if s'[t].None? then Outstanding(jobs, s'[..t]) == {} else s'[t].value in Outstanding(jobs, s'[..t])
    {
      if t < |s| { assert s'[..t] == s[..t]; } else { assert s'[..t] == s; }
    }
  }

  lemma LeftGrows(jobs: seq<Job>, s: Schedule, x: Option<nat>, i: nat)
    requires ProperJobs(jobs) && i < |jobs|
    ensures Left(jobs, s + [x], i) ==
            Left(jobs, s, i) - if x == Some(i) && jobs[i].arrival <= |s| && Left(jobs, s, i) > 0 then 1 else 0
    ensures Left(jobs, s, i) == 0 ==> Finish(jobs, s + [x], i) == Finish(jobs, s, i)
    ensures Left(jobs, s, i) == 1 && x == Some(i) && jobs[i].arrival <= |s| ==> Finish(jobs, s + [x], i) == |s| + 1
  {
    assert (s + [x])[..|s|] == s;
  }

  lemma ExecutedPlaced(c: Core, now: int)
    requires Placed(c)
    ensures Placed(Executed(c, now))
  {
    var d := Executed(c, now);
    if c.running.Some? {
      var r := c.running.value;
      assert c.procs[r].status == Running && r !in c.completed;
      forall i: nat | i < |c.procs| ensures d.completed != c.completed ==> (i in d.completed <==> i in c.completed || i == r) {
      }
      forall i: nat | i < |c.procs| && i != r ensures d.procs[i] == c.procs[i] {
      }
    }
  }

  lemma BystanderNoted(p: Process, i: nat, jobs: seq<Job>, s: Schedule, x: Option<nat>)
    requires ProperJobs(jobs) && i < |jobs| && Noted(p, i, jobs, s, |s|, true)
    requires x != Some(i) && p.status != Running
    ensures Noted(p, i, jobs, s + [x], |s| + 1, false)
  {
    LeftGrows(jobs, s, x, i);
    if 0 <= p.start < |s| {
      assert (s + [x])[..p.start] == s[..p.start];
    }
  }

  lemma RunnerNoted(p: Process, p': Process, i: nat, jobs: seq<Job>, s: Schedule)
    requires ProperJobs(jobs) && i < |jobs| && Noted(p, i, jobs, s, |s|, true) && p.status == Running
    requires p' == if p.remaining == 1
                   then p.(remaining := 0, status := Terminated, finish := |s| + 1, turnaround := |s| + 1 - p.arrival)
                   else p.(remaining := p.remaining - 1)
    ensures Noted(p', i, jobs, s + [Some(i)], |s| + 1, false)
  {
    LeftGrows(jobs, s, Some(i), i);
    assert (s + [Some(i)])[..p.start] == s[..p.start];
    assert s[..|s|] == s;
  }

  lemma ExecutedAt(c: Core, jobs: seq<Job>, now: nat, i: nat)
    requires Mid(c, jobs, now) && i < |c.procs|
    ensures Noted(Executed(c, now).procs[i], i, jobs, Executed(c, now).gantt, now + 1, false)
  {
    assert Noted(c.procs[i], i, jobs, c.gantt, now, true);
    if c.running == Some(i) {
      RunnerNoted(c.procs[i], Executed(c, now).procs[i], i, jobs, c.gantt);
    } else {
      BystanderNoted(c.procs[i], i, jobs, c.gantt, c.running);
    }
  }

  lemma ExecutedConserves(c: Core, jobs: seq<Job>, now: nat)
    requires Mid(c, jobs, now) && (c.running.None? ==> c.ready == [])
    ensures WorkConserving(jobs, Executed(c, now).gantt)
  {
    var x := c.running;
    assert Executed(c, now).gantt == c.gantt + [x];
    OutstandingIsLive(c, jobs, now);
    if x.None? {
      assert Outstanding(jobs, c.gantt) == {};
    }
    WorkConservingGrows(jobs, c.gantt, x);
  }

  lemma {:induction false} ExecutedFinish(c: Core, jobs: seq<Job>, now: nat)
    requires Mid(c, jobs, now)
    ensures FinishOrder(Executed(c, now))
  {
    var d := Executed(c, now);
    if c.running.Some? {
      var r := c.running.value;
      assert c.procs[r].status == Running && r !in c.completed;
      forall a | 0 <= a < |c.completed|
        ensures d.procs[c.completed[a]].finish == c.procs[c.completed[a]].finish <= now
      {
        var i := c.completed[a];
        assert i in c.completed && i != r;
        assert Noted(c.procs[i], i, jobs, c.gantt, now, true);
      }
    }
  }

  /** A tick that leaves no ready process idle balances the books. */
  lemma ExecutedKept(c: Core, jobs: seq<Job>, now: nat)
    requires Mid(c, jobs, now) && (c.running.None? ==> c.ready == [])
    ensures Balanced(Executed(c, now), jobs, now + 1)
  {
    hide FinishOrder, WorkConserving;
    var d := Executed(c, now);
    ExecutedPlaced(c, now);
    ExecutedFinish(c, jobs, now);
    ExecutedConserves(c, jobs, now);
    forall i: nat | i < |jobs| ensures Noted(d.procs[i], i, jobs, d.gantt, now + 1, false) {
      ExecutedAt(c, jobs, now, i);
    }
  }

  // ---------------------------------------------------------------------------------------
  // What balanced books say once the work is done
  // ---------------------------------------------------------------------------------------

  ghost predicate AllTerminated(c: Core) {
    forall i :: 0 <= i < |c.procs| ==> c.procs[i].status == Terminated
  }

  lemma DoneIsTerminated(c: Core, jobs: seq<Job>, now: nat)
    requires Balanced(c, jobs, now)
    ensures AllDone(jobs, c.gantt) <==> AllTerminated(c)
  {
    forall i: nat | i < |jobs| ensures Left(jobs, c.gantt, i) == 0 <==> c.procs[i].status == Terminated {
      assert Noted(c.procs[i], i, jobs, c.gantt, now, false);
    }
  }

  /** The completion test of Tick is exact: there are processes and all of them have terminated. */
  lemma CompletionTestExact(c: Core)
    requires Placed(c)
    ensures |c.completed| == |c.procs| <==> AllTerminated(c)
    ensures |c.completed| == |c.procs| && |c.procs| > 0 <==> c.procs != [] && AllTerminated(c)
  {
    var done := Members(c.completed);
    DistinctSize(c.completed);
    assert done <= UpTo(|c.procs|) by {
      forall i | i in done ensures i < |c.procs| {
        var k :| 0 <= k < |c.completed| && c.completed[k] == i;
      }
    }
    if |c.completed| == |c.procs| {
      assert done == UpTo(|c.procs|) by {
        if done != UpTo(|c.procs|) {
          assert done < UpTo(|c.procs|);
          SubsetStrict(done, UpTo(|c.procs|));
        }
      }
      forall i | 0 <= i < |c.procs| ensures c.procs[i].status == Terminated {
        assert i in UpTo(|c.procs|);
      }
    }
    if AllTerminated(c) {
      assert done == UpTo(|c.procs|);
    }
  }

  /** Every process terminates by (last arrival + total burst). */
  lemma TerminatedInTime(c: Core, jobs: seq<Job>, now: nat, last: nat)
    requires Balanced(c, jobs, now) && ArrivedBy(jobs, last) && now >= last + TotalBurst(jobs)
    ensures AllTerminated(c) && |c.completed| == |c.procs|
  {
    WorkConservingFinishes(jobs, c.gantt, last);
    DoneIsTerminated(c, jobs, now);
    CompletionTestExact(c);
  }

  ghost function SumTurnaround(procs: seq<Process>, n: nat): int
    requires n <= |procs|
  {
    if n == 0 then 0 else SumTurnaround(procs, n - 1) + procs[n-1].turnaround
  }

  ghost function SumWaiting(procs: seq<Process>, n: nat): int
    requires n <= |procs|
  {
    if n == 0 then 0 else SumWaiting(procs, n - 1) + procs[n-1].waiting
  }

  ghost function SumBurst(procs: seq<Process>, n: nat): int
    requires n <= |procs|
  {
    if n == 0 then 0 else SumBurst(procs, n - 1) + procs[n-1].burst
  }

  lemma TerminatedRecord(c: Core, jobs: seq<Job>, now: nat, i: nat)
    requires Balanced(c, jobs, now) && i < |jobs| && Left(jobs, c.gantt, i) == 0
    ensures c.procs[i].turnaround == Finish(jobs, c.gantt, i) - jobs[i].arrival
    ensures c.procs[i].waiting + c.procs[i].burst == c.procs[i].turnaround + 1
  {
    assert Noted(c.procs[i], i, jobs, c.gantt, now, false);
  }

  ghost predicate RecordsMatch(procs: seq<Process>, jobs: seq<Job>, s: Schedule)
    requires ProperJobs(jobs) && AllDone(jobs, s) && |procs| == |jobs|
  {
    forall i: nat :: i < |jobs| ==>
      && procs[i].turnaround == Finish(jobs, s, i) - jobs[i].arrival
      && procs[i].waiting + procs[i].burst == procs[i].turnaround + 1
  }

  lemma {:induction false} RecordsSum(procs: seq<Process>, jobs: seq<Job>, s: Schedule, n: nat)
    requires ProperJobs(jobs) && AllDone(jobs, s) && |procs| == |jobs| && RecordsMatch(procs, jobs, s) && n <= |jobs|
    ensures SumTurnaround(procs, n) == TotalTurnaround(jobs, s, n)
  {
    if n != 0 {
      RecordsSum(procs, jobs, s, n - 1);
      assert Left(jobs, s, n - 1) == 0 && procs[n-1].turnaround == Finish(jobs, s, n - 1) - jobs[n-1].arrival;
    }
  }

  lemma {:induction false} WaitingSum(procs: seq<Process>, n: nat)
    requires n <= |procs| && forall i :: 0 <= i < n ==> procs[i].waiting + procs[i].burst == procs[i].turnaround + 1
    ensures SumWaiting(procs, n) == SumTurnaround(procs, n) + n - SumBurst(procs, n)
  {
    if n != 0 { WaitingSum(procs, n - 1); }
  }

  /** The recorded turnaround and waiting times add up to what the schedule really cost. */
  lemma SumsMatch(c: Core, jobs: seq<Job>, now: nat)
    requires Balanced(c, jobs, now) && AllDone(jobs, c.gantt)
    ensures SumTurnaround(c.procs, |jobs|) == TotalTurnaround(jobs, c.gantt, |jobs|)
    ensures SumWaiting(c.procs, |jobs|) == SumTurnaround(c.procs, |jobs|) + |jobs| - SumBurst(c.procs, |jobs|)
  {
    forall i: nat | i < |jobs|
      ensures c.procs[i].turnaround == Finish(jobs, c.gantt, i) - jobs[i].arrival
      ensures c.procs[i].waiting + c.procs[i].burst == c.procs[i].turnaround + 1
    {
      assert Left(jobs, c.gantt, i) == 0;
      TerminatedRecord(c, jobs, now, i);
    }
    assert RecordsMatch(c.procs, jobs, c.gantt);
    RecordsSum(c.procs, jobs, c.gantt, |jobs|);
    WaitingSum(c.procs, |jobs|);
  }
}
