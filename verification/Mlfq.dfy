/** pkg/cpu/sched_mlfq.go: the multi-level feedback queue with its three default levels. */
module Mlfq {
  import opened Arithmetic
  import opened Collections
  import opened Schedules
  import opened SchedulerCore

  datatype MlfqState = MlfqState(
    procs: seq<Process>,
    queues: seq<seq<nat>>,
    running: Option<nat>,
    slice: nat,
    period: nat,
    sinceBoost: nat,
    completed: seq<nat>,
    gantt: Schedule,
    switches: nat,
    busy: nat,
    boosts: seq<nat>
  )

  function Quantum(level: nat): nat
    requires level < 3
  {
    [2, 4, 8][level]
  }

  function Allotment(level: nat): nat
    requires level < 3
  {
    [4, 8, 16][level]
  }

  function Flat(q: seq<seq<nat>>): seq<nat>
    requires |q| == 3
  {
    q[0] + q[1] + q[2]
  }

  lemma FlatRange(q: seq<seq<nat>>, n: nat)
    requires |q| == 3
    ensures InRange(Flat(q), n) <==> InRange(q[0], n) && InRange(q[1], n) && InRange(q[2], n)
  {
    if InRange(Flat(q), n) {
      forall k | 0 <= k < |q[0]| ensures q[0][k] < n { assert Flat(q)[k] == q[0][k]; }
      forall k | 0 <= k < |q[1]| ensures q[1][k] < n { assert Flat(q)[|q[0]| + k] == q[1][k]; }
      forall k | 0 <= k < |q[2]| ensures q[2][k] < n { assert Flat(q)[|q[0]| + |q[1]| + k] == q[2][k]; }
    }
  }

  /** The scheduler with its queues read as one, highest level first. */
  function Base(m: MlfqState): Core
    requires |m.queues| == 3
  {
    Core(m.procs, Flat(m.queues), m.running, m.completed, m.gantt, m.switches, m.busy)
  }

  predicate Shaped(m: MlfqState) {
    && |m.queues| == 3 && 1 <= m.period
    && Indexed(Base(m))
    && Levelled(m.procs, Flat(m.queues))
    && (m.running.Some? ==> m.procs[m.running.value].level < 3)
  }

  /** Every entry of the queue is at one of the three levels. */
  predicate Levelled(procs: seq<Process>, q: seq<nat>)
    requires InRange(q, |procs|)
  {
    forall k :: 0 <= k < |q| ==> procs[q[k]].level < 3
  }

  function InitialMlfq(procs: seq<Process>, period: int): MlfqState {
    MlfqState(procs, [[], [], []], None, 0, if period <= 0 then 50 else period, 0, [], [], 0, 0, [])
  }

  // ---------------------------------------------------------------------------------------
  // The phases of a tick
  // ---------------------------------------------------------------------------------------

  predicate SameClock(m: MlfqState, m': MlfqState) {
    m'.period == m.period && m'.sinceBoost == m.sinceBoost && m'.boosts == m.boosts
  }

  /** Back to the top level with a fresh allotment, for every entry of the queue. */
  function Reset(procs: seq<Process>, q: seq<nat>): (r: seq<Process>)
    requires InRange(q, |procs|)
    ensures |r| == |procs|
  {
    if q == [] then procs
    else
      var r := Reset(procs, q[..|q|-1]);
      var i := q[|q|-1];
      r[i := r[i].(level := 0, used := 0)]
  }

  lemma {:induction false} ResetAt(procs: seq<Process>, q: seq<nat>, i: nat)
    requires InRange(q, |procs|) && i < |procs|
    ensures Reset(procs, q)[i] == if i in q then procs[i].(level := 0, used := 0) else procs[i]
  {
    if q != [] {
      var n := |q| - 1;
      assert q == q[..n] + [q[n]];
      ResetAt(procs, q[..n], i);
    }
  }

  function Held(r: Option<nat>): seq<nat> {
    if r.Some? then [r.value] else []
  }

  /** Rule 5. */
  function Boosted(m: MlfqState, now: nat): (m': MlfqState)
    requires Shaped(m)
    ensures |m'.queues| == 3 && Flat(m'.queues) == Flat(m.queues) && |m'.procs| == |m.procs|
    ensures m'.running == m.running && m'.gantt == m.gantt && m'.completed == m.completed
    ensures m'.slice == m.slice && m'.period == m.period
    ensures m'.sinceBoost == (if m.sinceBoost + 1 < m.period then m.sinceBoost + 1 else 0)
    ensures m'.boosts == (if m.sinceBoost + 1 < m.period then m.boosts else m.boosts + [now])
  {
    if m.sinceBoost + 1 < m.period then m.(sinceBoost := m.sinceBoost + 1)
    else
      var all := Flat(m.queues);
      m.(sinceBoost := 0, boosts := m.boosts + [now], queues := [all, [], []],
         procs := Reset(Reset(m.procs, all), Held(m.running)))
  }

  /** Rule 3, and one more waiting tick for everything that is queued. */
  function Entered(m: MlfqState, now: nat): (m': MlfqState)
    requires |m.queues| == 3 && Indexed(Base(m))
    ensures |m'.queues| == 3 && |m'.procs| == |m.procs| && m' == m.(procs := m'.procs, queues := m'.queues)
    ensures Indexed(Base(m'))
  {
    var arr := Arrivals(m.procs, now, |m.procs|);
    var queues := m.queues[0 := m.queues[0] + arr];
    FlatRange(m.queues, |m.procs|);
    FlatRange(queues, |m.procs|);
    m.(procs := Aged(Reset(Admitted(m.procs, now), arr), Flat(queues)), queues := queues)
  }

  lemma PushLevelled(procs: seq<Process>, q: seq<seq<nat>>, p: Process, r: nat)
    requires |q| == 3 && InRange(Flat(q), |procs|) && Levelled(procs, Flat(q)) && p.level < 3 && r < |procs|
    ensures var q' := q[p.level := q[p.level] + [r]];
            InRange(Flat(q'), |procs|) && Levelled(procs[r := p.(status := Ready)], Flat(q'))
  {
    var q' := q[p.level := q[p.level] + [r]];
    FlatRange(q, |procs|);
    FlatRange(q', |procs|);
    forall k | 0 <= k < |Flat(q')| && Flat(q')[k] != r
      ensures procs[Flat(q')[k]].level < 3
    {
      var i := Flat(q')[k];
      assert i in q'[0] || i in q'[1] || i in q'[2];
      assert i in Flat(q);
    }
  }

  function Requeued(m: MlfqState, p: Process): (m': MlfqState)
    requires Shaped(m) && m.running.Some? && p.level < 3
    ensures Shaped(m') && |m'.procs| == |m.procs| && m'.gantt == m.gantt && m'.running.None? && SameClock(m, m')
  {
    var r := m.running.value;
    var queues := m.queues[p.level := m.queues[p.level] + [r]];
    FlatRange(m.queues, |m.procs|);
    FlatRange(queues, |m.procs|);
    PushLevelled(m.procs, m.queues, p, r);
    m.(procs := m.procs[r := p.(status := Ready)], queues := queues, running := None, slice := 0)
  }

  /** Rules 4 and 2: a used-up allotment moves the process down, a used-up quantum to the back. */
  function Expired(m: MlfqState): (m': MlfqState)
    requires Shaped(m)
    ensures Shaped(m') && |m'.procs| == |m.procs| && m'.gantt == m.gantt && SameClock(m, m')
  {
    if m.running.None? then m
    else
      var p := m.procs[m.running.value];
      if p.used >= Allotment(p.level) then
        Requeued(m, p.(level := if p.level < 2 then p.level + 1 else p.level, used := 0))
      else if m.slice >= Quantum(p.level) then Requeued(m, p)
      else m
  }

  function Popped(q: seq<seq<nat>>): (q': seq<seq<nat>>)
    requires |q| == 3 && Flat(q) != []
    ensures |q'| == 3 && Flat(q') == Flat(q)[1..]
  {
    if q[0] != [] then q[0 := q[0][1..]]
    else if q[1] != [] then q[1 := q[1][1..]]
    else q[2 := q[2][1..]]
  }

  /** Rule 1, at a dispatch. */
  function Chosen(m: MlfqState, now: nat): (m': MlfqState)
    requires Shaped(m)
    ensures Shaped(m') && |m'.procs| == |m.procs| && m'.gantt == m.gantt && SameClock(m, m')
  {
    if m.running.Some? || Flat(m.queues) == [] then m
    else
      var r := Flat(m.queues)[0];
      m.(procs := m.procs[r := Begun(m.procs[r], now)], queues := Popped(m.queues),
         running := Some(r), slice := 0, switches := m.switches + 1)
  }

  function Used(m: MlfqState, now: nat): (m': MlfqState)
    requires Shaped(m)
    ensures Shaped(m') && |m'.procs| == |m.procs| && m'.gantt == m.gantt + [m.running] && SameClock(m, m')
  {
    var d := Executed(Base(m), now);
    if m.running.None? then m.(gantt := d.gantt)
    else
      var r := m.running.value;
      m.(procs := d.procs[r := d.procs[r].(used := d.procs[r].used + 1)], running := d.running,
         completed := d.completed, gantt := d.gantt, busy := d.busy, slice := if d.running.None? then 0 else m.slice + 1)
  }

  lemma PreparedShaped(m: MlfqState, now: nat)
    requires Shaped(m)
    ensures Shaped(Boosted(m, now)) && Shaped(Entered(Boosted(m, now), now))
  {
    var b := Boosted(m, now);
    forall i: nat | i < |m.procs|
      ensures b.procs[i].level == m.procs[i].level || b.procs[i].level == 0
    {
      ResetAt(m.procs, Flat(m.queues), i);
      ResetAt(Reset(m.procs, Flat(m.queues)), Held(m.running), i);
    }
    assert Shaped(b);
    EnteredShaped(b, now);
  }

  lemma EnteredShaped(b: MlfqState, now: nat)
    requires Shaped(b)
    ensures Shaped(Entered(b, now))
  {
    var e, arr := Entered(b, now), Arrivals(b.procs, now, |b.procs|);
    forall i: nat | i < |b.procs|
      ensures e.procs[i].level == if i in arr then 0 else b.procs[i].level
    {
      ResetAt(Admitted(b.procs, now), arr, i);
      AgedLevel(Reset(Admitted(b.procs, now), arr), Flat(e.queues), i);
    }
    forall k | 0 <= k < |Flat(e.queues)|
      ensures e.procs[Flat(e.queues)[k]].level < 3
    {
      var i := Flat(e.queues)[k];
      assert i in e.queues[0] || i in e.queues[1] || i in e.queues[2];
      assert i in arr || i in Flat(b.queues);
    }
  }

  lemma {:induction false} AgedLevel(procs: seq<Process>, q: seq<nat>, i: nat)
    requires InRange(q, |procs|) && i < |procs|
    ensures Aged(procs, q)[i] == procs[i].(waiting := Aged(procs, q)[i].waiting)
  {
    if q != [] { AgedLevel(procs, q[..|q|-1], i); }
  }

  function MlfqTick(m: MlfqState, now: nat): (m': MlfqState)
    requires Shaped(m)
    ensures Shaped(m') && |m'.procs| == |m.procs| && SameClock(Boosted(m, now), m') && |m'.gantt| == |m.gantt| + 1
  {
    PreparedShaped(m, now);
    Used(Chosen(Expired(Entered(Boosted(m, now), now)), now), now)
  }

  /** The ticks t below n with (t + 1) divisible by the period. */
  function BoostTicks(n: nat, period: nat): seq<nat>
    requires period >= 1
  {
    if n == 0 then []
    else BoostTicks(n - 1, period) + if n % period == 0 then [n - 1] else []
  }

  lemma ClockStep(n: nat, period: nat)
    requires period >= 1
    ensures (n + 1) % period == if n % period + 1 < period then n % period + 1 else 0
  {
    var q, r := n / period, n % period;
    if r + 1 < period {
      ModUnique(n + 1, period, q, r + 1);
    } else {
      assert (q + 1) * period == q * period + period;
      ModUnique(n + 1, period, q + 1, 0);
    }
  }

  /** After n ticks: the counter and the boosts so far. */
  predicate OnSchedule(sinceBoost: nat, boosts: seq<nat>, period: nat, n: nat)
    requires period >= 1
  {
    sinceBoost == n % period && boosts == BoostTicks(n, period)
  }

  lemma OnScheduleStep(sinceBoost: nat, boosts: seq<nat>, period: nat, n: nat)
    requires period >= 1 && OnSchedule(sinceBoost, boosts, period, n)
    ensures sinceBoost + 1 < period ==> OnSchedule(sinceBoost + 1, boosts, period, n + 1)
    ensures sinceBoost + 1 >= period ==> OnSchedule(0, boosts + [n], period, n + 1)
  {
    ClockStep(n, period);
  }

  /** The state after ticks 0, 1, ..., n-1. */
  function MlfqRun(procs: seq<Process>, period: int, n: nat): (m: MlfqState)
    requires FreshProcs(procs)
    ensures Shaped(m) && |m.procs| == |procs| && |m.gantt| == n
    ensures m.period == if period <= 0 then 50 else period
  {
    if n == 0 then InitialMlfq(procs, period) else MlfqTick(MlfqRun(procs, period, n - 1), n - 1)
  }

  lemma ClockRuns(m: MlfqState, m': MlfqState, now: nat)
    requires m.period >= 1 && OnSchedule(m.sinceBoost, m.boosts, m.period, now)
    requires Shaped(m) && SameClock(Boosted(m, now), m')
    ensures m'.period == m.period && OnSchedule(m'.sinceBoost, m'.boosts, m'.period, now + 1)
  {
    OnScheduleStep(m.sinceBoost, m.boosts, m.period, now);
  }

  /** Boosts happen at exactly every period-th tick, whatever the processes do. */
  lemma {:induction false} BoostsOnSchedule(procs: seq<Process>, period: int, n: nat)
    requires FreshProcs(procs)
    ensures var m := MlfqRun(procs, period, n); OnSchedule(m.sinceBoost, m.boosts, m.period, n)
  {
    if n != 0 {
      BoostsOnSchedule(procs, period, n - 1);
      ClockRuns(MlfqRun(procs, period, n - 1), MlfqRun(procs, period, n), n - 1);
    }
  }

  // ---------------------------------------------------------------------------------------
  // The scheduler
  // ---------------------------------------------------------------------------------------

  method ResetAll(procs: seq<Process>, q: seq<nat>) returns (procs': seq<Process>)
    requires InRange(q, |procs|)
    ensures procs' == Reset(procs, q)
  {
    procs' := procs;
    for k := 0 to |q|
      invariant procs' == Reset(procs, q[..k])
    {
      assert q[..k+1][..k] == q[..k];
      procs' := procs'[q[k] := procs'[q[k]].(level := 0, used := 0)];
    }
    assert q[..|q|] == q;
  }

  lemma {:induction false} AgedConcat(procs: seq<Process>, a: seq<nat>, b: seq<nat>)
    requires InRange(a, |procs|) && InRange(b, |procs|)
    ensures Aged(procs, a + b) == Aged(Aged(procs, a), b)
  {
    if b == [] {
      assert a + b == a;
    } else {
      var n := |b| - 1;
      assert (a + b)[..|a + b|-1] == a + b[..n];
      AgedConcat(procs, a, b[..n]);
    }
  }

  /** Collects the queues, highest level first. */
  method Collect(queues: seq<seq<nat>>) returns (all: seq<nat>)
    requires |queues| == 3
    ensures all == Flat(queues)
  {
    all := [];
    for q := 0 to 3
      invariant all == if q == 0 then [] else if q == 1 then queues[0]
                       else if q == 2 then queues[0] + queues[1] else Flat(queues)
    {
      all := all + queues[q];
    }
  }

  method AgeQueues(procs: seq<Process>, queues: seq<seq<nat>>) returns (procs': seq<Process>)
    requires |queues| == 3 && InRange(Flat(queues), |procs|)
    ensures procs' == Aged(procs, Flat(queues))
  {
    FlatRange(queues, |procs|);
    AgedConcat(procs, queues[0], queues[1]);
    AgedConcat(procs, queues[0] + queues[1], queues[2]);
    procs' := procs;
    for q := 0 to 3
      invariant |procs'| == |procs|
      invariant procs' == if q == 0 then procs else if q == 1 then Aged(procs, queues[0])
                          else if q == 2 then Aged(procs, queues[0] + queues[1]) else Aged(procs, Flat(queues))
    {
      procs' := Age(procs', queues[q]);
    }
  }

  /** The first level with a waiting process, or 3. */
  method Highest(queues: seq<seq<nat>>) returns (q: nat)
    requires |queues| == 3
    ensures q <= 3 && (q == 3 <==> Flat(queues) == [])
    ensures forall k :: 0 <= k < q ==> queues[k] == []
    ensures q < 3 ==> queues[q] != [] && Flat(queues)[0] == queues[q][0] && Popped(queues) == queues[q := queues[q][1..]]
  {
    q := 0;
    while q < 3 && queues[q] == []
      invariant q <= 3 && forall k :: 0 <= k < q ==> queues[k] == []
    {
      q := q + 1;
    }
    if q < 3 {
      assert Flat(queues)[0] == queues[q][0];
    }
  }

  class MlfqScheduler {
    const period: nat
    var procs: seq<Process>
    var queues: seq<seq<nat>>
    var running: Option<nat>
    var slice: nat
    var sinceBoost: nat
    var completed: seq<nat>
    var gantt: Schedule
    var switches: nat
    var busy: nat
    var boosts: seq<nat>
    var total: nat

    ghost function View(): MlfqState
      reads this
    {
      MlfqState(procs, queues, running, slice, period, sinceBoost, completed, gantt, switches, busy, boosts)
    }

    constructor (boostPeriod: int)
      ensures View() == InitialMlfq([], boostPeriod)
    {
      period := if boostPeriod <= 0 then 50 else boostPeriod;
      procs, queues, running, slice, sinceBoost := [], [[], [], []], None, 0, 0;
      completed, gantt, switches, busy, boosts, total := [], [], 0, 0, [], 0;
    }

    method AddProcess(p: Process)
      requires Shaped(View())
      modifies this`procs
      ensures View() == old(View()).(procs := old(procs) + [p]) && Shaped(View())
    {
      procs := procs + [p];
    }

    method Boost(now: nat)
      requires Shaped(View())
      modifies this
      ensures View() == Boosted(old(View()), now) && total == old(total)
    {
      hide Levelled;
      sinceBoost := sinceBoost + 1;
      if sinceBoost >= period {
        boosts := boosts + [now];
        sinceBoost := 0;
        var all := Collect(queues);
        procs := ResetAll(procs, all);
        queues := [all, [], []];
        if running.Some? {
          procs := ResetAll(procs, [running.value]);
        }
      }
    }

    method Enter(now: nat)
      requires Shaped(View())
      modifies this
      ensures View() == Entered(old(View()), now) && total == old(total)
    {
      var arrived;
      FlatRange(queues, |procs|);
      procs, arrived := Admit(procs, [], now);
      assert arrived == Arrivals(old(procs), now, |old(procs)|);
      procs := ResetAll(procs, arrived);
      queues := queues[0 := queues[0] + arrived];
      FlatRange(queues, |procs|);
      procs := AgeQueues(procs, queues);
    }

    method Requeue(p: Process)
      requires Shaped(View()) && running.Some? && p.level < 3
      modifies this
      ensures View() == Requeued(old(View()), p) && total == old(total)
    {
      procs := procs[running.value := p.(status := Ready)];
      queues := queues[p.level := queues[p.level] + [running.value]];
      running := None;
      slice := 0;
    }

    method Expire()
      requires Shaped(View())
      modifies this
      ensures View() == Expired(old(View())) && total == old(total)
    {
      if running.Some? {
        var p := procs[running.value];
        if p.used >= Allotment(p.level) {
          if p.level < 2 {
            p := p.(level := p.level + 1);
          }
          p := p.(used := 0);
          Requeue(p);
        } else if slice >= Quantum(p.level) {
          Requeue(p);
        }
      }
    }

    method Choose(now: nat)
      requires Shaped(View())
      modifies this
      ensures View() == Chosen(old(View()), now) && total == old(total)
    {
      if running.None? {
        var q := Highest(queues);
        if q < 3 {
          var r := queues[q][0];
          queues := queues[q := queues[q][1..]];
          running := Some(r);
          slice := 0;
          switches := switches + 1;
          procs := procs[r := Begun(procs[r], now)];
        }
      }
    }

    method Use(now: nat)
      requires Shaped(View())
      modifies this
      ensures View() == Used(old(View()), now) && total == old(total)
    {
      hide Levelled;
      var c := Execute(Core(procs, Flat(queues), running, completed, gantt, switches, busy), now);
      procs := c.procs;
      if running.Some? {
        slice := if c.running.None? then 0 else slice + 1;
        procs := procs[running.value := procs[running.value].(used := procs[running.value].used + 1)];
      }
      running, completed, gantt, busy := c.running, c.completed, c.gantt, c.busy;
    }

    method Tick(now: nat) returns (current: Option<nat>, allDone: bool)
      requires Shaped(View())
      modifies this
      ensures View() == MlfqTick(old(View()), now) && total == now + 1
      ensures current == running
      ensures allDone <==> |completed| == |procs| && |procs| > 0
    {
      hide Boosted, Entered, Expired, Chosen, Used;
      total := now + 1;
      PreparedShaped(View(), now);
      Boost(now);
      Enter(now);
      Expire();
      Choose(now);
      Use(now);
      current, allDone := running, |completed| == |procs| && |procs| > 0;
    }
  }
}
