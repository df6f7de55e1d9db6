/**
  AddProcess between ticks.  A tick does not look at a process that does not arrive in it, so a
  process added in time might as well have been there from the start, and one added after its
  arrival tick is never admitted.
 */
module Additions {
  import opened Collections
  import opened Schedules
  import opened SchedulerCore
  import opened ShortestJob
  import RR = RoundRobin
  import MQ = Mlfq

  // ---------------------------------------------------------------------------------------
  // The phases of a tick and one more process
  // ---------------------------------------------------------------------------------------

  function Grown(c: Core, p: Process): (c': Core)
    ensures Indexed(c) ==> Indexed(c')
  {
    c.(procs := c.procs + [p])
  }

  lemma {:induction false} ArrivalsGrown(procs: seq<Process>, p: Process, now: int, k: nat)
    requires k <= |procs|
    ensures Arrivals(procs + [p], now, k) == Arrivals(procs, now, k)
  {
    if k > 0 {
      ArrivalsGrown(procs, p, now, k - 1);
    }
  }

  lemma {:induction false} AgedGrown(procs: seq<Process>, p: Process, q: seq<nat>)
    requires InRange(q, |procs|)
    ensures Aged(procs + [p], q) == Aged(procs, q) + [p]
  {
    if q != [] {
      AgedGrown(procs, p, q[..|q| - 1]);
    }
  }

  lemma PreparedGrown(c: Core, p: Process, now: int)
    requires Indexed(c) && !Arrives(p, now)
    ensures Prepared(Grown(c, p), now) == Grown(Prepared(c, now), p)
  {
    var n := |c.procs|;
    ArrivalsGrown(c.procs, p, now, n);
    assert Arrivals(c.procs + [p], now, n + 1) == Arrivals(c.procs, now, n);
    assert Admitted(c.procs + [p], now) == Admitted(c.procs, now) + [p];
    AgedGrown(Admitted(c.procs, now), p, c.ready + Arrivals(c.procs, now, n));
  }

  lemma PreemptedGrown(c: Core, p: Process)
    requires Indexed(c) && c.running.Some?
    ensures Preempted(Grown(c, p)) == Grown(Preempted(c), p)
  {
  }

  lemma DispatchedGrown(c: Core, p: Process, now: int)
    requires Indexed(c) && c.running.None? && c.ready != []
    ensures Dispatched(Grown(c, p), now) == Grown(Dispatched(c, now), p)
  {
  }

  lemma ExecutedGrown(c: Core, p: Process, now: int)
    requires Indexed(c)
    ensures Executed(Grown(c, p), now) == Grown(Executed(c, now), p)
  {
  }

  lemma {:induction false} InsertGrown(q: seq<nat>, x: nat, key: seq<int>, k: int)
    requires Sorted(q, key) && x < |key|
    ensures Sorted(q, key + [k]) && Insert(q, x, key + [k]) == Insert(q, x, key)
  {
    if !(q == [] || key[q[|q| - 1]] <= key[x]) {
      InsertGrown(q[..|q| - 1], x, key, k);
    }
  }

  lemma {:induction false} SortGrown(q: seq<nat>, key: seq<int>, k: int)
    requires InRange(q, |key|)
    ensures StableSort(q, key + [k]) == StableSort(q, key)
  {
    if q != [] {
      var n := |q| - 1;
      SortGrown(q[..n], key, k);
      InsertGrown(StableSort(q[..n], key), q[n], key, k);
    }
  }

  // ---------------------------------------------------------------------------------------
  // A tick and one more process
  // ---------------------------------------------------------------------------------------

  lemma StcfTickGrown(c: Core, p: Process, now: int)
    requires Indexed(c) && !Arrives(p, now)
    ensures StcfTick(Grown(c, p), now) == Grown(StcfTick(c, now), p)
  {
    PreparedGrown(c, p, now);
    StcfChosenGrown(Prepared(c, now), p, now);
    ExecutedGrown(StcfChosen(Prepared(c, now), now), p, now);
  }

  lemma StcfChosenGrown(c: Core, p: Process, now: int)
    requires Indexed(c)
    ensures StcfChosen(Grown(c, p), now) == Grown(StcfChosen(c, now), p)
  {
    if c.ready != [] {
      assert Remainings(c.procs + [p]) == Remainings(c.procs) + [p.remaining];
      SortGrown(c.ready, Remainings(c.procs), p.remaining);
      SortHead(c.ready, Remainings(c.procs));
      var d := c.(ready := StableSort(c.ready, Remainings(c.procs)));
      if c.running.None? {
        DispatchedGrown(d, p, now);
      } else {
        PreemptedGrown(d, p);
        DispatchedGrown(Preempted(d), p, now);
      }
    }
  }

  lemma SjfTickGrown(c: Core, p: Process, now: int)
    requires Indexed(c) && !Arrives(p, now)
    ensures SjfTick(Grown(c, p), now) == Grown(SjfTick(c, now), p)
  {
    var m := Prepared(c, now);
    PreparedGrown(c, p, now);
    if m.running.None? && m.ready != [] {
      assert Bursts(m.procs + [p]) == Bursts(m.procs) + [p.burst];
      SortGrown(m.ready, Bursts(m.procs), p.burst);
      SortHead(m.ready, Bursts(m.procs));
      DispatchedGrown(m.(ready := StableSort(m.ready, Bursts(m.procs))), p, now);
    }
    ExecutedGrown(SjfChosen(m, now), p, now);
  }

  function RrGrown(s: RR.RrState, p: Process): (s': RR.RrState)
    ensures Indexed(s.core) ==> Indexed(s'.core)
  {
    s.(core := Grown(s.core, p))
  }

  lemma RrTickGrown(s: RR.RrState, p: Process, now: int)
    requires Indexed(s.core) && !Arrives(p, now)
    ensures RR.RrTick(RrGrown(s, p), now) == RrGrown(RR.RrTick(s, now), p)
  {
    hide Prepared, Preempted, Dispatched, Executed, RR.SliceCounts, RR.SliceRoom;
    var m := s.(core := Prepared(s.core, now));
    PreparedGrown(s.core, p, now);
    if m.core.running.Some? {
      PreemptedGrown(m.core, p);
    }
    var e := RR.Expired(m);
    if e.core.running.None? && e.core.ready != [] {
      DispatchedGrown(e.core, p, now);
    }
    ExecutedGrown(RR.RrChosen(m, now).core, p, now);
  }

  function MqGrown(m: MQ.MlfqState, p: Process): (m': MQ.MlfqState)
    ensures MQ.Shaped(m) ==> MQ.Shaped(m')
  {
    m.(procs := m.procs + [p])
  }

  lemma {:induction false} ResetGrown(procs: seq<Process>, p: Process, q: seq<nat>)
    requires InRange(q, |procs|)
    ensures MQ.Reset(procs + [p], q) == MQ.Reset(procs, q) + [p]
  {
    if q != [] {
      ResetGrown(procs, p, q[..|q| - 1]);
    }
  }

  lemma BoostedGrown(m: MQ.MlfqState, p: Process, now: nat)
    requires MQ.Shaped(m)
    ensures MQ.Boosted(MqGrown(m, p), now) == MqGrown(MQ.Boosted(m, now), p)
  {
    var all := MQ.Flat(m.queues);
    ResetGrown(m.procs, p, all);
    ResetGrown(MQ.Reset(m.procs, all), p, MQ.Held(m.running));
  }

  lemma EnteredGrown(m: MQ.MlfqState, p: Process, now: nat)
    requires MQ.Shaped(m) && !Arrives(p, now)
    ensures MQ.Entered(MqGrown(m, p), now) == MqGrown(MQ.Entered(m, now), p)
  {
    var n := |m.procs|;
    var arr := Arrivals(m.procs, now, n);
    ArrivalsGrown(m.procs, p, now, n);
    assert Arrivals(m.procs + [p], now, n + 1) == arr;
    assert Admitted(m.procs + [p], now) == Admitted(m.procs, now) + [p];
    ResetGrown(Admitted(m.procs, now), p, arr);
    var queues := m.queues[0 := m.queues[0] + arr];
    MQ.FlatRange(m.queues, n);
    MQ.FlatRange(queues, n);
    AgedGrown(MQ.Reset(Admitted(m.procs, now), arr), p, MQ.Flat(queues));
  }

  lemma ExpiredGrown(m: MQ.MlfqState, p: Process)
    requires MQ.Shaped(m)
    ensures MQ.Expired(MqGrown(m, p)) == MqGrown(MQ.Expired(m), p)
  {
  }

  lemma ChosenGrown(m: MQ.MlfqState, p: Process, now: nat)
    requires MQ.Shaped(m)
    ensures MQ.Chosen(MqGrown(m, p), now) == MqGrown(MQ.Chosen(m, now), p)
  {
  }

  lemma UsedGrown(m: MQ.MlfqState, p: Process, now: nat)
    requires MQ.Shaped(m)
    ensures MQ.Used(MqGrown(m, p), now) == MqGrown(MQ.Used(m, now), p)
  {
    ExecutedGrown(MQ.Base(m), p, now);
  }

  lemma MqTickGrown(m: MQ.MlfqState, p: Process, now: nat)
    requires MQ.Shaped(m) && !Arrives(p, now)
    ensures MQ.MlfqTick(MqGrown(m, p), now) == MqGrown(MQ.MlfqTick(m, now), p)
  {
    hide MQ.Boosted, MQ.Entered, MQ.Expired, MQ.Chosen, MQ.Used;
    MQ.PreparedShaped(m, now);
    BoostedGrown(m, p, now);
    var b := MQ.Boosted(m, now);
    EnteredGrown(b, p, now);
    var e := MQ.Entered(b, now);
    ExpiredGrown(e, p);
    ChosenGrown(MQ.Expired(e), p, now);
    UsedGrown(MQ.Chosen(MQ.Expired(e), now), p, now);
  }

  // ---------------------------------------------------------------------------------------
  // Once admitted, never new again
  // ---------------------------------------------------------------------------------------

  /** Whoever was admitted stays so, and whoever arrives at `now` is admitted. */
  ghost predicate Settles(a: seq<Process>, b: seq<Process>, now: int) {
    |a| == |b| && forall i :: 0 <= i < |a| && (a[i].status != New || a[i].arrival == now) ==> b[i].status != New
  }

  ghost predicate Stays(a: seq<Process>, b: seq<Process>) {
    |a| == |b| && forall i :: 0 <= i < |a| && a[i].status != New ==> b[i].status != New
  }

  lemma PreparedSettles(c: Core, now: int)
    requires Indexed(c)
    ensures Settles(c.procs, Prepared(c, now).procs, now)
  {
    var q := c.ready + Arrivals(c.procs, now, |c.procs|);
    forall i | 0 <= i < |c.procs|
      ensures Prepared(c, now).procs[i].status == Admitted(c.procs, now)[i].status
    {
      MQ.AgedLevel(Admitted(c.procs, now), q, i);
    }
  }

  lemma ExecutedStays(c: Core, now: int)
    requires Indexed(c)
    ensures Stays(c.procs, Executed(c, now).procs)
  {
  }

  lemma StcfChosenStays(c: Core, now: int)
    requires Indexed(c)
    ensures Stays(c.procs, StcfChosen(c, now).procs)
  {
    hide StableSort;
  }

  lemma StcfSettles(c: Core, now: int)
    requires Indexed(c)
    ensures Settles(c.procs, StcfTick(c, now).procs, now)
  {
    hide Prepared, StcfChosen, Executed;
    PreparedSettles(c, now);
    var m := Prepared(c, now);
    StcfChosenStays(m, now);
    ExecutedStays(StcfChosen(m, now), now);
  }

  lemma SjfSettles(c: Core, now: int)
    requires Indexed(c)
    ensures Settles(c.procs, SjfTick(c, now).procs, now)
  {
    PreparedSettles(c, now);
    var m := Prepared(c, now);
    assert Stays(m.procs, SjfChosen(m, now).procs);
  }

  lemma RrSettles(s: RR.RrState, now: int)
    requires Indexed(s.core)
    ensures Settles(s.core.procs, RR.RrTick(s, now).core.procs, now)
  {
    hide Prepared, RR.RrChosen, RR.RrUsed, RR.SliceCounts, RR.SliceRoom;
    PreparedSettles(s.core, now);
    var m := s.(core := Prepared(s.core, now));
    RrChosenStays(m, now);
    RrUsedStays(RR.RrChosen(m, now), now);
  }

  lemma RrChosenStays(s: RR.RrState, now: int)
    requires Indexed(s.core)
    ensures Stays(s.core.procs, RR.RrChosen(s, now).core.procs)
  {
    hide RR.SliceCounts, RR.SliceRoom;
  }

  lemma RrUsedStays(s: RR.RrState, now: int)
    requires Indexed(s.core)
    ensures Stays(s.core.procs, RR.RrUsed(s, now).core.procs)
  {
    hide RR.SliceCounts, RR.SliceRoom;
  }

  lemma MqSettles(m: MQ.MlfqState, now: nat)
    requires MQ.Shaped(m)
    ensures Settles(m.procs, MQ.MlfqTick(m, now).procs, now)
  {
    hide MQ.Boosted, MQ.Entered, MQ.Expired, MQ.Chosen, MQ.Used, MQ.Levelled;
    MQ.PreparedShaped(m, now);
    var b := MQ.Boosted(m, now);
    BoostedSame(m, now);
    EnteredSettles(b, now);
    var e := MQ.Entered(b, now);
    var x := MQ.Expired(e);
    ExpiredStays(e);
    ChosenStays(x, now);
    UsedStays(MQ.Chosen(x, now), now);
  }

  lemma ExpiredStays(m: MQ.MlfqState)
    requires MQ.Shaped(m)
    ensures Stays(m.procs, MQ.Expired(m).procs)
  {
  }

  lemma ChosenStays(m: MQ.MlfqState, now: nat)
    requires MQ.Shaped(m)
    ensures Stays(m.procs, MQ.Chosen(m, now).procs)
  {
  }

  lemma UsedStays(m: MQ.MlfqState, now: nat)
    requires MQ.Shaped(m)
    ensures Stays(m.procs, MQ.Used(m, now).procs)
  {
  }

  lemma BoostedSame(m: MQ.MlfqState, now: nat)
    requires MQ.Shaped(m)
    ensures var b := MQ.Boosted(m, now);
            forall i :: 0 <= i < |m.procs| ==>
              b.procs[i].status == m.procs[i].status && b.procs[i].arrival == m.procs[i].arrival
  {
    forall i | 0 <= i < |m.procs|
      ensures MQ.Boosted(m, now).procs[i].status == m.procs[i].status
      ensures MQ.Boosted(m, now).procs[i].arrival == m.procs[i].arrival
    {
      MQ.ResetAt(m.procs, MQ.Flat(m.queues), i);
      MQ.ResetAt(MQ.Reset(m.procs, MQ.Flat(m.queues)), MQ.Held(m.running), i);
    }
  }

  lemma EnteredSettles(b: MQ.MlfqState, now: nat)
    requires MQ.Shaped(b)
    ensures Settles(b.procs, MQ.Entered(b, now).procs, now)
  {
    var arr := Arrivals(b.procs, now, |b.procs|);
    forall i | 0 <= i < |b.procs|
      ensures MQ.Entered(b, now).procs[i].status == Admitted(b.procs, now)[i].status
    {
      MQ.ResetAt(Admitted(b.procs, now), arr, i);
      MQ.AgedLevel(MQ.Reset(Admitted(b.procs, now), arr), MQ.Flat(MQ.Entered(b, now).queues), i);
    }
  }

  // ---------------------------------------------------------------------------------------
  // Any interleaving of AddProcess and Tick
  // ---------------------------------------------------------------------------------------

  datatype Event = Add(p: Process) | Tick

  function Ticks(events: seq<Event>): nat {
    if events == [] then 0 else Ticks(events[..|events| - 1]) + if events[|events| - 1].Tick? then 1 else 0
  }

  function Added(events: seq<Event>): seq<Process> {
    if events == [] then []
    else
      var front := Added(events[..|events| - 1]);
      match events[|events| - 1]
      case Add(p) => front + [p]
      case Tick => front
  }

  /** A new process is added before the tick of its arrival. */
  ghost predicate InTime(events: seq<Event>) {
    forall k :: 0 <= k < |events| && events[k].Add? ==>
      FreshProcs([events[k].p]) && Ticks(events[..k]) <= events[k].p.arrival
  }

  lemma {:induction false} AddedFresh(events: seq<Event>)
    requires InTime(events)
    ensures FreshProcs(Added(events))
  {
    if events != [] {
      var n := |events| - 1;
      FrontInTime(events);
      AddedFresh(events[..n]);
      if events[n].Add? {
        assert FreshProcs([events[n].p]);
        assert [events[n].p][0] == events[n].p;
      }
    }
  }

  lemma FrontInTime(events: seq<Event>)
    requires InTime(events) && events != []
    ensures InTime(events[..|events| - 1])
  {
    var front := events[..|events| - 1];
    forall k | 0 <= k < |front| && front[k].Add?
      ensures FreshProcs([front[k].p]) && Ticks(front[..k]) <= front[k].p.arrival
    {
      assert front[..k] == events[..k];
    }
  }

  // ---- The four schedulers behind one tick and one AddProcess ----

  datatype Kind = Stcf | Sjf | RoundRobin(quantum: int) | Feedback(period: int)

  datatype State = StcfState(core: Core) | SjfState(core: Core) | RrState(rr: RR.RrState) | MqState(mq: MQ.MlfqState)

  predicate Fine(s: State) {
    match s
    case StcfState(c) => Indexed(c)
    case SjfState(c) => Indexed(c)
    case RrState(r) => Indexed(r.core)
    case MqState(m) => MQ.Shaped(m)
  }

  function Procs(s: State): seq<Process> {
    match s
    case StcfState(c) => c.procs
    case SjfState(c) => c.procs
    case RrState(r) => r.core.procs
    case MqState(m) => m.procs
  }

  function Plus(s: State, p: Process): (r: State)
    ensures Fine(s) ==> Fine(r)
    ensures Procs(r) == Procs(s) + [p]
  {
    match s
    case StcfState(c) => StcfState(Grown(c, p))
    case SjfState(c) => SjfState(Grown(c, p))
    case RrState(r) => RrState(RrGrown(r, p))
    case MqState(m) => MqState(MqGrown(m, p))
  }

  function Ticked(s: State, now: nat): (r: State)
    requires Fine(s)
    ensures Fine(r) && |Procs(r)| == |Procs(s)|
  {
    match s
    case StcfState(c) => StcfState(StcfTick(c, now))
    case SjfState(c) => SjfState(SjfTick(c, now))
    case RrState(r) => RrState(RR.RrTick(r, now))
    case MqState(m) => MqState(MQ.MlfqTick(m, now))
  }

  function Run(kind: Kind, procs: seq<Process>, n: nat): (r: State)
    requires FreshProcs(procs)
    ensures Fine(r) && |Procs(r)| == |procs|
  {
    match kind
    case Stcf => StcfState(StcfRun(procs, n))
    case Sjf => SjfState(SjfRun(procs, n))
    case RoundRobin(quantum) => RrState(RR.RrRun(procs, quantum, n))
    case Feedback(period) => MqState(MQ.MlfqRun(procs, period, n))
  }

  lemma RunStarts(kind: Kind, procs: seq<Process>, p: Process)
    requires FreshProcs(procs) && FreshProcs(procs + [p])
    ensures Run(kind, procs + [p], 0) == Plus(Run(kind, procs, 0), p)
  {
  }

  lemma RunTicks(kind: Kind, procs: seq<Process>, n: nat)
    requires FreshProcs(procs)
    ensures Run(kind, procs, n + 1) == Ticked(Run(kind, procs, n), n)
  {
    hide StcfTick, SjfTick, RR.RrTick, MQ.MlfqTick;
  }

  /** A tick in which a process does not arrive does not see it. */
  lemma TickPlus(s: State, p: Process, now: nat)
    requires Fine(s) && !Arrives(p, now)
    ensures Ticked(Plus(s, p), now) == Plus(Ticked(s, now), p)
  {
    hide StcfTick, SjfTick, RR.RrTick, MQ.MlfqTick;
    match s
    case StcfState(c) => StcfTickGrown(c, p, now);
    case SjfState(c) => SjfTickGrown(c, p, now);
    case RrState(r) => RrTickGrown(r, p, now);
    case MqState(m) => MqTickGrown(m, p, now);
  }

  lemma TickSettles(s: State, now: nat)
    requires Fine(s)
    ensures Settles(Procs(s), Procs(Ticked(s, now)), now)
  {
    hide StcfTick, SjfTick, RR.RrTick, MQ.MlfqTick, Settles;
    match s
    case StcfState(c) => StcfSettles(c, now);
    case SjfState(c) => SjfSettles(c, now);
    case RrState(r) => RrSettles(r, now);
    case MqState(m) => MqSettles(m, now);
  }

  // ---- Additions in time ----

  function Driven(kind: Kind, events: seq<Event>): (s: State)
    ensures Fine(s)
  {
    if events == [] then Run(kind, [], 0)
    else
      var front := events[..|events| - 1];
      match events[|events| - 1]
      case Add(p) => Plus(Driven(kind, front), p)
      case Tick => Ticked(Driven(kind, front), Ticks(front))
  }

  lemma {:induction false} RunPlus(kind: Kind, procs: seq<Process>, p: Process, n: nat)
    requires FreshProcs(procs) && FreshProcs(procs + [p]) && n <= p.arrival
    ensures Run(kind, procs + [p], n) == Plus(Run(kind, procs, n), p)
  {
    hide Run, Plus, Ticked, Fine;
    if n == 0 {
      RunStarts(kind, procs, p);
    } else {
      RunPlus(kind, procs, p, n - 1);
      RunTicks(kind, procs, n - 1);
      RunTicks(kind, procs + [p], n - 1);
      TickPlus(Run(kind, procs, n - 1), p, n - 1);
    }
  }

  /** Adding in time is as good as having been there from the start: every law of the runs of a
      scheduler holds of every interleaving of AddProcess and Tick. */
  lemma {:induction false} DrivenIsRun(kind: Kind, events: seq<Event>)
    requires InTime(events)
    ensures FreshProcs(Added(events)) && Driven(kind, events) == Run(kind, Added(events), Ticks(events))
  {
    hide Run, Plus, Ticked, Fine, FreshProcs;
    AddedFresh(events);
    if events != [] {
      var n := |events| - 1;
      FrontInTime(events);
      DrivenIsRun(kind, events[..n]);
      if events[n].Add? {
        RunPlus(kind, Added(events[..n]), events[n].p, Ticks(events[..n]));
      } else {
        RunTicks(kind, Added(events), Ticks(events[..n]));
      }
    }
  }

  // ---- Additions at any time ----

  /** The state after n more ticks, the first of them numbered `now`. */
  function TickedFor(s: State, now: nat, n: nat): (r: State)
    requires Fine(s)
    ensures Fine(r) && |Procs(r)| == |Procs(s)|
  {
    if n == 0 then s else Ticked(TickedFor(s, now, n - 1), now + n - 1)
  }

  /** Until it arrives, and for ever if its arrival tick has passed, a process changes nothing. */
  lemma {:induction false} Untouched(s: State, p: Process, now: nat, n: nat)
    requires Fine(s) && !(now <= p.arrival < now + n)
    ensures TickedFor(Plus(s, p), now, n) == Plus(TickedFor(s, now, n), p)
  {
    hide Plus, Ticked, Fine, Procs;
    if n > 0 {
      Untouched(s, p, now, n - 1);
      TickPlus(TickedFor(s, now, n - 1), p, now + n - 1);
    }
  }

  /** A new process is admitted if and only if it was added no later than its arrival tick and that
      tick has come. */
  lemma {:induction false} AdmittedIff(s: State, p: Process, now: nat, n: nat)
    requires Fine(s) && p.status == New
    ensures Procs(TickedFor(Plus(s, p), now, n))[|Procs(s)|].status != New <==> now <= p.arrival < now + n
  {
    hide Plus, Ticked, Fine, Procs;
    if n > 0 {
      AdmittedIff(s, p, now, n - 1);
      TickSettles(TickedFor(Plus(s, p), now, n - 1), now + n - 1);
      if !(now <= p.arrival < now + n) {
        Untouched(s, p, now, n);
      } else if p.arrival == now + n - 1 {
        Untouched(s, p, now, n - 1);
      }
    }
  }

  // ---- The kernel's clock ----

  /** The kernel counts its tick up before it passes it on, so its first tick is number 1. */
  function KernelDriven(kind: Kind, events: seq<Event>): (s: State)
    ensures Fine(s)
  {
    if events == [] then Run(kind, [], 0)
    else
      var front := events[..|events| - 1];
      match events[|events| - 1]
      case Add(p) => Plus(KernelDriven(kind, front), p)
      case Tick => Ticked(KernelDriven(kind, front), Ticks(front) + 1)
  }

  /** New processes, each arriving no later than the last tick that has been executed. */
  ghost predicate AddedLate(events: seq<Event>) {
    forall k :: 0 <= k < |events| && events[k].Add? ==>
      events[k].p.status == New && events[k].p.arrival <= Ticks(events[..k])
  }

  /** Nobody runs, waits or has completed. */
  predicate VacantCore(c: Core) {
    c.ready == [] && c.running.None? && c.completed == []
  }

  predicate Vacant(s: State) {
    match s
    case StcfState(c) => VacantCore(c)
    case SjfState(c) => VacantCore(c)
    case RrState(r) => VacantCore(r.core)
    case MqState(m) => m.running.None? && m.completed == [] && forall q :: 0 <= q < |m.queues| ==> m.queues[q] == []
  }

  ghost predicate NobodyArrives(procs: seq<Process>, now: int) {
    forall i :: 0 <= i < |procs| ==> !Arrives(procs[i], now)
  }

  lemma {:induction false} NoArrivals(procs: seq<Process>, now: int, k: nat)
    requires k <= |procs| && NobodyArrives(procs, now)
    ensures Arrivals(procs, now, k) == [] && Admitted(procs, now) == procs
  {
    if k > 0 {
      NoArrivals(procs, now, k - 1);
    }
  }

  lemma PreparedVacant(c: Core, now: int)
    requires Indexed(c) && VacantCore(c) && NobodyArrives(c.procs, now)
    ensures Prepared(c, now) == c
  {
    NoArrivals(c.procs, now, |c.procs|);
  }

  lemma BoostedVacant(m: MQ.MlfqState, now: nat)
    requires MQ.Shaped(m) && Vacant(MqState(m))
    ensures Vacant(MqState(MQ.Boosted(m, now))) && MQ.Boosted(m, now).procs == m.procs
  {
  }

  lemma EnteredVacant(m: MQ.MlfqState, now: nat)
    requires MQ.Shaped(m) && Vacant(MqState(m)) && NobodyArrives(m.procs, now)
    ensures Vacant(MqState(MQ.Entered(m, now))) && MQ.Entered(m, now).procs == m.procs
  {
    NoArrivals(m.procs, now, |m.procs|);
  }

  lemma ServedVacant(m: MQ.MlfqState, now: nat)
    requires MQ.Shaped(m) && Vacant(MqState(m))
    ensures var c := MQ.Chosen(MQ.Expired(m), now);
            c == m && Vacant(MqState(MQ.Used(c, now))) && MQ.Used(c, now).procs == m.procs
  {
    hide MQ.Levelled;
  }

  lemma MqVacant(m: MQ.MlfqState, now: nat)
    requires MQ.Shaped(m) && Vacant(MqState(m)) && NobodyArrives(m.procs, now)
    ensures Vacant(MqState(MQ.MlfqTick(m, now))) && MQ.MlfqTick(m, now).procs == m.procs
  {
    hide MQ.Boosted, MQ.Entered, MQ.Expired, MQ.Chosen, MQ.Used, Vacant, NobodyArrives;
    MQ.PreparedShaped(m, now);
    var b := MQ.Boosted(m, now);
    BoostedVacant(m, now);
    EnteredVacant(b, now);
    ServedVacant(MQ.Entered(b, now), now);
  }

  /** A tick in which nobody arrives leaves a vacant scheduler vacant. */
  lemma TickVacant(s: State, now: nat)
    requires Fine(s) && Vacant(s) && NobodyArrives(Procs(s), now)
    ensures Vacant(Ticked(s, now)) && Procs(Ticked(s, now)) == Procs(s)
  {
    hide MQ.MlfqTick, NobodyArrives, Prepared;
    match s
    case StcfState(c) => PreparedVacant(c, now);
    case SjfState(c) => PreparedVacant(c, now);
    case RrState(r) => PreparedVacant(r.core, now);
    case MqState(m) => MqVacant(m, now);
  }

  lemma PlusVacant(s: State, p: Process)
    requires Vacant(s)
    ensures Vacant(Plus(s, p))
  {
  }

  /** Everyone is new, with an arrival tick that has passed. */
  ghost predicate Stale(procs: seq<Process>, now: int) {
    forall i :: 0 <= i < |procs| ==> procs[i].status == New && procs[i].arrival <= now
  }

  lemma StaleOn(procs: seq<Process>, now: int)
    requires Stale(procs, now)
    ensures NobodyArrives(procs, now + 1) && Stale(procs, now + 1)
  {
  }

  lemma StalePlus(procs: seq<Process>, now: int, p: Process)
    requires Stale(procs, now) && p.status == New && p.arrival <= now
    ensures Stale(procs + [p], now)
  {
  }

  lemma VacantAtFirst(kind: Kind)
    ensures Vacant(Run(kind, [], 0)) && Procs(Run(kind, [], 0)) == []
  {
  }

  /** Processes that the kernel adds with the current tick as their arrival never run, whatever the
      scheduler. */
  lemma {:induction false} KernelRunsNothing(kind: Kind, events: seq<Event>)
    requires AddedLate(events)
    ensures var s := KernelDriven(kind, events);
            Vacant(s) && Procs(s) == Added(events) && Stale(Procs(s), Ticks(events))
  {
    hide Plus, Ticked, Fine, Procs, Vacant, Run, NobodyArrives;
    if events == [] {
      VacantAtFirst(kind);
    } else {
      hide Stale;
      var n := |events| - 1;
      var front := events[..n];
      LateFront(events);
      KernelRunsNothing(kind, front);
      var s := KernelDriven(kind, front);
      if events[n].Tick? {
        StaleOn(Procs(s), Ticks(front));
        TickVacant(s, Ticks(front) + 1);
      } else {
        PlusVacant(s, events[n].p);
        StalePlus(Procs(s), Ticks(front), events[n].p);
      }
    }
  }

  lemma LateFront(events: seq<Event>)
    requires AddedLate(events) && events != []
    ensures AddedLate(events[..|events| - 1])
  {
    var front := events[..|events| - 1];
    forall k | 0 <= k < |front| && front[k].Add?
      ensures front[k].p.status == New && front[k].p.arrival <= Ticks(front[..k])
    {
      assert front[..k] == events[..k];
    }
  }

  // ---- The scheduler objects under any interleaving of their two methods ----

  method DriveStcf(events: seq<Event>) returns (s: StcfScheduler)
    requires InTime(events)
    ensures FreshProcs(Added(events)) && s.View() == StcfRun(Added(events), Ticks(events))
  {
    hide StcfTick;
    s := new StcfScheduler();
    var now := 0;
    for k := 0 to |events|
      invariant fresh(s) && StcfState(s.View()) == Driven(Stcf, events[..k]) && now == Ticks(events[..k])
    {
      assert events[..k + 1][..k] == events[..k];
      match events[k] {
        case Add(p) =>
          s.AddProcess(p);
        case Tick =>
          var _, _ := s.Tick(now);
          now := now + 1;
      }
    }
    assert events[..|events|] == events;
    DrivenIsRun(Stcf, events);
  }

  method DriveSjf(events: seq<Event>) returns (s: SjfScheduler)
    requires InTime(events)
    ensures FreshProcs(Added(events)) && s.View() == SjfRun(Added(events), Ticks(events))
  {
    hide SjfTick;
    s := new SjfScheduler();
    var now := 0;
    for k := 0 to |events|
      invariant fresh(s) && SjfState(s.View()) == Driven(Sjf, events[..k]) && now == Ticks(events[..k])
    {
      assert events[..k + 1][..k] == events[..k];
      match events[k] {
        case Add(p) =>
          s.AddProcess(p);
        case Tick =>
          var _, _ := s.Tick(now);
          now := now + 1;
      }
    }
    assert events[..|events|] == events;
    DrivenIsRun(Sjf, events);
  }

  method DriveRr(quantum: int, events: seq<Event>) returns (s: RR.RrScheduler)
    requires InTime(events)
    ensures FreshProcs(Added(events)) && s.View() == RR.RrRun(Added(events), quantum, Ticks(events))
  {
    hide RR.RrTick;
    s := new RR.RrScheduler(quantum);
    var now := 0;
    for k := 0 to |events|
      invariant fresh(s) && RrState(s.View()) == Driven(RoundRobin(quantum), events[..k]) && now == Ticks(events[..k])
    {
      assert events[..k + 1][..k] == events[..k];
      match events[k] {
        case Add(p) =>
          s.AddProcess(p);
        case Tick =>
          var _, _ := s.Tick(now);
          now := now + 1;
      }
    }
    assert events[..|events|] == events;
    DrivenIsRun(RoundRobin(quantum), events);
  }

  method DriveMq(period: int, events: seq<Event>) returns (s: MQ.MlfqScheduler)
    requires InTime(events)
    ensures FreshProcs(Added(events)) && s.View() == MQ.MlfqRun(Added(events), period, Ticks(events))
  {
    hide MQ.MlfqTick, MQ.Boosted, MQ.Shaped;
    s := new MQ.MlfqScheduler(period);
    var now := 0;
    for k := 0 to |events|
      invariant fresh(s) && MqState(s.View()) == Driven(Feedback(period), events[..k]) && now == Ticks(events[..k])
    {
      assert events[..k + 1][..k] == events[..k];
      match events[k] {
        case Add(p) =>
          s.AddProcess(p);
        case Tick =>
          var _, _ := s.Tick(now);
          now := now + 1;
      }
    }
    assert events[..|events|] == events;
    DrivenIsRun(Feedback(period), events);
  }
}
