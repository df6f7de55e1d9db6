/** pkg/concurrency/mutex.go and condvar.go: the state word, the order of handing over, and signals. */
module BufferLaws {
  import opened Collections
  import opened BoundedBuffer

  // ---- The mutex's word and queue ----

  /** What a thread inside the guard knows about the word and the queue. */
  predicate Inside(s: System, pc: Pc) {
    match pc
    case Flagging(_) => s.waiters != []
    case Handing(_, _) => s.state == 2
    case Zeroing(_) => s.waiters == []
    case _ => true
  }

  /** Outside the guard the word is 2 exactly when threads are queued, and threads are handed the
      mutex in the order in which they queued. */
  ghost predicate WordTells(s: System) {
    && (s.guard.None? ==> (s.state == 2 <==> s.waiters != []))
    && s.parked == s.handed + s.waiters
    && forall i :: 0 <= i < |s.pcs| ==> Inside(s, s.pcs[i])
  }

  lemma StepInside(s: System, i: nat, op: Op, j: nat)
    requires Inv(s) && WordTells(s) && Enabled(s, i) && j < |s.pcs|
    ensures Inside(Stepped(s, i, op), Stepped(s, i, op).pcs[j])
  {
    if j == i {
      assert Inside(s, s.pcs[i]);
    } else {
      OthersStay(s, i, op, j);
      if InGuard(s.pcs[j]) {
        assert Inside(s, s.pcs[j]);
        GuardExcludes(s, i, op, j);
      }
    }
  }

  /** While a thread is inside the guard, the others leave the word and the queue as they are. */
  lemma GuardExcludes(s: System, i: nat, op: Op, j: nat)
    requires Inv(s) && Enabled(s, i) && j < |s.pcs| && j != i && InGuard(s.pcs[j])
    ensures var s' := Stepped(s, i, op);
            s'.waiters == s.waiters && (s'.state == s.state || (s.state == 0 && s'.state == 1))
  {
    assert s.guard == Some(j);
    assert !InGuard(s.pcs[i]);
  }

  lemma StepWord(s: System, i: nat, op: Op)
    requires Inv(s) && WordTells(s) && Enabled(s, i)
    ensures WordTells(Stepped(s, i, op))
  {
    var s' := Stepped(s, i, op);
    assert Inside(s, s.pcs[i]);
    assert InGuard(s.pcs[i]) <==> s.guard == Some(i);
    forall j: nat | j < |s.pcs|
      ensures Inside(s', s'.pcs[j])
    {
      StepInside(s, i, op, j);
    }
  }

  // ---- Signals: `g` is true for consumers and items, false for producers and free places ----

  function Stock(s: System, g: bool): int {
    if g then |s.buffer| else s.capacity - |s.buffer|
  }

  function Line(s: System, g: bool): seq<nat> {
    if g then s.notEmpty else s.notFull
  }

  /** In Wait, from joining the line until being back in Lock. */
  predicate InWait(pc: Pc, g: bool) {
    match pc
    case Releasing(a) => a.Some? && a.value.Get? == g
    case Handing(_, a) => a.Some? && a.value.Get? == g
    case Zeroing(a) => a.Some? && a.value.Get? == g
    case Waking(_, a) => a.Some? && a.value.Get? == g
    case Sleeping(op) => op.Get? == g
    case _ => false
  }

  /** A line holds distinct threads that are in Wait for it. */
  ghost predicate Lined(s: System, g: bool) {
    && Distinct(Line(s, g)) && InRange(Line(s, g), |s.pcs|)
    && forall t: nat :: t in Line(s, g) && t < |s.pcs| ==> InWait(s.pcs[t], g)
  }

  /** Thread i is on its way to take from the stock, or owes it a signal. */
  predicate OnWay(s: System, g: bool, i: nat)
    requires i < |s.pcs|
  {
    match s.pcs[i]
    case Locking(op) => op.Get? == g
    case Enqueuing(op) => op.Get? == g
    case Flagging(op) => op.Get? == g
    case Parked(op, _) => op.Get? == g
    case Checking(op) => op.Get? == g
    case Acting(op) => op.Get? == g
    case Popping(_) => g
    case Signalling(op) => op.Get? != g
    case Idle => false
    case Joining(_) => false
    case _ => InWait(s.pcs[i], g) && i !in Line(s, g)
  }

  function Ways(s: System, g: bool, n: nat): nat
    requires n <= |s.pcs|
  {
    if n == 0 then 0 else Ways(s, g, n - 1) + if OnWay(s, g, n - 1) then 1 else 0
  }

  function One(b: bool): nat {
    if b then 1 else 0
  }

  lemma {:induction false} WaysDiffer(s: System, s': System, g: bool, n: nat, i: nat, x: nat)
    requires n <= |s.pcs| == |s'.pcs| && i < |s.pcs| && x < |s.pcs|
    requires forall j: nat :: j < n && j != i && j != x ==> OnWay(s', g, j) == OnWay(s, g, j)
    ensures var di := if i < n then One(OnWay(s', g, i)) - One(OnWay(s, g, i)) else 0;
            var dx := if x < n && x != i then One(OnWay(s', g, x)) - One(OnWay(s, g, x)) else 0;
            Ways(s', g, n) == Ways(s, g, n) + di + dx
  {
    if n > 0 {
      WaysDiffer(s, s', g, n - 1, i, x);
    }
  }

  /** Whoever waits unsignalled for stock, there are as many threads on their way as there is stock. */
  ghost predicate Supplied(s: System, g: bool) {
    Line(s, g) != [] ==> Stock(s, g) <= Ways(s, g, |s.pcs|)
  }

  lemma StepInWait(s: System, i: nat, op: Op, g: bool, t: nat)
    requires Inv(s) && Lined(s, g) && Enabled(s, i)
    requires t < |s.pcs| && t in Line(Stepped(s, i, op), g)
    ensures InWait(Stepped(s, i, op).pcs[t], g)
  {
    assert t in Line(s, g) || t == i;
    if t != i {
      OthersStay(s, i, op, t);
    } else {
      assert CalledUp(s, s.pcs[i]);
    }
  }

  lemma StepLined(s: System, i: nat, op: Op, g: bool)
    requires Inv(s) && Lined(s, g) && Enabled(s, i)
    ensures Lined(Stepped(s, i, op), g)
  {
    var s' := Stepped(s, i, op);
    if s.pcs[i].Joining? {
      assert i !in Line(s, g);
      DistinctJoin(Line(s, g), [i]);
    }
    forall t: nat | t in Line(s', g) && t < |s.pcs|
      ensures InWait(s'.pcs[t], g)
    {
      StepInWait(s, i, op, g, t);
    }
  }

  /** The thread a step takes out of the line, if it is a signal, and else the thread itself. */
  function Called(s: System, i: nat, g: bool): nat
    requires i < |s.pcs|
  {
    if s.pcs[i].Signalling? && s.pcs[i].op.Get? != g && Line(s, g) != [] then Line(s, g)[0] else i
  }

  lemma SameLine(s: System, i: nat, op: Op, g: bool, j: nat)
    requires Enabled(s, i) && Distinct(Line(s, g)) && j != i && j != Called(s, i, g)
    ensures j in Line(Stepped(s, i, op), g) <==> j in Line(s, g)
  {
    var line := Line(s, g);
    assert line != [] ==> line == [line[0]] + line[1..];
  }

  lemma OthersOnWay(s: System, i: nat, op: Op, g: bool, j: nat)
    requires Inv(s) && Lined(s, g) && Enabled(s, i) && j < |s.pcs| && j != i && j != Called(s, i, g)
    ensures OnWay(Stepped(s, i, op), g, j) == OnWay(s, g, j)
  {
    SameLine(s, i, op, g, j);
    OthersStay(s, i, op, j);
  }

  lemma StepSupplied(s: System, i: nat, op: Op, g: bool)
    requires Inv(s) && Lined(s, g) && Supplied(s, g) && Enabled(s, i)
    ensures Supplied(Stepped(s, i, op), g)
  {
    var s', n, x := Stepped(s, i, op), |s.pcs|, Called(s, i, g);
    assert Checked(s, s.pcs[i]);
    if Line(s', g) != [] && Stock(s', g) > 0 {
      forall j: nat | j < n && j != i && j != x
        ensures OnWay(s', g, j) == OnWay(s, g, j)
      {
        OthersOnWay(s, i, op, g, j);
      }
      WaysDiffer(s, s', g, n, i, x);
      StockMoves(s, i, op, g);
    }
  }

  /** The stock grows by no more than the number of threads on their way does. */
  ghost predicate Covered(s: System, s': System, i: nat, x: nat, g: bool)
    requires |s'.pcs| == |s.pcs| && i < |s.pcs|
  {
    && Line(s, g) != [] && x < |s.pcs|
    && Stock(s', g) - Stock(s, g) <=
       One(OnWay(s', g, i)) - One(OnWay(s, g, i)) +
       if x != i then One(OnWay(s', g, x)) - One(OnWay(s, g, x)) else 0
  }

  lemma SignalMoves(s: System, i: nat, op: Op, g: bool)
    requires Inv(s) && Lined(s, g) && Enabled(s, i) && s.pcs[i].Signalling?
    requires Line(Stepped(s, i, op), g) != []
    ensures Covered(s, Stepped(s, i, op), i, Called(s, i, g), g)
  {
    var line := Line(s, g);
    assert line != [];
    assert InWait(s.pcs[line[0]], g);
    assert line[0] !in line[1..];
  }

  lemma StockMoves(s: System, i: nat, op: Op, g: bool)
    requires Inv(s) && Lined(s, g) && Enabled(s, i)
    requires Line(Stepped(s, i, op), g) != [] && Stock(Stepped(s, i, op), g) > 0
    ensures Covered(s, Stepped(s, i, op), i, Called(s, i, g), g)
  {
    if s.pcs[i].Signalling? {
      SignalMoves(s, i, op, g);
    } else {
      assert Checked(s, s.pcs[i]);
    }
  }

  // ---- Who wakes a parked thread ----

  predicate Calls(pc: Pc, t: nat) {
    (pc.Handing? || pc.Waking?) && pc.next == t
  }

  /** A thread blocked in Lock is queued, or someone is on the way to waking it. */
  ghost predicate Attended(s: System, t: nat)
    requires t < |s.pcs|
  {
    && (s.pcs[t].Flagging? ==> t in s.waiters)
    && (Asleep(s.pcs[t]) ==> t in s.waiters || exists i :: 0 <= i < |s.pcs| && Calls(s.pcs[i], t))
  }

  /** A call stands until the thread called is ready. */
  lemma CallGoesOn(s: System, i: nat, op: Op, j: nat, t: nat)
    requires Inv(s) && Enabled(s, i) && j < |s.pcs| && t < |s.pcs| && t != i && Calls(s.pcs[j], t)
    ensures Calls(Stepped(s, i, op).pcs[j], t) || !Asleep(Stepped(s, i, op).pcs[t])
  {
    if j != i {
      OthersStay(s, i, op, j);
    }
  }

  /** Whoever leaves the queue is called by the thread that took it out. */
  lemma LeavesCalled(s: System, i: nat, op: Op, t: nat)
    requires Enabled(s, i) && t in s.waiters && t !in Stepped(s, i, op).waiters
    ensures Calls(Stepped(s, i, op).pcs[i], t)
  {
    assert s.waiters == [s.waiters[0]] + s.waiters[1..];
  }

  lemma StepAttended(s: System, i: nat, op: Op, t: nat)
    requires Inv(s) && Enabled(s, i) && t < |s.pcs| && Attended(s, t)
    ensures Attended(Stepped(s, i, op), t)
  {
    if t == i {
      OwnAttended(s, i, op);
    } else {
      OtherAttended(s, i, op, t);
    }
  }

  lemma OwnAttended(s: System, i: nat, op: Op)
    requires Inv(s) && Enabled(s, i) && Attended(s, i)
    ensures Attended(Stepped(s, i, op), i)
  {
    var s' := Stepped(s, i, op);
    assert CalledUp(s, s.pcs[i]);
    assert Asleep(s'.pcs[i]) ==> s.pcs[i].Flagging? && s'.waiters == s.waiters;
  }

  lemma OtherAttended(s: System, i: nat, op: Op, t: nat)
    requires Inv(s) && Enabled(s, i) && t < |s.pcs| && Attended(s, t) && t != i
    ensures Attended(Stepped(s, i, op), t)
  {
    var s' := Stepped(s, i, op);
    OthersStay(s, i, op, t);
    if t in s.waiters {
      if t !in s'.waiters {
        LeavesCalled(s, i, op, t);
        if s.pcs[t].Flagging? {
          GuardExcludes(s, i, op, t);
        }
      }
    } else if Asleep(s'.pcs[t]) {
      var j :| 0 <= j < |s.pcs| && Calls(s.pcs[j], t);
      CallGoesOn(s, i, op, j, t);
    }
  }

  // ---- Every reachable state ----

  ghost predicate Laws(s: System) {
    && Inv(s) && WordTells(s) && (forall g :: Lined(s, g)) && (forall g :: Supplied(s, g))
    && forall t :: 0 <= t < |s.pcs| ==> Attended(s, t)
  }

  lemma StepLaws(s: System, i: nat, op: Op)
    requires Laws(s) && Enabled(s, i)
    ensures Laws(Stepped(s, i, op))
  {
    StepKeeps(s, i, op);
    StepWord(s, i, op);
    forall g: bool
      ensures Lined(Stepped(s, i, op), g) && Supplied(Stepped(s, i, op), g)
    {
      StepLined(s, i, op, g);
      StepSupplied(s, i, op, g);
    }
    forall t | 0 <= t < |s.pcs|
      ensures Attended(Stepped(s, i, op), t)
    {
      StepAttended(s, i, op, t);
    }
  }

  lemma {:induction false} RunLaws(s: System, run: seq<Move>)
    requires Laws(s) && IsRun(s, run)
    ensures Laws(After(s, run))
    decreases |run|
  {
    if run != [] {
      StepLaws(s, run[0].thread, run[0].op);
      RunLaws(Stepped(s, run[0].thread, run[0].op), run[1..]);
    }
  }

  lemma StartLaws(capacity: nat, threads: nat)
    ensures Laws(Start(capacity, threads))
  {
  }

  /** In every reachable state threads have been handed the mutex in the order in which they queued,
      and outside the guard the state word is 2 exactly when some thread is queued. */
  lemma HandedInOrder(capacity: nat, threads: nat, run: seq<Move>)
    requires IsRun(Start(capacity, threads), run)
    ensures var s := After(Start(capacity, threads), run);
            && s.handed <= s.parked && s.waiters == s.parked[|s.handed|..]
            && (s.guard.None? ==> (s.state == 2 <==> s.waiters != []))
  {
    hide Inv, Lined, Supplied, Attended;
    StartLaws(capacity, threads);
    RunLaws(Start(capacity, threads), run);
  }

  /** No signal is lost: in every reachable state with a consumer waiting unsignalled, at least as
      many threads are on their way to the buffer, or about to signal, as there are items in it;
      and likewise for producers and free places. */
  lemma NoLostSignal(capacity: nat, threads: nat, run: seq<Move>)
    requires IsRun(Start(capacity, threads), run)
    ensures var s := After(Start(capacity, threads), run);
            && (s.notEmpty != [] ==> |s.buffer| <= Ways(s, true, |s.pcs|))
            && (s.notFull != [] ==> capacity - |s.buffer| <= Ways(s, false, |s.pcs|))
  {
    StartLaws(capacity, threads);
    RunLaws(Start(capacity, threads), run);
    RunKeeps(Start(capacity, threads), run);
    var s := After(Start(capacity, threads), run);
    assert Supplied(s, true) && Supplied(s, false);
  }

  // ---- A mutex that is not dead keeps serving ----

  predicate Busy(s: System, k: nat) {
    Enabled(s, k) && !s.pcs[k].Idle?
  }

  /** Whoever owns the mutex can move, or is waiting for someone inside the guard who can. */
  lemma OwnerMoves(s: System, i: nat) returns (k: nat)
    requires Inv(s) && i < |s.pcs| && Owner(s.pcs[i])
    ensures Busy(s, k)
  {
    k := i;
    assert Checked(s, s.pcs[i]) && CalledUp(s, s.pcs[i]);
    if s.pcs[i].Releasing? && s.guard.Some? {
      k := s.guard.value;
      assert InGuard(s.pcs[k]);
    }
  }

  /** Nobody in the middle of Put or Get can move. */
  ghost predicate Quiet(s: System) {
    forall k: nat :: !Busy(s, k)
  }

  lemma QuietIsFree(s: System)
    requires Laws(s) && !Dead(s) && Quiet(s)
    ensures s.state == 0 && s.guard.None? && s.waiters == []
    ensures forall i :: 0 <= i < |s.pcs| ==> !Owner(s.pcs[i])
  {
    forall i | 0 <= i < |s.pcs|
      ensures !Owner(s.pcs[i])
    {
      if Owner(s.pcs[i]) {
        var k := OwnerMoves(s, i);
      }
    }
    if s.guard.Some? {
      assert InGuard(s.pcs[s.guard.value]);
      assert Busy(s, s.guard.value);
    }
  }

  /** In a quiet state that is not dead a thread is idle or waits unsignalled in Wait. */
  lemma QuietThread(s: System, i: nat)
    requires Laws(s) && !Dead(s) && Quiet(s) && i < |s.pcs|
    ensures s.pcs[i].Idle? || (s.pcs[i].Sleeping? && i in Waiters(s, s.pcs[i].op))
    ensures forall g :: !OnWay(s, g, i)
  {
    QuietIsFree(s);
    assert !Busy(s, i) && Attended(s, i);
  }

  lemma {:induction false} NobodyOnWay(s: System, g: bool, n: nat)
    requires n <= |s.pcs| && forall i: nat :: i < n ==> !OnWay(s, g, i)
    ensures Ways(s, g, n) == 0
  {
    if n > 0 {
      NobodyOnWay(s, g, n - 1);
    }
  }

  /** As long as no step stores 2 while the word is 0, the buffer serves everyone it can: when nobody
      in the middle of Put or Get can move, everyone else waits for what is not there.  The mutex is
      free, whoever is not idle waits in a condition variable, consumers only while the buffer is
      empty and producers only while it is full. */
  lemma ServesUnlessDead(capacity: nat, threads: nat, run: seq<Move>)
    requires IsRun(Start(capacity, threads), run) && !StoresLate(Start(capacity, threads), run)
    requires Quiet(After(Start(capacity, threads), run))
    ensures var s := After(Start(capacity, threads), run);
            && s.state == 0 && s.waiters == []
            && (forall i :: 0 <= i < |s.pcs| ==>
                  s.pcs[i].Idle? || (s.pcs[i].Sleeping? && i in Waiters(s, s.pcs[i].op)))
            && (s.notEmpty != [] ==> s.buffer == [])
            && (s.notFull != [] ==> |s.buffer| == capacity)
  {
    var s := After(Start(capacity, threads), run);
    StartLaws(capacity, threads);
    RunLaws(Start(capacity, threads), run);
    RunKeeps(Start(capacity, threads), run);
    DeadExactlyByLateFlag(capacity, threads, run);
    QuietServes(s);
  }

  lemma QuietServes(s: System)
    requires Laws(s) && !Dead(s) && Quiet(s)
    ensures s.state == 0 && s.waiters == []
    ensures forall i :: 0 <= i < |s.pcs| ==>
              s.pcs[i].Idle? || (s.pcs[i].Sleeping? && i in Waiters(s, s.pcs[i].op))
    ensures s.notEmpty != [] ==> s.buffer == []
    ensures s.notFull != [] ==> |s.buffer| == s.capacity
  {
    QuietIsFree(s);
    forall i: nat | i < |s.pcs|
      ensures s.pcs[i].Idle? || (s.pcs[i].Sleeping? && i in Waiters(s, s.pcs[i].op))
      ensures !OnWay(s, true, i) && !OnWay(s, false, i)
    {
      QuietThread(s, i);
    }
    NobodyOnWay(s, true, |s.pcs|);
    NobodyOnWay(s, false, |s.pcs|);
    assert Supplied(s, true) && Supplied(s, false);
  }

  // ---- Signals go to those who have waited longest ----

  /** The thread that a step puts into a line, and the one that it signals out of it. */
  function Joins(s: System, i: nat, g: bool): seq<nat>
    requires i < |s.pcs|
  {
    if s.pcs[i].Joining? && s.pcs[i].op.Get? == g then [i] else []
  }

  function Calling(s: System, i: nat, g: bool): seq<nat>
    requires i < |s.pcs|
  {
    if s.pcs[i].Signalling? && s.pcs[i].op.Get? != g && Line(s, g) != [] then [Line(s, g)[0]] else []
  }

  lemma {:induction false} LineMoves(s: System, i: nat, op: Op, g: bool)
    requires Enabled(s, i)
    ensures Line(s, g) + Joins(s, i, g) == Calling(s, i, g) + Line(Stepped(s, i, op), g)
  {
    var line := Line(s, g);
    assert line != [] ==> line == [line[0]] + line[1..];
  }

  ghost function Joined(s: System, run: seq<Move>, g: bool): seq<nat>
    requires IsRun(s, run)
    decreases |run|
  {
    if run == [] then []
    else Joins(s, run[0].thread, g) + Joined(Stepped(s, run[0].thread, run[0].op), run[1..], g)
  }

  ghost function Signalled(s: System, run: seq<Move>, g: bool): seq<nat>
    requires IsRun(s, run)
    decreases |run|
  {
    if run == [] then []
    else Calling(s, run[0].thread, g) + Signalled(Stepped(s, run[0].thread, run[0].op), run[1..], g)
  }

  lemma {:induction false} LineOverRun(s: System, run: seq<Move>, g: bool)
    requires IsRun(s, run)
    ensures Line(s, g) + Joined(s, run, g) == Signalled(s, run, g) + Line(After(s, run), g)
    decreases |run|
  {
    hide Stepped, Joins, Calling, Line;
    if run != [] {
      var i := run[0].thread;
      var next := Stepped(s, i, run[0].op);
      LineMoves(s, i, run[0].op, g);
      LineOverRun(next, run[1..], g);
      var j, c := Joined(next, run[1..], g), Signalled(next, run[1..], g);
      assert Line(s, g) + (Joins(s, i, g) + j) == (Line(s, g) + Joins(s, i, g)) + j;
      assert Calling(s, i, g) + (Line(next, g) + j) == (Calling(s, i, g) + Line(next, g)) + j;
      assert Calling(s, i, g) + (c + Line(After(s, run), g)) == (Calling(s, i, g) + c) + Line(After(s, run), g);
    }
  }

  /** Over any run the threads signalled out of a condition variable are the first that joined it, in
      that order, and the others wait in it in the order of joining. */
  lemma {:induction false} SignalledInOrder(capacity: nat, threads: nat, run: seq<Move>, g: bool)
    requires IsRun(Start(capacity, threads), run)
    ensures var s := Start(capacity, threads);
            Joined(s, run, g) == Signalled(s, run, g) + Line(After(s, run), g)
  {
    var s := Start(capacity, threads);
    LineOverRun(s, run, g);
    assert Line(s, g) + Joined(s, run, g) == Joined(s, run, g);
  }
}
