/** pkg/concurrency/mutex.go and condvar.go: producers and consumers on a bounded buffer, under
    every interleaving of the atomic instructions of the futex-style mutex. */
module BoundedBuffer {
  import opened Collections

  datatype Op = Put(item: int) | Get

  /** Where a thread stands in Put or Get, and inside Lock, Unlock and Wait. */
  datatype Pc =
    | Idle
    | Locking(op: Op)                     // about to compare-and-swap 0 to 1
    | Enqueuing(op: Op)                   // it failed: about to lock the guard and append
    | Flagging(op: Op)                    // appended: about to store 2 and unlock the guard
    | Parked(op: Op, ready: bool)         // blocked until its node is closed
    | Checking(op: Op)                    // at the loop guard
    | Joining(op: Op)                     // about to append to the condition's waiters
    | Acting(op: Op)                      // past the guard: about to append, or read buffer[0]
    | Popping(item: int)                  // about to drop buffer[0]
    | Signalling(op: Op)
    | Releasing(after: Option<Op>)         // about to lock the guard in Unlock
    | Handing(next: nat, after: Option<Op>)   // popped a waiter: about to store 1 if it was the last
    | Zeroing(after: Option<Op>)           // no waiter: about to store 0
    | Waking(next: nat, after: Option<Op>) // about to close the waiter's channel
    | Sleeping(op: Op)                    // in Wait, until signalled

  datatype System = System(
    capacity: nat,
    state: nat,                // 0 unlocked, 1 locked, 2 locked with waiters
    guard: Option<nat>,        // who holds the mutex's internal guard
    waiters: seq<nat>,         // the mutex's FIFO queue
    parked: seq<nat>,          // every thread queued so far, in order
    handed: seq<nat>,          // every thread handed the mutex so far, in order
    notFull: seq<nat>,
    notEmpty: seq<nat>,
    buffer: seq<int>,
    put: seq<int>,             // every item appended so far, in order
    got: seq<int>,             // every item taken so far, in order
    pcs: seq<Pc>
  )

  function Start(capacity: nat, threads: nat): System {
    System(capacity, 0, None, [], [], [], [], [], [], [], [], seq(threads, _ => Idle))
  }

  // ---- The program ----

  function Waiters(s: System, op: Op): seq<nat> {
    if op.Put? then s.notFull else s.notEmpty
  }

  predicate Enabled(s: System, i: nat) {
    && i < |s.pcs|
    && match s.pcs[i]
       case Enqueuing(_) => s.guard.None?
       case Releasing(_) => s.guard.None?
       case Parked(_, ready) => ready
       case Sleeping(op) => i !in Waiters(s, op)
       case Acting(op) => op.Get? ==> s.buffer != []
       case Popping(_) => s.buffer != []
       case Waking(next, _) => next < |s.pcs| && s.pcs[next].Parked?
       case _ => true
  }

  function Afterwards(after: Option<Op>): Pc {
    if after.Some? then Sleeping(after.value) else Idle
  }

  function Tail(q: seq<nat>): seq<nat> {
    if q == [] then [] else q[1..]
  }

  /** Thread i takes one atomic step; `op` is what it does next if it is idle. */
  function Stepped(s: System, i: nat, op: Op): (r: System)
    requires Enabled(s, i)
    ensures |r.pcs| == |s.pcs| && r.capacity == s.capacity
  {
    match s.pcs[i]
    case Idle => Go(s, i, Locking(op))
    case Locking(o) => if s.state == 0 then Go(s.(state := 1), i, Checking(o)) else Go(s, i, Enqueuing(o))
    case Enqueuing(o) => Go(s.(guard := Some(i), waiters := s.waiters + [i], parked := s.parked + [i]), i, Flagging(o))
    case Flagging(o) => Go(s.(state := 2, guard := None), i, Parked(o, false))
    case Parked(o, _) => Go(s, i, Checking(o))
    case Checking(o) =>
      var blocked := if o.Put? then |s.buffer| == s.capacity else |s.buffer| == 0;
      Go(s, i, if blocked then Joining(o) else Acting(o))
    case Joining(o) =>
      if o.Put? then Go(s.(notFull := s.notFull + [i]), i, Releasing(Some(o)))
      else Go(s.(notEmpty := s.notEmpty + [i]), i, Releasing(Some(o)))
    case Acting(o) =>
      if o.Put? then Go(s.(buffer := s.buffer + [o.item], put := s.put + [o.item]), i, Signalling(o))
      else Go(s, i, Popping(s.buffer[0]))
    case Popping(v) => Go(s.(buffer := s.buffer[1..], got := s.got + [v]), i, Signalling(Get))
    case Signalling(o) =>
      if o.Put? then Go(s.(notEmpty := Tail(s.notEmpty)), i, Releasing(None))
      else Go(s.(notFull := Tail(s.notFull)), i, Releasing(None))
    case Releasing(after) =>
      if s.waiters != [] then
        Go(s.(guard := Some(i), waiters := s.waiters[1..], handed := s.handed + [s.waiters[0]]), i,
           Handing(s.waiters[0], after))
      else Go(s.(guard := Some(i)), i, Zeroing(after))
    case Handing(next, after) =>
      Go(s.(guard := None, state := if s.waiters == [] then 1 else s.state), i, Waking(next, after))
    case Zeroing(after) => Go(s.(guard := None, state := 0), i, Afterwards(after))
    case Waking(next, after) =>
      Go(Go(s, next, s.pcs[next].(ready := true)), i, Afterwards(after))
    case Sleeping(o) => Go(s, i, Locking(o))
  }

  function Go(s: System, i: nat, pc: Pc): (r: System)
    requires i < |s.pcs|
    ensures |r.pcs| == |s.pcs| && r == s.(pcs := r.pcs)
  {
    s.(pcs := s.pcs[i := pc])
  }

  // ---- Who owns the mutex ----

  /** From acquiring the mutex, or being handed it, until releasing it or handing it on. */
  predicate Owner(pc: Pc) {
    match pc
    case Parked(_, ready) => ready
    case Checking(_) => true
    case Joining(_) => true
    case Acting(_) => true
    case Popping(_) => true
    case Signalling(_) => true
    case Releasing(_) => true
    case Handing(_, _) => true
    case Zeroing(_) => true
    case Waking(_, _) => true
    case _ => false
  }

  /** At most one owner, and none while the state word says unlocked. */
  ghost predicate Exclusive(s: System) {
    && (forall i, j :: 0 <= i < j < |s.pcs| ==> !(Owner(s.pcs[i]) && Owner(s.pcs[j])))
    && (s.state == 0 ==> forall i :: 0 <= i < |s.pcs| ==> !Owner(s.pcs[i]))
  }

  predicate InGuard(pc: Pc) {
    pc.Flagging? || pc.Handing? || pc.Zeroing?
  }

  ghost predicate Guarded(s: System) {
    && (s.guard.Some? ==> s.guard.value < |s.pcs|)
    && forall i: nat :: i < |s.pcs| ==> (InGuard(s.pcs[i]) <==> s.guard == Some(i))
  }

  predicate Asleep(pc: Pc) {
    pc.Parked? && !pc.ready
  }

  /** Queued threads are blocked in Lock, and a thread being woken has left the queue. */
  ghost predicate Queued(s: System) {
    && Distinct(s.waiters) && InRange(s.waiters, |s.pcs|)
    && (forall t: nat :: t in s.waiters && t < |s.pcs| ==> Asleep(s.pcs[t]) || s.pcs[t].Flagging?)
    && (forall i :: 0 <= i < |s.pcs| ==> CalledUp(s, s.pcs[i]))
  }

  predicate CalledUp(s: System, pc: Pc) {
    (pc.Handing? || pc.Waking?) ==> pc.next < |s.pcs| && Asleep(s.pcs[pc.next]) && pc.next !in s.waiters
  }

  /** What the owner has established about the buffer still holds. */
  predicate Checked(s: System, pc: Pc) {
    match pc
    case Acting(op) => if op.Put? then |s.buffer| < s.capacity else s.buffer != []
    case Popping(v) => s.buffer != [] && s.buffer[0] == v
    case Joining(op) => if op.Put? then |s.buffer| == s.capacity else s.buffer == []
    case _ => true
  }

  ghost predicate Fifo(s: System) {
    && |s.buffer| <= s.capacity
    && s.put == s.got + s.buffer
    && forall i :: 0 <= i < |s.pcs| ==> Checked(s, s.pcs[i])
  }

  ghost predicate Inv(s: System) {
    Exclusive(s) && Guarded(s) && Queued(s) && Fifo(s)
  }

  lemma StepGuarded(s: System, i: nat, op: Op)
    requires Inv(s) && Enabled(s, i)
    ensures Guarded(Stepped(s, i, op))
  {
    var s' := Stepped(s, i, op);
    forall j: nat | j < |s.pcs|
      ensures InGuard(s'.pcs[j]) <==> s'.guard == Some(j)
    {
      assert InGuard(s.pcs[j]) <==> s.guard == Some(j);
      assert InGuard(s.pcs[i]) <==> s.guard == Some(i);
    }
  }

  lemma StepExclusive(s: System, i: nat, op: Op)
    requires Inv(s) && Enabled(s, i)
    ensures Exclusive(Stepped(s, i, op))
  {
    var s' := Stepped(s, i, op);
    assert CalledUp(s, s.pcs[i]);
    forall a, b | 0 <= a < b < |s.pcs|
      ensures !(Owner(s'.pcs[a]) && Owner(s'.pcs[b]))
    {
      assert !(Owner(s.pcs[a]) && Owner(s.pcs[b]));
      assert i != a ==> !(Owner(s.pcs[a]) && Owner(s.pcs[i]));
      assert i != b ==> !(Owner(s.pcs[b]) && Owner(s.pcs[i]));
    }
  }

  /** A step moves only the thread that takes it, except that waking readies a parked thread. */
  lemma OthersStay(s: System, i: nat, op: Op, j: nat)
    requires Inv(s) && Enabled(s, i) && j < |s.pcs| && j != i
    ensures var pc, pc' := s.pcs[j], Stepped(s, i, op).pcs[j];
            pc' == pc || (pc.Parked? && pc'.Parked? && pc'.op == pc.op)
  {
    assert CalledUp(s, s.pcs[i]);
  }

  /** Only the owner touches the buffer. */
  lemma BufferStays(s: System, i: nat, op: Op)
    requires Enabled(s, i) && !Owner(s.pcs[i])
    ensures Stepped(s, i, op).buffer == s.buffer
  {
  }

  lemma StepChecked(s: System, i: nat, op: Op, j: nat)
    requires Inv(s) && Enabled(s, i) && j < |s.pcs|
    ensures Checked(Stepped(s, i, op), Stepped(s, i, op).pcs[j])
  {
    assert Checked(s, s.pcs[i]) && Checked(s, s.pcs[j]);
    if j != i {
      OthersStay(s, i, op, j);
      if Owner(s.pcs[j]) {
        assert !Owner(s.pcs[i]);
        BufferStays(s, i, op);
      }
    }
  }

  lemma StepFifo(s: System, i: nat, op: Op)
    requires Inv(s) && Enabled(s, i)
    ensures Fifo(Stepped(s, i, op))
  {
    var s' := Stepped(s, i, op);
    assert Checked(s, s.pcs[i]);
    forall j | 0 <= j < |s.pcs|
      ensures Checked(s', s'.pcs[j])
    {
      StepChecked(s, i, op, j);
    }
  }

  lemma StepWaiters(s: System, i: nat, op: Op)
    requires Inv(s) && Enabled(s, i)
    ensures var s' := Stepped(s, i, op);
            && Distinct(s'.waiters) && InRange(s'.waiters, |s'.pcs|)
            && forall t: nat :: t in s'.waiters && t < |s'.pcs| ==> Asleep(s'.pcs[t]) || s'.pcs[t].Flagging?
  {
    var s' := Stepped(s, i, op);
    assert CalledUp(s, s.pcs[i]);
    forall t: nat | t in s'.waiters && t < |s.pcs|
      ensures Asleep(s'.pcs[t]) || s'.pcs[t].Flagging?
    {
      assert t in s.waiters || t == i;
    }
  }

  /** While one thread calls another up, the rest neither own the mutex nor touch the one called. */
  lemma OthersCall(s: System, i: nat, op: Op, j: nat)
    requires Inv(s) && Enabled(s, i) && j < |s.pcs| && j != i && (s.pcs[j].Handing? || s.pcs[j].Waking?)
    ensures CalledUp(Stepped(s, i, op), Stepped(s, i, op).pcs[j])
  {
    assert CalledUp(s, s.pcs[j]);
    assert !Owner(s.pcs[i]);
  }

  lemma StepCalledUp(s: System, i: nat, op: Op, j: nat)
    requires Inv(s) && Enabled(s, i) && j < |s.pcs|
    ensures CalledUp(Stepped(s, i, op), Stepped(s, i, op).pcs[j])
  {
    if j == i {
      assert CalledUp(s, s.pcs[i]);
    } else if s.pcs[j].Handing? || s.pcs[j].Waking? {
      OthersCall(s, i, op, j);
    } else {
      OthersStay(s, i, op, j);
    }
  }

  lemma StepKeeps(s: System, i: nat, op: Op)
    requires Inv(s) && Enabled(s, i)
    ensures Inv(Stepped(s, i, op))
  {
    StepExclusive(s, i, op);
    StepGuarded(s, i, op);
    StepFifo(s, i, op);
    StepWaiters(s, i, op);
    forall j | 0 <= j < |s.pcs|
      ensures CalledUp(Stepped(s, i, op), Stepped(s, i, op).pcs[j])
    {
      StepCalledUp(s, i, op, j);
    }
  }

  // ---- Every reachable state ----

  datatype Move = Move(thread: nat, op: Op)

  ghost predicate IsRun(s: System, run: seq<Move>)
    decreases |run|
  {
    run == [] || (Enabled(s, run[0].thread) && IsRun(Stepped(s, run[0].thread, run[0].op), run[1..]))
  }

  function After(s: System, run: seq<Move>): (r: System)
    requires IsRun(s, run)
    ensures |r.pcs| == |s.pcs|
    decreases |run|
  {
    if run == [] then s else After(Stepped(s, run[0].thread, run[0].op), run[1..])
  }

  lemma {:induction false} RunKeeps(s: System, run: seq<Move>)
    requires Inv(s) && IsRun(s, run)
    ensures Inv(After(s, run)) && After(s, run).capacity == s.capacity
    decreases |run|
  {
    if run != [] {
      StepKeeps(s, run[0].thread, run[0].op);
      RunKeeps(Stepped(s, run[0].thread, run[0].op), run[1..]);
    }
  }

  /** Over all interleavings of any number of producers and consumers: never two owners of the
      mutex, never more than capacity items, and the items taken are a prefix of the items put. */
  lemma ReachableSafe(capacity: nat, threads: nat, run: seq<Move>)
    requires IsRun(Start(capacity, threads), run)
    ensures var s := After(Start(capacity, threads), run);
            && Inv(s)
            && (forall i, j :: 0 <= i < j < |s.pcs| ==> !(Owner(s.pcs[i]) && Owner(s.pcs[j])))
            && |s.buffer| <= capacity
            && s.got <= s.put && s.buffer == s.put[|s.got|..]
  {
    RunKeeps(Start(capacity, threads), run);
  }

  /** Get never reads an empty buffer, and the thread about to be woken is blocked on its channel. */
  lemma NeverPanics(s: System, i: nat)
    requires Inv(s) && i < |s.pcs|
    requires s.pcs[i].Acting? || s.pcs[i].Popping? || s.pcs[i].Waking?
    ensures Enabled(s, i)
  {
    assert Checked(s, s.pcs[i]) && CalledUp(s, s.pcs[i]);
  }

  // ---- Why only safety is claimed of the mutex ----

  ghost predicate Dead(s: System) {
    s.state != 0 && forall i :: 0 <= i < |s.pcs| ==> !Owner(s.pcs[i])
  }

  /** Once nobody owns the mutex and its word is not 0, nobody ever owns it again. */
  lemma DeadStaysDead(s: System, i: nat, op: Op)
    requires Dead(s) && Enabled(s, i)
    ensures Dead(Stepped(s, i, op))
    ensures forall t :: 0 <= t < |s.pcs| && Asleep(s.pcs[t]) ==> Asleep(Stepped(s, i, op).pcs[t])
  {
    assert !Owner(s.pcs[i]);
  }

  /** That state is entered in exactly one way: a thread whose compare-and-swap failed stores 2
      after the owner has left. */
  lemma DiesByLateFlag(s: System, i: nat, op: Op)
    requires Inv(s) && !Dead(s) && Enabled(s, i)
    ensures Dead(Stepped(s, i, op)) <==> s.pcs[i].Flagging? && s.state == 0
  {
    var s' := Stepped(s, i, op);
    if s.state != 0 {
      var j :| 0 <= j < |s.pcs| && Owner(s.pcs[j]);
      assert j == i || Owner(s'.pcs[j]);
      assert CalledUp(s, s.pcs[i]);
      assert s.pcs[i].Waking? ==> Owner(s'.pcs[s.pcs[i].next]);
      assert Owner(s'.pcs[i]) || s.pcs[i].Zeroing? || s.pcs[i].Waking? || j != i;
    } else if s.pcs[i].Locking? {
      assert Owner(s'.pcs[i]);
    }
  }

  /** Over a whole run: once dead, the mutex is dead for good and nobody parked ever wakes. */
  lemma {:induction false} DeadForever(s: System, run: seq<Move>)
    requires Dead(s) && IsRun(s, run)
    ensures Dead(After(s, run))
    ensures forall t :: 0 <= t < |s.pcs| && Asleep(s.pcs[t]) ==> Asleep(After(s, run).pcs[t])
    decreases |run|
  {
    if run != [] {
      DeadStaysDead(s, run[0].thread, run[0].op);
      DeadForever(Stepped(s, run[0].thread, run[0].op), run[1..]);
    }
  }

  /** Some step of the run stores 2 while the word is 0. */
  ghost predicate StoresLate(s: System, run: seq<Move>)
    requires IsRun(s, run)
    decreases |run|
  {
    run != [] &&
    (|| (s.pcs[run[0].thread].Flagging? && s.state == 0)
     || StoresLate(Stepped(s, run[0].thread, run[0].op), run[1..]))
  }

  lemma {:induction false} DiesIff(s: System, run: seq<Move>)
    requires Inv(s) && !Dead(s) && IsRun(s, run)
    ensures Dead(After(s, run)) <==> StoresLate(s, run)
    decreases |run|
  {
    if run != [] {
      hide Stepped;
      var next := Stepped(s, run[0].thread, run[0].op);
      StepKeeps(s, run[0].thread, run[0].op);
      DiesByLateFlag(s, run[0].thread, run[0].op);
      if Dead(next) {
        DeadForever(next, run[1..]);
      } else {
        DiesIff(next, run[1..]);
      }
    }
  }

  /** A run ends with the mutex dead if and only if some step of it stores 2 while the word is 0. */
  lemma DeadExactlyByLateFlag(capacity: nat, threads: nat, run: seq<Move>)
    requires IsRun(Start(capacity, threads), run)
    ensures Dead(After(Start(capacity, threads), run)) <==> StoresLate(Start(capacity, threads), run)
  {
    DiesIff(Start(capacity, threads), run);
  }

  ghost predicate Reaches(s: System, run: seq<Move>, end: System) {
    IsRun(s, run) && After(s, run) == end
  }

  lemma OneStep(s: System, m: Move, rest: seq<Move>, end: System)
    requires Enabled(s, m.thread) && Reaches(Stepped(s, m.thread, m.op), rest, end)
    ensures Reaches(s, [m] + rest, end)
  {
    assert ([m] + rest)[1..] == rest;
  }

  lemma FirstStep(s: System, run: seq<Move>, end: System)
    requires Reaches(s, run, end) && run != []
    ensures Enabled(s, run[0].thread) && Reaches(Stepped(s, run[0].thread, run[0].op), run[1..], end)
  {
  }

  lemma {:induction false} Join(s: System, run: seq<Move>, mid: System, rest: seq<Move>, end: System)
    requires Reaches(s, run, mid) && Reaches(mid, rest, end)
    ensures Reaches(s, run + rest, end)
    decreases |run|
  {
    if run == [] {
      assert run + rest == rest;
    } else {
      FirstStep(s, run, mid);
      Join(Stepped(s, run[0].thread, run[0].op), run[1..], mid, rest, end);
      OneStep(s, run[0], run[1..] + rest, end);
      assert [run[0]] + (run[1..] + rest) == run + rest;
    }
  }

  function Two(capacity: nat, state: nat, waiters: seq<nat>, items: seq<int>, p0: Pc, p1: Pc): System {
    System(capacity, state, None, waiters, waiters, [], [], [], items, items, [], [p0, p1])
  }

  /** Thread 0 takes the lock and thread 1 fails to. */
  lemma Contend(capacity: nat, item: int) returns (run: seq<Move>)
    ensures Reaches(Start(capacity, 2), run, Two(capacity, 1, [], [], Checking(Put(item)), Enqueuing(Get)))
  {
    var a, b := Move(0, Put(item)), Move(1, Get);
    var s0 := Two(capacity, 0, [], [], Idle, Idle);
    var s1 := Two(capacity, 0, [], [], Locking(Put(item)), Idle);
    var s2 := Two(capacity, 1, [], [], Checking(Put(item)), Idle);
    var s3 := Two(capacity, 1, [], [], Checking(Put(item)), Locking(Get));
    var s4 := Two(capacity, 1, [], [], Checking(Put(item)), Enqueuing(Get));
    assert Start(capacity, 2) == s0;
    assert Stepped(s0, 0, a.op) == s1 && Stepped(s1, 0, a.op) == s2;
    assert Stepped(s2, 1, b.op) == s3 && Stepped(s3, 1, b.op) == s4;
    OneStep(s3, b, [], s4);
    OneStep(s2, b, [b], s4);
    OneStep(s1, a, [b, b], s4);
    OneStep(s0, a, [a, b, b], s4);
    run := [a] + [a, b, b];
  }

  /** Thread 0 puts its item. */
  lemma Deposit(capacity: nat, item: int) returns (run: seq<Move>)
    requires capacity > 0
    ensures Reaches(Two(capacity, 1, [], [], Checking(Put(item)), Enqueuing(Get)), run,
                    Two(capacity, 1, [], [item], Signalling(Put(item)), Enqueuing(Get)))
  {
    var a := Move(0, Put(item));
    var s0 := Two(capacity, 1, [], [], Checking(Put(item)), Enqueuing(Get));
    var s1 := Two(capacity, 1, [], [], Acting(Put(item)), Enqueuing(Get));
    var s2 := Two(capacity, 1, [], [item], Signalling(Put(item)), Enqueuing(Get));
    assert Stepped(s0, 0, a.op) == s1 && Stepped(s1, 0, a.op) == s2;
    OneStep(s1, a, [], s2);
    OneStep(s0, a, [a], s2);
    run := [a] + [a];
  }

  /** Thread 0 unlocks, seeing no waiter. */
  lemma Depart(capacity: nat, item: int) returns (run: seq<Move>)
    ensures Reaches(Two(capacity, 1, [], [item], Signalling(Put(item)), Enqueuing(Get)), run,
                    Two(capacity, 0, [], [item], Idle, Enqueuing(Get)))
  {
    var a := Move(0, Put(item));
    var s2 := Two(capacity, 1, [], [item], Signalling(Put(item)), Enqueuing(Get));
    var s3 := Two(capacity, 1, [], [item], Releasing(None), Enqueuing(Get));
    var s4 := Two(capacity, 1, [], [item], Zeroing(None), Enqueuing(Get)).(guard := Some(0));
    var s5 := Two(capacity, 0, [], [item], Idle, Enqueuing(Get));
    assert Stepped(s2, 0, a.op) == s3 && Stepped(s3, 0, a.op) == s4 && Stepped(s4, 0, a.op) == s5;
    OneStep(s4, a, [], s5);
    OneStep(s3, a, [a], s5);
    OneStep(s2, a, [a] + [a], s5);
    run := [a] + ([a] + [a]);
  }

  /** Two threads can get there: the second enqueues itself after the first has left, parks, and
      stays parked however the run goes on. */
  lemma LostWakeup(capacity: nat, item: int) returns (run: seq<Move>)
    requires capacity > 0
    ensures IsRun(Start(capacity, 2), run) && Dead(After(Start(capacity, 2), run))
    ensures var s := After(Start(capacity, 2), run);
            forall more :: IsRun(s, more) ==> Asleep(After(s, more).pcs[1])
  {
    var b := Move(1, Get);
    var s1 := Two(capacity, 1, [], [], Checking(Put(item)), Enqueuing(Get));
    var s2 := Two(capacity, 1, [], [item], Signalling(Put(item)), Enqueuing(Get));
    var s3 := Two(capacity, 0, [], [item], Idle, Enqueuing(Get));
    var s4 := Two(capacity, 0, [1], [item], Idle, Flagging(Get)).(guard := Some(1));
    var s5 := Two(capacity, 2, [1], [item], Idle, Parked(Get, false));
    var x := Contend(capacity, item);
    var y := Deposit(capacity, item);
    var z := Depart(capacity, item);
    assert Stepped(s3, 1, b.op) == s4 && Stepped(s4, 1, b.op) == s5;
    OneStep(s4, b, [], s5);
    OneStep(s3, b, [b], s5);
    Join(s2, z, s3, [b] + [b], s5);
    Join(s1, y, s2, z + ([b] + [b]), s5);
    Join(Start(capacity, 2), x, s1, y + (z + ([b] + [b])), s5);
    run := x + (y + (z + ([b] + [b])));
    forall more | IsRun(s5, more)
      ensures Asleep(After(s5, more).pcs[1])
    {
      DeadForever(s5, more);
    }
  }
}
