/**
  pkg/concurrency/rwlock.go as a protocol.  Any number of threads each run a script of read
  and write operations.  A step is one critical section: everything a thread does between
  taking the lock's internal mutex and releasing it or sleeping on a condition.
 */
module RwLock {
  import opened Collections

  datatype Kind = Read | Write

  datatype Pc = Idle | ReadAsleep | ReadWoken | Reading | WriteAsleep | WriteWoken | Writing

  /** `ops` is what is left of the script; while the thread is not idle, ops[0] is under way. */
  datatype Thread = Thread(pc: Pc, ops: seq<Kind>)

  /** The fields of RWLock, and the threads that use it. */
  datatype State = State(readers: int, writer: bool, waiters: int, threads: seq<Thread>)

  /** `wakes` is the sleeping writer that Signal picks, if there is one. */
  datatype Action =
    | RLock(t: nat)
    | RRetry(t: nat)
    | RUnlock(t: nat, wakes: Option<nat>)
    | Lock(t: nat)
    | Retry(t: nat)
    | Unlock(t: nat, wakes: Option<nat>)

  function Initial(scripts: seq<seq<Kind>>): State {
    State(0, false, 0, seq(|scripts|, i requires 0 <= i < |scripts| => Thread(Idle, scripts[i])))
  }

  // ---------------------------------------------------------------------------------------
  // Steps
  // ---------------------------------------------------------------------------------------

  predicate Asleep(ts: seq<Thread>, pc: Pc) {
    exists i :: 0 <= i < |ts| && ts[i].pc == pc
  }

  /** Signal wakes one sleeping writer if there is any. */
  predicate Signals(ts: seq<Thread>, wakes: Option<nat>) {
    if wakes.Some? then wakes.value < |ts| && ts[wakes.value].pc == WriteAsleep
    else !Asleep(ts, WriteAsleep)
  }

  function Signalled(ts: seq<Thread>, wakes: Option<nat>): (r: seq<Thread>)
    requires Signals(ts, wakes)
    ensures |r| == |ts|
  {
    if wakes.Some? then ts[wakes.value := ts[wakes.value].(pc := WriteWoken)] else ts
  }

  function Roused(t: Thread): Thread {
    if t.pc == ReadAsleep then t.(pc := ReadWoken) else t
  }

  /** Broadcast wakes every sleeping reader. */
  function Broadcasted(ts: seq<Thread>): (r: seq<Thread>)
    ensures |r| == |ts|
  {
    seq(|ts|, i requires 0 <= i < |ts| => Roused(ts[i]))
  }

  function At(s: State, t: nat, pc: Pc): (ts: seq<Thread>)
    requires t < |s.threads|
    ensures |ts| == |s.threads|
  {
    s.threads[t := s.threads[t].(pc := pc)]
  }

  function Done(s: State, t: nat): (ts: seq<Thread>)
    requires t < |s.threads| && s.threads[t].ops != []
    ensures |ts| == |s.threads|
  {
    s.threads[t := Thread(Idle, s.threads[t].ops[1..])]
  }

  /** The loop test of RLock, whether reached first or after a wait. */
  function TryRead(s: State, t: nat): State
    requires t < |s.threads|
  {
    if s.writer || s.waiters > 0 then s.(threads := At(s, t, ReadAsleep))
    else s.(readers := s.readers + 1, threads := At(s, t, Reading))
  }

  /** The loop test of Lock. */
  function TryWrite(s: State, t: nat): State
    requires t < |s.threads|
  {
    if s.writer || s.readers > 0 then s.(threads := At(s, t, WriteAsleep))
    else s.(waiters := s.waiters - 1, writer := true, threads := At(s, t, Writing))
  }

  predicate Enabled(s: State, a: Action) {
    && a.t < |s.threads| && s.threads[a.t].ops != []
    && match a {
         case RLock(t) => s.threads[t].pc == Idle && s.threads[t].ops[0] == Read
         case RRetry(t) => s.threads[t].pc == ReadWoken
         case RUnlock(t, w) => s.threads[t].pc == Reading && Signals(Done(s, t), w)
         case Lock(t) => s.threads[t].pc == Idle && s.threads[t].ops[0] == Write
         case Retry(t) => s.threads[t].pc == WriteWoken
         case Unlock(t, w) => s.threads[t].pc == Writing && Signals(Done(s, t), w)
       }
  }

  function Apply(s: State, a: Action): (s': State)
    requires Enabled(s, a)
    ensures |s'.threads| == |s.threads|
  {
    match a
    case RLock(t) => TryRead(s, t)
    case RRetry(t) => TryRead(s, t)
    case RUnlock(t, w) =>
      s.(readers := s.readers - 1,
         threads := if s.readers - 1 == 0 then Signalled(Done(s, t), w) else Done(s, t))
    case Lock(t) => TryWrite(s.(waiters := s.waiters + 1), t)
    case Retry(t) => TryWrite(s, t)
    case Unlock(t, w) =>
      s.(writer := false,
         threads := if s.waiters > 0 then Signalled(Done(s, t), w) else Broadcasted(Done(s, t)))
  }

  // ---------------------------------------------------------------------------------------
  // Counting threads by program counter
  // ---------------------------------------------------------------------------------------

  ghost function Count(ts: seq<Thread>, pc: Pc): nat {
    if ts == [] then 0 else Count(ts[..|ts|-1], pc) + if ts[|ts|-1].pc == pc then 1 else 0
  }

  lemma {:induction false} CountUpdate(ts: seq<Thread>, i: nat, t: Thread, pc: Pc)
    requires i < |ts|
    ensures Count(ts[i := t], pc) == Count(ts, pc) - (if ts[i].pc == pc then 1 else 0) + (if t.pc == pc then 1 else 0)
  {
    var n := |ts| - 1;
    if i == n {
      assert ts[i := t][..n] == ts[..n];
    } else {
      assert ts[i := t][..n] == ts[..n][i := t];
      CountUpdate(ts[..n], i, t, pc);
    }
  }

  lemma {:induction false} CountSome(ts: seq<Thread>, pc: Pc)
    ensures Count(ts, pc) > 0 <==> Asleep(ts, pc)
  {
    if ts != [] {
      var n := |ts| - 1;
      CountSome(ts[..n], pc);
      if Count(ts[..n], pc) > 0 {
        var i :| 0 <= i < n && ts[..n][i].pc == pc;
        assert ts[i].pc == pc;
      }
      if Asleep(ts, pc) && ts[n].pc != pc {
        var i :| 0 <= i < |ts| && ts[i].pc == pc;
        assert ts[..n][i].pc == pc;
      }
    }
  }

  lemma CountTwo(ts: seq<Thread>, i: nat, j: nat, pc: Pc)
    requires i < |ts| && j < |ts| && i != j && ts[i].pc == pc && ts[j].pc == pc
    ensures Count(ts, pc) >= 2
  {
    var other := if pc == Idle then Reading else Idle;
    CountUpdate(ts, i, ts[i].(pc := other), pc);
    CountUpdate(ts[i := ts[i].(pc := other)], j, ts[j].(pc := other), pc);
  }

  lemma {:induction false} CountBroadcast(ts: seq<Thread>, pc: Pc)
    ensures Count(Broadcasted(ts), pc) ==
            if pc == ReadAsleep then 0
            else if pc == ReadWoken then Count(ts, ReadWoken) + Count(ts, ReadAsleep)
            else Count(ts, pc)
  {
    if ts != [] {
      var n := |ts| - 1;
      assert Broadcasted(ts)[..n] == Broadcasted(ts[..n]);
      CountBroadcast(ts[..n], pc);
    }
  }

  // ---------------------------------------------------------------------------------------
  // What every step keeps
  // ---------------------------------------------------------------------------------------

  ghost predicate Scripted(t: Thread) {
    match t.pc
    case Idle => true
    case ReadAsleep | ReadWoken | Reading => t.ops != [] && t.ops[0] == Read
    case WriteAsleep | WriteWoken | Writing => t.ops != [] && t.ops[0] == Write
  }

  /** The lock's counters tell the truth, and never a writer beside anybody else. */
  ghost predicate Exclusive(s: State) {
    && s.readers == Count(s.threads, Reading)
    && Count(s.threads, Writing) == (if s.writer then 1 else 0)
    && s.waiters == Count(s.threads, WriteAsleep) + Count(s.threads, WriteWoken)
    && (s.writer ==> s.readers == 0)
  }

  /** No wakeup is lost: whoever sleeps has somebody who will wake them. */
  ghost predicate Attended(s: State) {
    && (Count(s.threads, ReadAsleep) > 0 ==> s.writer || s.waiters > 0)
    && (Count(s.threads, WriteAsleep) > 0 ==> s.writer || s.readers > 0 || Count(s.threads, WriteWoken) > 0)
  }

  ghost predicate Inv(s: State) {
    Exclusive(s) && Attended(s) && AllScripted(s.threads)
  }

  ghost predicate AllScripted(ts: seq<Thread>) {
    forall i :: 0 <= i < |ts| ==> Scripted(ts[i])
  }

  lemma {:induction false} CountIdle(ts: seq<Thread>, pc: Pc)
    requires pc != Idle && forall i :: 0 <= i < |ts| ==> ts[i].pc == Idle
    ensures Count(ts, pc) == 0
  {
    if ts != [] { CountIdle(ts[..|ts|-1], pc); }
  }

  lemma InitialInv(scripts: seq<seq<Kind>>)
    ensures Inv(Initial(scripts))
  {
    var ts := Initial(scripts).threads;
    CountIdle(ts, Reading);
    CountIdle(ts, Writing);
    CountIdle(ts, WriteAsleep);
    CountIdle(ts, WriteWoken);
    CountIdle(ts, ReadAsleep);
  }

  /** The difference that replacing a thread makes to one count. */
  ghost function Shift(before: Thread, after: Thread, pc: Pc): int {
    (if after.pc == pc then 1 else 0) - (if before.pc == pc then 1 else 0)
  }

  /** All the counts that matter, with thread i replaced. */
  lemma Counts(ts: seq<Thread>, i: nat, t: Thread)
    requires i < |ts|
    ensures Count(ts[i := t], Reading) == Count(ts, Reading) + Shift(ts[i], t, Reading)
    ensures Count(ts[i := t], Writing) == Count(ts, Writing) + Shift(ts[i], t, Writing)
    ensures Count(ts[i := t], WriteAsleep) == Count(ts, WriteAsleep) + Shift(ts[i], t, WriteAsleep)
    ensures Count(ts[i := t], WriteWoken) == Count(ts, WriteWoken) + Shift(ts[i], t, WriteWoken)
    ensures Count(ts[i := t], ReadAsleep) == Count(ts, ReadAsleep) + Shift(ts[i], t, ReadAsleep)
  {
    CountUpdate(ts, i, t, Reading);
    CountUpdate(ts, i, t, Writing);
    CountUpdate(ts, i, t, WriteAsleep);
    CountUpdate(ts, i, t, WriteWoken);
    CountUpdate(ts, i, t, ReadAsleep);
  }

  lemma TryReadInv(s: State, t: nat)
    requires t < |s.threads| && Inv(s) && s.threads[t].ops != [] && s.threads[t].ops[0] == Read
    requires s.threads[t].pc == Idle || s.threads[t].pc == ReadWoken
    ensures Inv(TryRead(s, t))
  {
    Counts(s.threads, t, s.threads[t].(pc := ReadAsleep));
    Counts(s.threads, t, s.threads[t].(pc := Reading));
  }

  lemma LockInv(s: State, t: nat)
    requires Enabled(s, Lock(t)) && Inv(s)
    ensures Inv(Apply(s, Lock(t)))
  {
    Counts(s.threads, t, s.threads[t].(pc := WriteAsleep));
    Counts(s.threads, t, s.threads[t].(pc := Writing));
  }

  lemma RetryInv(s: State, t: nat)
    requires Enabled(s, Retry(t)) && Inv(s)
    ensures Inv(Apply(s, Retry(t)))
  {
    Counts(s.threads, t, s.threads[t].(pc := WriteAsleep));
    Counts(s.threads, t, s.threads[t].(pc := Writing));
  }

  lemma SignalCounts(ts: seq<Thread>, w: Option<nat>)
    requires Signals(ts, w)
    ensures var r := Signalled(ts, w);
            && (Count(r, WriteAsleep) > 0 ==> Count(r, WriteWoken) > 0)
            && Count(r, WriteAsleep) + Count(r, WriteWoken) == Count(ts, WriteAsleep) + Count(ts, WriteWoken)
            && Count(r, Reading) == Count(ts, Reading) && Count(r, Writing) == Count(ts, Writing)
            && Count(r, ReadAsleep) == Count(ts, ReadAsleep)
  {
    CountSome(ts, WriteAsleep);
    if w.Some? {
      Counts(ts, w.value, ts[w.value].(pc := WriteWoken));
    }
  }

  lemma BroadcastCounts(ts: seq<Thread>)
    ensures var r := Broadcasted(ts);
            && Count(r, ReadAsleep) == 0 && Count(r, Reading) == Count(ts, Reading)
            && Count(r, Writing) == Count(ts, Writing)
            && Count(r, WriteAsleep) == Count(ts, WriteAsleep) && Count(r, WriteWoken) == Count(ts, WriteWoken)
  {
    CountBroadcast(ts, ReadAsleep);
    CountBroadcast(ts, Reading);
    CountBroadcast(ts, Writing);
    CountBroadcast(ts, WriteAsleep);
    CountBroadcast(ts, WriteWoken);
  }

  lemma RUnlockInv(s: State, t: nat, w: Option<nat>)
    requires Enabled(s, RUnlock(t, w)) && Inv(s)
    ensures Inv(Apply(s, RUnlock(t, w)))
  {
    Counts(s.threads, t, Thread(Idle, s.threads[t].ops[1..]));
    CountSome(s.threads, Reading);
    ReleaseScripted(Done(s, t), w);
    SignalCounts(Done(s, t), w);
  }

  lemma UnlockInv(s: State, t: nat, w: Option<nat>)
    requires Enabled(s, Unlock(t, w)) && Inv(s)
    ensures Inv(Apply(s, Unlock(t, w)))
  {
    Counts(s.threads, t, Thread(Idle, s.threads[t].ops[1..]));
    CountSome(s.threads, Writing);
    ReleaseScripted(Done(s, t), w);
    if s.waiters > 0 {
      SignalCounts(Done(s, t), w);
    } else {
      BroadcastCounts(Done(s, t));
    }
  }

  lemma ReleaseScripted(ts: seq<Thread>, w: Option<nat>)
    requires AllScripted(ts) && Signals(ts, w)
    ensures AllScripted(Signalled(ts, w)) && AllScripted(Broadcasted(ts))
  {
    forall i | 0 <= i < |ts| ensures Scripted(Roused(ts[i])) {
    }
  }

  lemma StepInv(s: State, a: Action)
    requires Enabled(s, a) && Inv(s)
    ensures Inv(Apply(s, a))
  {
    match a
    case RLock(t) => TryReadInv(s, t);
    case RRetry(t) => TryReadInv(s, t);
    case RUnlock(t, w) => RUnlockInv(s, t, w);
    case Lock(t) => LockInv(s, t);
    case Retry(t) => RetryInv(s, t);
    case Unlock(t, w) => UnlockInv(s, t, w);
  }

  /** In no state that satisfies the invariant does a writer share the lock. */
  lemma MutualExclusion(s: State, i: nat, j: nat)
    requires Inv(s) && i < |s.threads| && j < |s.threads| && i != j && s.threads[i].pc == Writing
    ensures s.threads[j].pc != Writing && s.threads[j].pc != Reading
  {
    CountSome(s.threads, Writing);
    CountSome(s.threads, Reading);
    if s.threads[j].pc == Writing {
      CountTwo(s.threads, i, j, Writing);
    }
  }

  // ---------------------------------------------------------------------------------------
  // No deadlock and no starvation of the whole
  // ---------------------------------------------------------------------------------------

  ghost predicate Finished(s: State) {
    forall i :: 0 <= i < |s.threads| ==> s.threads[i].ops == []
  }

  lemma SomeSignal(ts: seq<Thread>) returns (w: Option<nat>)
    ensures Signals(ts, w)
  {
    if Asleep(ts, WriteAsleep) {
      var i :| 0 <= i < |ts| && ts[i].pc == WriteAsleep;
      w := Some(i);
    } else {
      w := None;
    }
  }

  /** A thread that is not asleep can move. */
  lemma AwakeMoves(s: State, t: nat) returns (a: Action)
    requires Inv(s) && t < |s.threads| && s.threads[t].ops != []
    requires s.threads[t].pc != ReadAsleep && s.threads[t].pc != WriteAsleep
    ensures Enabled(s, a)
  {
    match s.threads[t].pc {
      case Idle => a := if s.threads[t].ops[0] == Read then RLock(t) else Lock(t);
      case ReadWoken => a := RRetry(t);
      case WriteWoken => a := Retry(t);
      case Reading =>
        var w := SomeSignal(Done(s, t));
        a := RUnlock(t, w);
      case Writing =>
        var w := SomeSignal(Done(s, t));
        a := Unlock(t, w);
    }
  }

  lemma Witness(s: State, pc: Pc) returns (t: nat)
    requires Count(s.threads, pc) > 0
    ensures t < |s.threads| && s.threads[t].pc == pc
  {
    CountSome(s.threads, pc);
    t :| t < |s.threads| && s.threads[t].pc == pc;
  }

  /** Unless every script is finished, some thread can move: never is everyone asleep. */
  lemma NoDeadlock(s: State) returns (a: Action)
    requires Inv(s) && !Finished(s)
    ensures Enabled(s, a)
  {
    var t :| 0 <= t < |s.threads| && s.threads[t].ops != [];
    CountSome(s.threads, ReadAsleep);
    CountSome(s.threads, WriteAsleep);
    if s.threads[t].pc == ReadAsleep || s.threads[t].pc == WriteAsleep {
      if s.writer {
        t := Witness(s, Writing);
      } else if s.readers > 0 {
        t := Witness(s, Reading);
      } else {
        t := Witness(s, WriteWoken);
      }
      assert Scripted(s.threads[t]);
    }
    a := AwakeMoves(s, t);
  }

  /** With nobody holding the lock, a sleeper means that a woken thread is on its way. */
  lemma ReleasedIsAttended(s: State)
    requires Inv(s) && !s.writer && s.readers == 0
    requires Count(s.threads, ReadAsleep) > 0 || Count(s.threads, WriteAsleep) > 0
    ensures Count(s.threads, WriteWoken) > 0
  {
  }

  ghost function Budget(ops: seq<Kind>, each: nat): nat {
    if ops == [] then 0 else each + Budget(ops[1..], each)
  }

  ghost function Spent(pc: Pc): nat {
    match pc
    case Idle => 0
    case ReadWoken | WriteWoken => 1
    case ReadAsleep | WriteAsleep => 2
    case Reading | Writing => 3
  }

  ghost function Load(t: Thread, each: nat): int {
    Budget(t.ops, each) - Spent(t.pc)
  }

  ghost function Measure(ts: seq<Thread>, each: nat): int {
    if ts == [] then 0 else Measure(ts[..|ts|-1], each) + Load(ts[|ts|-1], each)
  }

  lemma {:induction false} MeasureUpdate(ts: seq<Thread>, i: nat, t: Thread, each: nat)
    requires i < |ts|
    ensures Measure(ts[i := t], each) == Measure(ts, each) - Load(ts[i], each) + Load(t, each)
  {
    var n := |ts| - 1;
    if i == n {
      assert ts[i := t][..n] == ts[..n];
    } else {
      assert ts[i := t][..n] == ts[..n][i := t];
      MeasureUpdate(ts[..n], i, t, each);
    }
  }

  lemma {:induction false} MeasureNatural(ts: seq<Thread>, each: nat)
    requires each >= 3 && AllScripted(ts)
    ensures Measure(ts, each) >= 0
  {
    if ts != [] {
      var t := ts[|ts|-1];
      assert Scripted(t);
      MeasureNatural(ts[..|ts|-1], each);
    }
  }

  lemma {:induction false} MeasureBroadcast(ts: seq<Thread>, each: nat)
    ensures Measure(ts, each) <= Measure(Broadcasted(ts), each) <= Measure(ts, each) + |ts|
  {
    if ts != [] {
      var n := |ts| - 1;
      assert Broadcasted(ts)[..n] == Broadcasted(ts[..n]);
      MeasureBroadcast(ts[..n], each);
    }
  }

  lemma MeasureSignal(ts: seq<Thread>, w: Option<nat>, each: nat)
    requires Signals(ts, w)
    ensures Measure(Signalled(ts, w), each) <= Measure(ts, each) + 1
  {
    if w.Some? {
      MeasureUpdate(ts, w.value, ts[w.value].(pc := WriteWoken), each);
    }
  }

  /** Moving one thread to a sleep or into the lock uses some of its budget. */
  lemma TryDecreases(s: State, t: nat, pc: Pc, each: nat)
    requires t < |s.threads| && Spent(s.threads[t].pc) < Spent(pc)
    ensures Measure(At(s, t, pc), each) < Measure(s.threads, each)
  {
    MeasureUpdate(s.threads, t, s.threads[t].(pc := pc), each);
  }

  lemma DoneDecreases(s: State, t: nat, each: nat)
    requires t < |s.threads| && s.threads[t].ops != [] && Spent(s.threads[t].pc) == 3
    ensures Measure(Done(s, t), each) == Measure(s.threads, each) - each + 3
  {
    MeasureUpdate(s.threads, t, Thread(Idle, s.threads[t].ops[1..]), each);
  }

  /** Every step uses up some of the scripts' budget, waking included. */
  lemma StepDecreases(s: State, a: Action)
    requires Enabled(s, a)
    ensures Measure(Apply(s, a).threads, |s.threads| + 5) < Measure(s.threads, |s.threads| + 5)
  {
    var each := |s.threads| + 5;
    var t := a.t;
    match a {
      case RUnlock(_, w) =>
        DoneDecreases(s, t, each);
        MeasureSignal(Done(s, t), w, each);
      case Unlock(_, w) =>
        DoneDecreases(s, t, each);
        MeasureSignal(Done(s, t), w, each);
        MeasureBroadcast(Done(s, t), each);
      case _ =>
        TryDecreases(s, t, ReadAsleep, each);
        TryDecreases(s, t, Reading, each);
        TryDecreases(s, t, WriteAsleep, each);
        TryDecreases(s, t, Writing, each);
    }
  }

  ghost predicate IsRun(s: State, acts: seq<Action>)
    decreases |acts|
  {
    acts == [] || (Enabled(s, acts[0]) && IsRun(Apply(s, acts[0]), acts[1..]))
  }

  ghost function After(s: State, acts: seq<Action>): State
    requires IsRun(s, acts)
    decreases |acts|
  {
    if acts == [] then s else After(Apply(s, acts[0]), acts[1..])
  }

  /** Every interleaving keeps the invariant and is at most as long as the measure. */
  lemma {:induction false} RunBounded(s: State, acts: seq<Action>)
    requires Inv(s) && IsRun(s, acts)
    ensures Inv(After(s, acts))
    ensures |acts| + Measure(After(s, acts).threads, |s.threads| + 5) <= Measure(s.threads, |s.threads| + 5)
    ensures |After(s, acts).threads| == |s.threads|
    decreases |acts|
  {
    if acts != [] {
      StepInv(s, acts[0]);
      StepDecreases(s, acts[0]);
      RunBounded(Apply(s, acts[0]), acts[1..]);
    }
  }

  lemma StuckIsFinished(s: State)
    requires Inv(s) && forall a :: !Enabled(s, a)
    ensures Finished(s) && !s.writer && s.readers == 0 && s.waiters == 0
  {
    if !Finished(s) {
      var a := NoDeadlock(s);
    } else {
      FinishedIsFree(s);
    }
  }

  /** Every interleaving of any scripts ends, and it can only end with every script completed and
      the lock free. */
  lemma EveryRunFinishes(scripts: seq<seq<Kind>>, acts: seq<Action>)
    requires IsRun(Initial(scripts), acts)
    ensures |acts| <= Measure(Initial(scripts).threads, |scripts| + 5)
    ensures (forall a :: !Enabled(After(Initial(scripts), acts), a)) ==>
              var s := After(Initial(scripts), acts); Finished(s) && !s.writer && s.readers == 0 && s.waiters == 0
  {
    var s0 := Initial(scripts);
    InitialInv(scripts);
    RunBounded(s0, acts);
    var s := After(s0, acts);
    MeasureNatural(s.threads, |scripts| + 5);
    if forall a :: !Enabled(s, a) {
      StuckIsFinished(s);
    }
  }

  lemma FinishedIsFree(s: State)
    requires Inv(s) && Finished(s)
    ensures !s.writer && s.readers == 0 && s.waiters == 0
  {
    forall i | 0 <= i < |s.threads| ensures s.threads[i].pc == Idle {
      assert Scripted(s.threads[i]);
    }
    CountIdle(s.threads, Reading);
    CountIdle(s.threads, Writing);
    CountIdle(s.threads, WriteAsleep);
    CountIdle(s.threads, WriteWoken);
  }

  /** A writer is waiting at every step of the run. */
  ghost predicate WriterWaits(s: State, acts: seq<Action>)
    requires IsRun(s, acts)
    decreases |acts|
  {
    acts == [] || (s.waiters > 0 && WriterWaits(Apply(s, acts[0]), acts[1..]))
  }

  lemma NoReaderEnters(s: State, a: Action, i: nat)
    requires Enabled(s, a) && s.waiters > 0 && i < |s.threads|
    ensures Apply(s, a).readers <= s.readers
    ensures Apply(s, a).threads[i].pc == Reading ==> s.threads[i].pc == Reading
  {
  }

  /** Writer preference: as long as a writer waits, however long that is, nobody joins the readers. */
  lemma {:induction false} WritersFirst(s: State, acts: seq<Action>, i: nat)
    requires IsRun(s, acts) && WriterWaits(s, acts) && i < |s.threads|
    ensures After(s, acts).readers <= s.readers
    ensures |After(s, acts).threads| == |s.threads|
    ensures After(s, acts).threads[i].pc == Reading ==> s.threads[i].pc == Reading
    decreases |acts|
  {
    if acts != [] {
      NoReaderEnters(s, acts[0], i);
      WritersFirst(Apply(s, acts[0]), acts[1..], i);
    }
  }
}
