/** pkg/concurrency/dining_philosophers.go: philosophers who take the lower-numbered fork first,
    under every interleaving of their lock and unlock steps. */
module Dining {
  import opened Collections

  /** Where a philosopher's goroutine stands in its loop. */
  datatype Pc = Thinking | HasFirst | HasBoth | Ate | PutSecond

  datatype Philosopher = Philosopher(pc: Pc, meal: nat, eaten: nat)

  /** The fork mutexes, each with the philosopher who locked it, and the goroutines. */
  datatype Table = Table(forks: seq<Option<nat>>, seats: seq<Philosopher>, goal: nat)

  // ---- The program ----

  function Size(n: int): (r: nat)
    ensures r > 0
  {
    if n <= 0 then 5 else n
  }

  function RightFork(i: nat, n: nat): (f: nat)
    requires i < n
    ensures f < n && f == (i + 1) % n
  {
    if i + 1 == n then 0 else i + 1
  }

  function First(i: nat, n: nat): (f: nat)
    requires i < n
    ensures f < n
  {
    if i > RightFork(i, n) then RightFork(i, n) else i
  }

  function Second(i: nat, n: nat): (f: nat)
    requires i < n
    ensures f < n
  {
    if i > RightFork(i, n) then i else RightFork(i, n)
  }

  /** The table as RunSafeResourceHierarchy starts, with the meals already counted. */
  function Start(n: int, goal: int, eaten: seq<nat>): Table
    requires |eaten| == Size(n)
  {
    Table(seq(Size(n), _ => None), seq(Size(n), i requires 0 <= i < Size(n) => Philosopher(Thinking, 0, eaten[i])),
          if goal < 0 then 0 else goal)
  }

  ghost predicate Shaped(s: Table) {
    |s.forks| == |s.seats| > 0
  }

  predicate Enabled(s: Table, i: nat)
    requires Shaped(s)
  {
    && i < |s.seats|
    && match s.seats[i].pc
       case Thinking => s.seats[i].meal < s.goal && s.forks[First(i, |s.seats|)].None?
       case HasFirst => s.forks[Second(i, |s.seats|)].None?
       case _ => true
  }

  function Stepped(s: Table, i: nat): (r: Table)
    requires Shaped(s) && Enabled(s, i)
    ensures Shaped(r) && |r.seats| == |s.seats| && r.goal == s.goal
  {
    var n, p := |s.seats|, s.seats[i];
    var first, second := First(i, n), Second(i, n);
    match p.pc
    case Thinking => s.(forks := s.forks[first := Some(i)], seats := s.seats[i := p.(pc := HasFirst)])
    case HasFirst => s.(forks := s.forks[second := Some(i)], seats := s.seats[i := p.(pc := HasBoth)])
    case HasBoth => s.(seats := s.seats[i := p.(pc := Ate, eaten := p.eaten + 1)])
    case Ate => s.(forks := s.forks[second := None], seats := s.seats[i := p.(pc := PutSecond)])
    case PutSecond =>
      s.(forks := s.forks[first := None], seats := s.seats[i := p.(pc := Thinking, meal := p.meal + 1)])
  }

  // ---- What every step keeps ----

  predicate Holds(s: Table, i: nat, f: nat)
    requires i < |s.seats|
  {
    || (f == First(i, |s.seats|) && !s.seats[i].pc.Thinking?)
    || (f == Second(i, |s.seats|) && (s.seats[i].pc.HasBoth? || s.seats[i].pc.Ate?))
  }

  /** A fork is locked by i exactly when i has taken and not yet released it. */
  ghost predicate Owned(s: Table)
    requires Shaped(s)
  {
    && (forall f :: 0 <= f < |s.forks| && s.forks[f].Some? ==> s.forks[f].value < |s.seats|)
    && (forall i: nat, f: nat :: i < |s.seats| && f < |s.forks| ==> (s.forks[f] == Some(i) <==> Holds(s, i, f)))
  }

  predicate CountedAt(s: Table, e: seq<nat>, i: nat)
    requires i < |s.seats| && i < |e|
  {
    var p := s.seats[i];
    && p.eaten == e[i] + p.meal + (if p.pc.Ate? || p.pc.PutSecond? then 1 else 0)
    && p.meal <= s.goal && (!p.pc.Thinking? ==> p.meal < s.goal)
  }

  /** Meals counted so far are the loop counters, plus one between eating and the end of the loop. */
  ghost predicate Counted(s: Table, e: seq<nat>) {
    |e| == |s.seats| && forall i :: 0 <= i < |e| ==> CountedAt(s, e, i)
  }

  ghost predicate Inv(s: Table, e: seq<nat>) {
    Shaped(s) && |s.seats| >= 2 && Owned(s) && Counted(s, e)
  }

  lemma ForksDiffer(i: nat, n: nat)
    requires i < n && n >= 2
    ensures First(i, n) < Second(i, n)
  {
  }

  lemma StepOwned(s: Table, i: nat)
    requires Shaped(s) && |s.seats| >= 2 && Owned(s) && Enabled(s, i)
    ensures Owned(Stepped(s, i))
  {
    var n, s' := |s.seats|, Stepped(s, i);
    ForksDiffer(i, n);
    forall j: nat, f: nat | j < n && f < n
      ensures s'.forks[f] == Some(j) <==> Holds(s', j, f)
    {
      assert s.forks[f] == Some(j) <==> Holds(s, j, f);
      assert Holds(s, i, f) <==> s.forks[f] == Some(i);
      assert j != i ==> (Holds(s', j, f) <==> Holds(s, j, f));
    }
  }

  lemma StepKeeps(s: Table, e: seq<nat>, i: nat)
    requires Inv(s, e) && Enabled(s, i)
    ensures Inv(Stepped(s, i), e)
  {
    StepOwned(s, i);
    var s' := Stepped(s, i);
    forall j | 0 <= j < |e|
      ensures CountedAt(s', e, j)
    {
      assert CountedAt(s, e, j);
    }
  }

  /** Two philosophers who share a fork are never eating together. */
  lemma NeighboursExclusive(s: Table, e: seq<nat>, i: nat, j: nat, f: nat)
    requires Inv(s, e) && i < |s.seats| && j < |s.seats| && i != j && f < |s.forks|
    ensures !(Holds(s, i, f) && Holds(s, j, f))
  {
    assert s.forks[f] == Some(i) <==> Holds(s, i, f);
    assert s.forks[f] == Some(j) <==> Holds(s, j, f);
  }

  // ---- No deadlock ----

  predicate Done(s: Table, i: nat)
    requires i < |s.seats|
  {
    s.seats[i].pc.Thinking? && s.seats[i].meal >= s.goal
  }

  /** From a philosopher who holds a first fork, follow who holds the next one: fork numbers rise,
      so the chain ends at a philosopher who can move. */
  lemma {:induction false} ChainMoves(s: Table, e: seq<nat>, i: nat) returns (k: nat)
    requires Inv(s, e) && i < |s.seats| && !s.seats[i].pc.Thinking?
    ensures Enabled(s, k)
    decreases |s.seats| - First(i, |s.seats|)
  {
    var n := |s.seats|;
    ForksDiffer(i, n);
    k := i;
    if !Enabled(s, i) {
      var f := Second(i, n);
      var j := s.forks[f].value;
      assert Holds(s, j, f);
      assert Holds(s, i, f) <==> s.forks[f] == Some(i);
      if f == First(j, n) {
        k := ChainMoves(s, e, j);
      } else {
        k := j;
      }
    }
  }

  /** Whenever some philosopher is unfinished, some philosopher can move. */
  lemma NoDeadlock(s: Table, e: seq<nat>, i: nat) returns (k: nat)
    requires Inv(s, e) && i < |s.seats| && !Done(s, i)
    ensures Enabled(s, k)
  {
    var n := |s.seats|;
    if !s.seats[i].pc.Thinking? {
      k := ChainMoves(s, e, i);
    } else if s.forks[First(i, n)].None? {
      k := i;
    } else {
      var j := s.forks[First(i, n)].value;
      assert Holds(s, j, First(i, n));
      k := ChainMoves(s, e, j);
    }
  }

  // ---- Every run ends, after exactly as many steps as there are to take ----

  function Stage(pc: Pc): nat {
    match pc
    case Thinking => 0
    case HasFirst => 1
    case HasBoth => 2
    case Ate => 3
    case PutSecond => 4
  }

  /** Steps philosopher p still has to take. */
  function ToGo(p: Philosopher, goal: nat): int {
    5 * (goal - p.meal) - Stage(p.pc)
  }

  function Total(seats: seq<Philosopher>, goal: nat): int {
    if seats == [] then 0 else ToGo(seats[0], goal) + Total(seats[1..], goal)
  }

  lemma {:induction false} TotalUpdate(seats: seq<Philosopher>, goal: nat, i: nat, p: Philosopher)
    requires i < |seats|
    ensures Total(seats[i := p], goal) == Total(seats, goal) - ToGo(seats[i], goal) + ToGo(p, goal)
  {
    if i == 0 {
      assert seats[0 := p][1..] == seats[1..];
    } else {
      assert seats[i := p][1..] == seats[1..][i - 1 := p];
      TotalUpdate(seats[1..], goal, i - 1, p);
    }
  }

  lemma StepCounts(s: Table, i: nat)
    requires Shaped(s) && Enabled(s, i)
    ensures Total(Stepped(s, i).seats, s.goal) == Total(s.seats, s.goal) - 1
  {
    TotalUpdate(s.seats, s.goal, i, Stepped(s, i).seats[i]);
  }

  lemma {:induction false} TotalBounds(seats: seq<Philosopher>, goal: nat)
    requires forall i :: 0 <= i < |seats| ==> ToGo(seats[i], goal) >= 0
    ensures Total(seats, goal) >= 0
    ensures Total(seats, goal) == 0 ==> forall i :: 0 <= i < |seats| ==> ToGo(seats[i], goal) == 0
  {
    if seats != [] {
      assert forall i :: 0 <= i < |seats| - 1 ==> seats[1..][i] == seats[i + 1];
      TotalBounds(seats[1..], goal);
      forall i | 0 <= i < |seats| && Total(seats, goal) == 0
        ensures ToGo(seats[i], goal) == 0
      {
        assert i > 0 ==> seats[i] == seats[1..][i - 1];
      }
    }
  }

  // ---- Whole runs ----

  ghost predicate IsRun(s: Table, run: seq<nat>)
    requires Shaped(s)
    decreases |run|
  {
    run == [] || (Enabled(s, run[0]) && IsRun(Stepped(s, run[0]), run[1..]))
  }

  function After(s: Table, run: seq<nat>): (r: Table)
    requires Shaped(s) && IsRun(s, run)
    ensures Shaped(r) && |r.seats| == |s.seats|
    decreases |run|
  {
    if run == [] then s else After(Stepped(s, run[0]), run[1..])
  }

  lemma {:induction false} RunKeeps(s: Table, e: seq<nat>, run: seq<nat>)
    requires Inv(s, e) && IsRun(s, run)
    ensures Inv(After(s, run), e) && After(s, run).goal == s.goal
    ensures Total(After(s, run).seats, s.goal) == Total(s.seats, s.goal) - |run|
    decreases |run|
  {
    if run != [] {
      StepKeeps(s, e, run[0]);
      StepCounts(s, run[0]);
      RunKeeps(Stepped(s, run[0]), e, run[1..]);
    }
  }

  lemma {:induction false} TotalAtStart(seats: seq<Philosopher>, goal: nat)
    requires forall i :: 0 <= i < |seats| ==> seats[i].pc.Thinking? && seats[i].meal == 0
    ensures Total(seats, goal) == 5 * goal * |seats|
  {
    if seats != [] {
      TotalAtStart(seats[1..], goal);
      assert 5 * goal * |seats| == 5 * goal * (|seats| - 1) + 5 * goal;
    }
  }

  lemma StartKeeps(n: int, goal: int, eaten: seq<nat>)
    requires |eaten| == Size(n) >= 2
    ensures Inv(Start(n, goal, eaten), eaten)
    ensures Total(Start(n, goal, eaten).seats, Start(n, goal, eaten).goal) == 5 * Start(n, goal, eaten).goal * Size(n)
  {
    var s := Start(n, goal, eaten);
    forall i | 0 <= i < |eaten|
      ensures CountedAt(s, eaten, i)
    {
    }
    TotalAtStart(s.seats, s.goal);
  }

  ghost predicate Maximal(s: Table)
    requires Shaped(s)
  {
    forall i: nat :: i < |s.seats| ==> !Enabled(s, i)
  }

  /** For two or more philosophers: every run takes at most 5 * goal * n steps, a run can always be
      extended until it takes exactly that many, and when it can go no further everyone has eaten
      mealsGoal times. */
  lemma EveryoneEats(n: int, goal: int, eaten: seq<nat>, run: seq<nat>)
    requires |eaten| == Size(n) >= 2 && IsRun(Start(n, goal, eaten), run)
    ensures var s := Start(n, goal, eaten); var end := After(s, run);
            && |run| <= 5 * s.goal * Size(n)
            && (Maximal(end) <==> |run| == 5 * s.goal * Size(n))
            && (Maximal(end) ==> forall i :: 0 <= i < Size(n) ==>
                  end.seats[i].eaten == eaten[i] + s.goal && end.forks[i].None?)
  {
    var s := Start(n, goal, eaten);
    StartKeeps(n, goal, eaten);
    RunKeeps(s, eaten, run);
    var end := After(s, run);
    EndIff(end, eaten);
    if Maximal(end) {
      EndState(end, eaten);
    }
  }

  /** A table is stuck exactly when nothing is left to do. */
  lemma EndIff(s: Table, e: seq<nat>)
    requires Inv(s, e)
    ensures Total(s.seats, s.goal) >= 0
    ensures Maximal(s) <==> Total(s.seats, s.goal) == 0
  {
    forall i | 0 <= i < |s.seats|
      ensures ToGo(s.seats[i], s.goal) >= 0
    {
      assert CountedAt(s, e, i);
    }
    TotalBounds(s.seats, s.goal);
    if Maximal(s) {
      forall i | 0 <= i < |s.seats|
        ensures ToGo(s.seats[i], s.goal) == 0
      {
        AllDone(s, e, i);
      }
      AllZero(s.seats, s.goal);
    } else {
      var i: nat :| i < |s.seats| && Enabled(s, i);
      assert CountedAt(s, e, i);
    }
  }

  lemma AllDone(s: Table, e: seq<nat>, i: nat)
    requires Inv(s, e) && Maximal(s) && i < |s.seats|
    ensures Done(s, i) && ToGo(s.seats[i], s.goal) == 0
  {
    assert CountedAt(s, e, i);
    if !Done(s, i) {
      var k := NoDeadlock(s, e, i);
    }
  }

  lemma {:induction false} AllZero(seats: seq<Philosopher>, goal: nat)
    requires forall i :: 0 <= i < |seats| ==> ToGo(seats[i], goal) == 0
    ensures Total(seats, goal) == 0
  {
    if seats != [] {
      assert forall i :: 0 <= i < |seats| - 1 ==> seats[1..][i] == seats[i + 1];
      AllZero(seats[1..], goal);
    }
  }

  lemma EndState(s: Table, e: seq<nat>)
    requires Inv(s, e) && Maximal(s)
    ensures forall i :: 0 <= i < |e| ==> s.seats[i].eaten == e[i] + s.goal && s.forks[i].None?
  {
    forall i | 0 <= i < |e|
      ensures s.seats[i].eaten == e[i] + s.goal && s.forks[i].None?
    {
      AllDone(s, e, i);
      assert CountedAt(s, e, i);
      if s.forks[i].Some? {
        var j := s.forks[i].value;
        assert Holds(s, j, i);
        AllDone(s, e, j);
      }
    }
  }

  /** One philosopher alone locks the single fork and then waits for it forever. */
  lemma LonePhilosopherSticks(goal: int, eaten: nat)
    requires goal > 0
    ensures var s := Start(1, goal, [eaten]);
            && Enabled(s, 0)
            && Maximal(Stepped(s, 0)) && !Done(Stepped(s, 0), 0)
  {
  }
}
