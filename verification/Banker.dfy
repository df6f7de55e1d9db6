/** pkg/concurrency/deadlock_banker.go: Dijkstra's banker's algorithm. */
module Banker {
  import opened Collections

  type Vector = seq<int>
  type Matrix = seq<Vector>

  datatype State = State(available: Vector, max: Matrix, allocation: Matrix, need: Matrix)

  predicate Rectangular(x: Matrix, n: nat, m: nat) {
    |x| == n && forall i :: 0 <= i < n ==> |x[i]| == m
  }

  predicate Shaped(s: State, n: nat, m: nat) {
    && |s.available| == m
    && Rectangular(s.max, n, m) && Rectangular(s.allocation, n, m) && Rectangular(s.need, n, m)
  }

  predicate Within(a: Vector, b: Vector)
    requires |a| == |b|
  {
    forall j :: 0 <= j < |a| ==> a[j] <= b[j]
  }

  predicate NonNegative(a: Vector) {
    forall j :: 0 <= j < |a| ==> 0 <= a[j]
  }

  /** What the algorithm relies on: claims are claims, and nobody holds less than nothing. */
  predicate Sane(s: State, n: nat, m: nat) {
    && Shaped(s, n, m) && NonNegative(s.available)
    && forall i :: 0 <= i < n ==>
         && NonNegative(s.allocation[i]) && NonNegative(s.need[i])
         && s.need[i] == Minus(s.max[i], s.allocation[i])
  }

  function Plus(a: Vector, b: Vector): (r: Vector)
    requires |a| == |b|
    ensures |r| == |a|
  {
    seq(|a|, j requires 0 <= j < |a| => a[j] + b[j])
  }

  function Minus(a: Vector, b: Vector): (r: Vector)
    requires |a| == |b|
    ensures |r| == |a|
  {
    seq(|a|, j requires 0 <= j < |a| => a[j] - b[j])
  }

  // ---------------------------------------------------------------------------------------
  // Safe orders
  // ---------------------------------------------------------------------------------------

  /** Units of resource j held by the processes of q together. */
  function Held(x: Matrix, q: seq<nat>, j: nat): int
    requires InRange(q, |x|) && forall i :: 0 <= i < |x| ==> j < |x[i]|
  {
    if q == [] then 0 else Held(x, q[..|q|-1], j) + x[q[|q|-1]][j]
  }

  /** Process i can run to its full claim once the processes of q have returned what they hold. */
  predicate Fits(s: State, n: nat, m: nat, i: nat, q: seq<nat>)
    requires Shaped(s, n, m) && i < n && InRange(q, n)
  {
    forall j :: 0 <= j < m ==> s.need[i][j] <= s.available[j] + Held(s.allocation, q, j)
  }

  /** q lists every process once. */
  predicate Permutation(q: seq<nat>, n: nat) {
    |q| == n && InRange(q, n) && Distinct(q)
  }

  ghost predicate SafePrefix(s: State, n: nat, m: nat, q: seq<nat>)
    requires Shaped(s, n, m)
  {
    InRange(q, n) && Distinct(q) && forall k :: 0 <= k < |q| ==> Fits(s, n, m, q[k], q[..k])
  }

  ghost predicate SafeOrder(s: State, n: nat, m: nat, q: seq<nat>)
    requires Shaped(s, n, m)
  {
    Permutation(q, n) && SafePrefix(s, n, m, q)
  }

  ghost predicate Safe(s: State, n: nat, m: nat)
    requires Shaped(s, n, m)
  {
    exists q :: SafeOrder(s, n, m, q)
  }

  /** Always the lowest-numbered process that fits. */
  ghost predicate Greedy(s: State, n: nat, m: nat, q: seq<nat>)
    requires Shaped(s, n, m) && InRange(q, n)
  {
    forall k, i: nat :: 0 <= k < |q| && i < q[k] && i !in q[..k] ==> !Fits(s, n, m, i, q[..k])
  }

  // ---------------------------------------------------------------------------------------
  // Why the greedy search is complete
  // ---------------------------------------------------------------------------------------

  lemma {:induction false} HeldConcat(x: Matrix, p: seq<nat>, q: seq<nat>, j: nat)
    requires InRange(p, |x|) && InRange(q, |x|) && forall i :: 0 <= i < |x| ==> j < |x[i]|
    ensures Held(x, p + q, j) == Held(x, p, j) + Held(x, q, j)
  {
    if q == [] {
      assert p + q == p;
    } else {
      assert (p + q)[..|p + q|-1] == p + q[..|q|-1];
      HeldConcat(x, p, q[..|q|-1], j);
    }
  }

  lemma HeldRemove(x: Matrix, q: seq<nat>, k: nat, j: nat)
    requires k < |q| && InRange(q, |x|) && forall i :: 0 <= i < |x| ==> j < |x[i]|
    ensures Held(x, q, j) == Held(x, q[..k] + q[k+1..], j) + x[q[k]][j]
  {
    assert q == q[..k] + ([q[k]] + q[k+1..]);
    HeldConcat(x, q[..k], [q[k]] + q[k+1..], j);
    HeldConcat(x, [q[k]], q[k+1..], j);
    HeldConcat(x, q[..k], q[k+1..], j);
    assert [q[k]][..0] == [];
  }

  /** Processes that are all among others hold no more than those. */
  lemma {:induction false} HeldMonotone(x: Matrix, p: seq<nat>, q: seq<nat>, j: nat)
    requires InRange(p, |x|) && InRange(q, |x|) && Distinct(p)
    requires forall i :: 0 <= i < |x| ==> j < |x[i]| && 0 <= x[i][j]
    requires forall k :: 0 <= k < |p| ==> p[k] in q
    ensures Held(x, p, j) <= Held(x, q, j)
    decreases |p|, |q|
  {
    if p != [] {
      var n := |p| - 1;
      var k :| 0 <= k < |q| && q[k] == p[n];
      var q' := q[..k] + q[k+1..];
      forall l | 0 <= l < n ensures p[..n][l] in q' {
        var t :| 0 <= t < |q| && q[t] == p[l];
        assert q[t] == q'[if t < k then t else t - 1];
      }
      HeldMonotone(x, p[..n], q', j);
      HeldRemove(x, q, k, j);
    } else {
      HeldNonNegative(x, q, j);
    }
  }

  lemma {:induction false} HeldNonNegative(x: Matrix, q: seq<nat>, j: nat)
    requires InRange(q, |x|) && forall i :: 0 <= i < |x| ==> j < |x[i]| && 0 <= x[i][j]
    ensures 0 <= Held(x, q, j)
  {
    if q != [] { HeldNonNegative(x, q[..|q|-1], j); }
  }

  lemma FitsMonotone(s: State, n: nat, m: nat, i: nat, p: seq<nat>, q: seq<nat>)
    requires Sane(s, n, m) && i < n && InRange(p, n) && InRange(q, n) && Distinct(p)
    requires forall k :: 0 <= k < |p| ==> p[k] in q
    requires Fits(s, n, m, i, p)
    ensures Fits(s, n, m, i, q)
  {
    forall j | 0 <= j < m ensures s.need[i][j] <= s.available[j] + Held(s.allocation, q, j) {
      HeldMonotone(s.allocation, p, q, j);
    }
  }

  lemma Fewer(p: seq<nat>, q: seq<nat>)
    requires Distinct(p) && Distinct(q) && forall k :: 0 <= k < |p| ==> p[k] in q
    ensures |p| <= |q|
  {
    DistinctSize(p);
    DistinctSize(q);
    assert Members(p) <= Members(q);
    SubsetSize(Members(p), Members(q));
  }

  /** The first process of an order that is not yet done. */
  lemma FirstMissing(order: seq<nat>, done: seq<nat>) returns (k: nat)
    requires Distinct(order) && Distinct(done) && |done| < |order|
    ensures k < |order| && order[k] !in done && forall l :: 0 <= l < k ==> order[l] in done
  {
    if forall l :: 0 <= l < |order| ==> order[l] in done {
      Fewer(order, done);
    }
    k := 0;
    while order[k] in done
      invariant k < |order| && forall l :: 0 <= l < k ==> order[l] in done
      decreases |order| - k
    {
      k := k + 1;
      if k == |order| {
        Fewer(order, done);
      }
    }
  }

  /** Exchange argument: if the search is stuck, then no order at all is safe. */
  lemma StuckIsUnsafe(s: State, n: nat, m: nat, done: seq<nat>)
    requires Sane(s, n, m) && InRange(done, n) && Distinct(done) && |done| < n
    requires forall i: nat :: i < n && i !in done ==> !Fits(s, n, m, i, done)
    ensures !Safe(s, n, m)
  {
    forall q ensures !SafeOrder(s, n, m, q) {
      if SafeOrder(s, n, m, q) {
        var k := FirstMissing(q, done);
        FitsMonotone(s, n, m, q[k], q[..k], done);
      }
    }
  }

  lemma NothingDone(s: State, n: nat, m: nat)
    requires Shaped(s, n, m)
    ensures SafePrefix(s, n, m, []) && Greedy(s, n, m, [])
  {
  }

  lemma WorkDecides(s: State, n: nat, m: nat, i: nat, q: seq<nat>, work: Vector)
    requires Shaped(s, n, m) && i < n && InRange(q, n) && |work| == m
    requires forall j :: 0 <= j < m ==> work[j] == s.available[j] + Held(s.allocation, q, j)
    ensures Within(s.need[i], work) <==> Fits(s, n, m, i, q)
  {
  }

  lemma PrefixGrows(s: State, n: nat, m: nat, q: seq<nat>, i: nat)
    requires Shaped(s, n, m) && SafePrefix(s, n, m, q) && i < n && i !in q && Fits(s, n, m, i, q)
    ensures SafePrefix(s, n, m, q + [i])
  {
    var r := q + [i];
    forall k | 0 <= k < |r| ensures Fits(s, n, m, r[k], r[..k]) {
      if k < |q| { assert r[..k] == q[..k]; } else { assert r[..k] == q; }
    }
  }

  lemma GreedyGrows(s: State, n: nat, m: nat, q: seq<nat>, i: nat)
    requires Shaped(s, n, m) && InRange(q, n) && i < n && Greedy(s, n, m, q)
    requires forall l: nat :: l < i && l !in q ==> !Fits(s, n, m, l, q)
    ensures Greedy(s, n, m, q + [i])
  {
    var r := q + [i];
    forall k, l: nat | 0 <= k < |r| && l < r[k] && l !in r[..k] ensures !Fits(s, n, m, l, r[..k]) {
      if k < |q| { assert r[..k] == q[..k]; } else { assert r[..k] == q; }
    }
  }

  // ---------------------------------------------------------------------------------------
  // Requests
  // ---------------------------------------------------------------------------------------

  /** The state after handing `request` to process p. */
  function Granted(s: State, p: nat, request: Vector, n: nat, m: nat): (s': State)
    requires Shaped(s, n, m) && p < n && |request| == m
    ensures Shaped(s', n, m)
  {
    s.(available := Minus(s.available, request),
       allocation := s.allocation[p := Plus(s.allocation[p], request)],
       need := s.need[p := Minus(s.need[p], request)])
  }

  ghost predicate Grantable(s: State, p: nat, request: Vector, n: nat, m: nat)
    requires Shaped(s, n, m) && p < n && |request| == m
  {
    Within(request, s.need[p]) && Within(request, s.available) && Safe(Granted(s, p, request, n, m), n, m)
  }

  ghost function Requested(s: State, p: nat, request: Vector, n: nat, m: nat): (s': State)
    requires Shaped(s, n, m) && p < n && |request| == m
    ensures Shaped(s', n, m)
  {
    if Grantable(s, p, request, n, m) then Granted(s, p, request, n, m) else s
  }

  lemma GrantedSane(s: State, p: nat, request: Vector, n: nat, m: nat)
    requires Sane(s, n, m) && p < n && |request| == m && NonNegative(request)
    requires Within(request, s.need[p]) && Within(request, s.available)
    ensures Sane(Granted(s, p, request, n, m), n, m)
  {
    var s' := Granted(s, p, request, n, m);
    assert s'.need[p] == Minus(s'.max[p], s'.allocation[p]);
  }

  /** Units of resource j held by all processes together. */
  function Column(x: Matrix, j: nat): int
    requires forall i :: 0 <= i < |x| ==> j < |x[i]|
  {
    if x == [] then 0 else Column(x[..|x|-1], j) + x[|x|-1][j]
  }

  lemma {:induction false} ColumnUpdate(x: Matrix, i: nat, row: Vector, j: nat)
    requires i < |x| && j < |row| && forall k :: 0 <= k < |x| ==> j < |x[k]|
    ensures Column(x[i := row], j) == Column(x, j) - x[i][j] + row[j]
  {
    var n := |x| - 1;
    if i == n {
      assert x[i := row][..n] == x[..n];
    } else {
      assert x[i := row][..n] == x[..n][i := row];
      ColumnUpdate(x[..n], i, row, j);
    }
  }

  /** All the units of resource j there are. */
  function Units(s: State, n: nat, m: nat, j: nat): int
    requires Shaped(s, n, m) && j < m
  {
    s.available[j] + Column(s.allocation, j)
  }

  lemma GrantedConserves(s: State, p: nat, request: Vector, n: nat, m: nat, j: nat)
    requires Shaped(s, n, m) && p < n && |request| == m && j < m
    ensures Units(Granted(s, p, request, n, m), n, m, j) == Units(s, n, m, j)
  {
    ColumnUpdate(s.allocation, p, Plus(s.allocation[p], request), j);
  }

  datatype Request = Request(process: nat, amount: Vector)

  predicate Proper(rs: seq<Request>, n: nat, m: nat) {
    forall k :: 0 <= k < |rs| ==> rs[k].process < n && |rs[k].amount| == m && NonNegative(rs[k].amount)
  }

  ghost function AfterAll(s: State, rs: seq<Request>, n: nat, m: nat): (s': State)
    requires Shaped(s, n, m) && Proper(rs, n, m)
    ensures Shaped(s', n, m)
  {
    if rs == [] then s
    else
      var r := rs[|rs|-1];
      Requested(AfterAll(s, rs[..|rs|-1], n, m), r.process, r.amount, n, m)
  }

  /** Whatever is asked for, in whatever order: a safe system stays safe, no claim is exceeded
      and no unit of any resource is lost or made up. */
  lemma {:induction false} RunStaysSafe(s: State, rs: seq<Request>, n: nat, m: nat)
    requires Sane(s, n, m) && Safe(s, n, m) && Proper(rs, n, m)
    ensures Sane(AfterAll(s, rs, n, m), n, m) && Safe(AfterAll(s, rs, n, m), n, m)
    ensures AfterAll(s, rs, n, m).max == s.max
    ensures forall j: nat :: j < m ==> Units(AfterAll(s, rs, n, m), n, m, j) == Units(s, n, m, j)
  {
    if rs != [] {
      var k := |rs| - 1;
      RunStaysSafe(s, rs[..k], n, m);
      var t := AfterAll(s, rs[..k], n, m);
      if Grantable(t, rs[k].process, rs[k].amount, n, m) {
        GrantedSane(t, rs[k].process, rs[k].amount, n, m);
        forall j: nat | j < m ensures Units(Granted(t, rs[k].process, rs[k].amount, n, m), n, m, j) == Units(s, n, m, j) {
          GrantedConserves(t, rs[k].process, rs[k].amount, n, m, j);
        }
      }
    }
  }

  lemma {:induction false} HeldUpdate(x: Matrix, p: nat, row: Vector, q: seq<nat>, j: nat)
    requires p < |x| && j < |row| && InRange(q, |x|) && forall i :: 0 <= i < |x| ==> j < |x[i]|
    requires Distinct(q)
    ensures Held(x[p := row], q, j) == Held(x, q, j) + if p in q then row[j] - x[p][j] else 0
  {
    if q != [] {
      var n := |q| - 1;
      assert q == q[..n] + [q[n]];
      HeldUpdate(x, p, row, q[..n], j);
    }
  }

  /** In a safe state the first process of a safe order can be given all it may still ask for. */
  lemma FirstIsGrantable(s: State, q: seq<nat>, n: nat, m: nat)
    requires Sane(s, n, m) && SafeOrder(s, n, m, q) && n > 0
    ensures Grantable(s, q[0], s.need[q[0]], n, m)
    ensures SafeOrder(Granted(s, q[0], s.need[q[0]], n, m), n, m, q)
  {
    var p := q[0];
    assert Fits(s, n, m, p, q[..0]);
    var s' := Granted(s, p, s.need[p], n, m);
    forall k | 0 <= k < |q| ensures Fits(s', n, m, q[k], q[..k]) {
      assert Fits(s, n, m, q[k], q[..k]);
      forall j | 0 <= j < m ensures s'.need[q[k]][j] <= s'.available[j] + Held(s'.allocation, q[..k], j) {
        HeldUpdate(s.allocation, p, s'.allocation[p], q[..k], j);
        if k > 0 { assert q[..k][0] == p; } else { assert p !in q[..0]; }
      }
    }
    assert SafeOrder(s', n, m, q);
  }
}
