/** The mutable state of pkg/concurrency/deadlock_banker.go and its operations. */
module BankersStates {
  import opened Banker

  datatype Outcome = ExceedsClaim | MustWait | Unsafe | Approved(order: seq<nat>)

  /** The state after SetProcessClaim. */
  function Claimed(s: State, p: nat, claim: Vector, held: Vector, n: nat, m: nat): (s': State)
    requires Shaped(s, n, m) && p < n && |claim| == m && |held| == m
    ensures Shaped(s', n, m)
  {
    State(Minus(s.available, held), s.max[p := claim], s.allocation[p := held], s.need[p := Minus(claim, held)])
  }

  /** A claim conserves the units of a resource exactly when the process held none of it before. */
  lemma ClaimConserves(s: State, p: nat, claim: Vector, held: Vector, n: nat, m: nat, j: nat)
    requires Shaped(s, n, m) && p < n && |claim| == m && |held| == m && j < m
    ensures Units(Claimed(s, p, claim, held, n, m), n, m, j) == Units(s, n, m, j) - s.allocation[p][j]
  {
    ColumnUpdate(s.allocation, p, held, j);
  }

  function Zeros(m: nat): (v: Vector)
    ensures |v| == m
  {
    seq(m, _ => 0)
  }

  /** The units NewBankersState makes available: missing totals count as zero. */
  function Padded(total: Vector, m: nat): (v: Vector)
    ensures |v| == m
  {
    seq(m, j requires 0 <= j < m => if j < |total| then total[j] else 0)
  }

  // ---- From the constructor to a sane state ----

  datatype Claim = Claim(process: nat, most: Vector, held: Vector)

  /** What NewBankersState makes. */
  function Initial(total: Vector, n: nat, m: nat): (s: State)
    ensures Shaped(s, n, m)
  {
    var zero := seq(n, _ => Zeros(m));
    State(Padded(total, m), zero, zero, zero)
  }

  ghost predicate ProperClaims(claims: seq<Claim>, n: nat, m: nat) {
    && (forall k :: 0 <= k < |claims| ==>
          claims[k].process < n && |claims[k].most| == m && |claims[k].held| == m)
    && forall k, l :: 0 <= k < l < |claims| ==> claims[k].process != claims[l].process
  }

  function ClaimedAll(s: State, claims: seq<Claim>, n: nat, m: nat): (s': State)
    requires Shaped(s, n, m) && ProperClaims(claims, n, m)
    ensures Shaped(s', n, m)
  {
    if claims == [] then s
    else
      var c := claims[|claims| - 1];
      Claimed(ClaimedAll(s, claims[..|claims| - 1], n, m), c.process, c.most, c.held, n, m)
  }

  function HeldInAll(claims: seq<Claim>, j: nat): int
    requires forall k :: 0 <= k < |claims| ==> j < |claims[k].held|
  {
    if claims == [] then 0 else HeldInAll(claims[..|claims| - 1], j) + claims[|claims| - 1].held[j]
  }

  ghost predicate Unclaimed(claims: seq<Claim>, p: nat) {
    forall k :: 0 <= k < |claims| ==> claims[k].process != p
  }

  /** Every claim is on record, with what is still needed of it, and what is held is gone. */
  lemma {:induction false} ClaimsRecorded(s: State, claims: seq<Claim>, n: nat, m: nat)
    requires Shaped(s, n, m) && ProperClaims(claims, n, m)
    ensures var r := ClaimedAll(s, claims, n, m);
            && (forall j :: 0 <= j < m ==> r.available[j] == s.available[j] - HeldInAll(claims, j))
            && (forall k :: 0 <= k < |claims| ==> Recorded(r, claims[k]))
            && (forall p: nat :: p < n && Unclaimed(claims, p) ==>
                  r.max[p] == s.max[p] && r.allocation[p] == s.allocation[p] && r.need[p] == s.need[p])
  {
    hide Claimed, Minus, Recorded;
    if claims != [] {
      var l := |claims| - 1;
      ClaimsRecorded(s, claims[..l], n, m);
      ClaimRecorded(ClaimedAll(s, claims[..l], n, m), claims[l], n, m);
      var a, r := ClaimedAll(s, claims[..l], n, m), ClaimedAll(s, claims, n, m);
      forall k | 0 <= k < |claims|
        ensures Recorded(r, claims[k])
      {
        if k < l {
          StillRecorded(a, claims[l], claims[..l][k], n, m);
        }
      }
      forall p: nat | p < n && Unclaimed(claims, p)
        ensures r.max[p] == s.max[p] && r.allocation[p] == s.allocation[p] && r.need[p] == s.need[p]
      {
        assert Unclaimed(claims[..l], p);
        assert claims[l].process != p;
      }
    }
  }

  lemma ClaimRecorded(s: State, c: Claim, n: nat, m: nat)
    requires Shaped(s, n, m) && c.process < n && |c.most| == m && |c.held| == m
    ensures var r := Claimed(s, c.process, c.most, c.held, n, m);
            && Recorded(r, c)
            && (forall j :: 0 <= j < m ==> r.available[j] == s.available[j] - c.held[j])
            && (forall p: nat :: p < n && p != c.process ==>
                  r.max[p] == s.max[p] && r.allocation[p] == s.allocation[p] && r.need[p] == s.need[p])
  {
  }

  lemma StillRecorded(s: State, c: Claim, d: Claim, n: nat, m: nat)
    requires Shaped(s, n, m) && c.process < n && |c.most| == m && |c.held| == m
    requires Recorded(s, d) && d.process != c.process
    ensures Recorded(Claimed(s, c.process, c.most, c.held, n, m), d)
  {
  }

  ghost predicate Recorded(s: State, c: Claim) {
    && c.process < |s.max| == |s.allocation| == |s.need| && |c.held| == |c.most|
    && s.max[c.process] == c.most && s.allocation[c.process] == c.held
    && s.need[c.process] == Minus(c.most, c.held)
  }

  /** Nobody holds less than nothing or more than claimed. */
  predicate FairClaim(c: Claim) {
    |c.held| == |c.most| && NonNegative(c.held) && Within(c.held, c.most)
  }

  /** Claims, one per process, lead from the constructor to a sane state exactly when each is fair and
      no more is held than there is. */
  lemma ClaimsSaneIff(total: Vector, claims: seq<Claim>, n: nat, m: nat)
    requires ProperClaims(claims, n, m)
    ensures Sane(ClaimedAll(Initial(total, n, m), claims, n, m), n, m) <==>
            && (forall k :: 0 <= k < |claims| ==> FairClaim(claims[k]))
            && (forall j :: 0 <= j < m ==> HeldInAll(claims, j) <= Padded(total, m)[j])
  {
    var i := Initial(total, n, m);
    var s := ClaimedAll(i, claims, n, m);
    ClaimsRecorded(i, claims, n, m);
    forall k | 0 <= k < |claims|
      ensures FairClaim(claims[k]) <==> RowSane(s, claims[k].process, n, m)
    {
      assert Recorded(s, claims[k]);
      FairRow(claims[k]);
    }
    forall p: nat | p < n && Unclaimed(claims, p)
      ensures RowSane(s, p, n, m)
    {
      assert Minus(Zeros(m), Zeros(m)) == Zeros(m);
    }
    forall p: nat | p < n
      ensures Unclaimed(claims, p) || exists k :: 0 <= k < |claims| && claims[k].process == p
    {
    }
    SaneByRows(s, n, m);
  }

  predicate RowSane(s: State, p: nat, n: nat, m: nat)
    requires Shaped(s, n, m) && p < n
  {
    NonNegative(s.allocation[p]) && NonNegative(s.need[p]) && s.need[p] == Minus(s.max[p], s.allocation[p])
  }

  lemma SaneByRows(s: State, n: nat, m: nat)
    requires Shaped(s, n, m)
    ensures Sane(s, n, m) <==> NonNegative(s.available) && forall p: nat :: p < n ==> RowSane(s, p, n, m)
  {
    if forall p: nat :: p < n ==> RowSane(s, p, n, m) {
      forall i | 0 <= i < n
        ensures NonNegative(s.allocation[i]) && NonNegative(s.need[i])
        ensures s.need[i] == Minus(s.max[i], s.allocation[i])
      {
        assert RowSane(s, i, n, m);
      }
    }
  }

  lemma FairRow(c: Claim)
    requires |c.held| == |c.most|
    ensures FairClaim(c) <==> NonNegative(c.held) && NonNegative(Minus(c.most, c.held))
  {
    if NonNegative(Minus(c.most, c.held)) {
      forall j | 0 <= j < |c.held|
        ensures c.held[j] <= c.most[j]
      {
        assert 0 <= Minus(c.most, c.held)[j];
      }
    }
  }

  lemma PlusMinus(a: Vector, b: Vector)
    requires |a| == |b|
    ensures Plus(Minus(a, b), b) == a && Minus(Plus(a, b), b) == a
  {
  }

  /** Rolling a grant back restores the state. */
  lemma RollbackRestores(s: State, p: nat, request: Vector, n: nat, m: nat)
    requires Shaped(s, n, m) && p < n && |request| == m
    ensures var g := Granted(s, p, request, n, m);
            g.(available := Plus(g.available, request),
               allocation := g.allocation[p := Minus(g.allocation[p], request)],
               need := g.need[p := Plus(g.need[p], request)]) == s
  {
    PlusMinus(s.available, request);
    PlusMinus(s.allocation[p], request);
    PlusMinus(s.need[p], request);
  }

  method LessEqual(a: Vector, b: Vector) returns (ok: bool)
    requires |a| == |b|
    ensures ok <==> Within(a, b)
  {
    for j := 0 to |a|
      invariant forall k :: 0 <= k < j ==> a[k] <= b[k]
    {
      if a[j] > b[j] {
        return false;
      }
    }
    return true;
  }

  method AddTo(a: Vector, b: Vector) returns (r: Vector)
    requires |a| == |b|
    ensures r == Plus(a, b)
  {
    r := a;
    for j := 0 to |a|
      invariant |r| == |a|
      invariant forall k :: 0 <= k < |a| ==> r[k] == if k < j then a[k] + b[k] else a[k]
    {
      r := r[j := r[j] + b[j]];
    }
  }

  method TakeFrom(a: Vector, b: Vector) returns (r: Vector)
    requires |a| == |b|
    ensures r == Minus(a, b)
  {
    r := a;
    for j := 0 to |a|
      invariant |r| == |a|
      invariant forall k :: 0 <= k < |a| ==> r[k] == if k < j then a[k] - b[k] else a[k]
    {
      r := r[j := r[j] - b[j]];
    }
  }

  class BankersState {
    const n: nat
    const m: nat
    var available: Vector
    var max: Matrix
    var allocation: Matrix
    var need: Matrix

    ghost function View(): State
      reads this
    {
      State(available, max, allocation, need)
    }

    ghost predicate Valid()
      reads this
    {
      Shaped(View(), n, m)
    }

    constructor (procCount: nat, resources: nat, total: Vector)
      ensures Valid() && n == procCount && m == resources
      ensures View() == Initial(total, procCount, resources)
    {
      n, m := procCount, resources;
      available := Padded(total, resources);
      var zero := seq(procCount, _ => Zeros(resources));
      max, allocation, need := zero, zero, zero;
    }

    method SetProcessClaim(p: nat, claim: Vector, held: Vector)
      requires Valid() && p < n && |claim| == m && |held| == m
      modifies this
      ensures Valid() && View() == Claimed(old(View()), p, claim, held, n, m)
    {
      max := max[p := claim];
      allocation := allocation[p := held];
      var left := TakeFrom(claim, held);
      need := need[p := left];
      available := TakeFrom(available, held);
    }

    /** The lowest-numbered unfinished process whose need is within `work`, or n. */
    method NextToFinish(work: Vector, finish: seq<bool>) returns (i: nat)
      requires Valid() && |work| == m && |finish| == n
      ensures i <= n && (i < n ==> !finish[i] && Within(need[i], work))
      ensures forall l :: 0 <= l < i && !finish[l] ==> !Within(need[l], work)
    {
      i := 0;
      while i < n
        invariant i <= n
        invariant forall l :: 0 <= l < i && !finish[l] ==> !Within(need[l], work)
      {
        if !finish[i] {
          var ok := LessEqual(need[i], work);
          if ok {
            return;
          }
        }
        i := i + 1;
      }
    }

    /** Sound for any matrices; complete whenever the state is sane. */
    method CheckSafeState() returns (safe: bool, order: seq<nat>)
      requires Valid()
      ensures safe ==> SafeOrder(View(), n, m, order) && Greedy(View(), n, m, order)
      ensures !safe ==> order == []
      ensures Sane(View(), n, m) ==> (safe <==> Safe(View(), n, m))
    {
      hide Sane, Greedy, Fits, Within;
      var work, finish := available, seq(n, _ => false);
      order := [];
      NothingDone(View(), n, m);
      while |order| < n
        invariant |order| <= n && |work| == m && |finish| == n
        invariant SafePrefix(View(), n, m, order) && Greedy(View(), n, m, order)
        invariant forall i: nat :: i < n ==> (finish[i] <==> i in order)
        invariant forall j :: 0 <= j < m ==> work[j] == available[j] + Held(allocation, order, j)
        decreases n - |order|
      {
        var i := NextToFinish(work, finish);
        forall l: nat | l < n
          ensures Within(need[l], work) <==> Fits(View(), n, m, l, order)
        {
          WorkDecides(View(), n, m, l, order, work);
        }
        if i == n {
          if Sane(View(), n, m) {
            StuckIsUnsafe(View(), n, m, order);
          }
          return false, [];
        }
        GreedyGrows(View(), n, m, order, i);
        PrefixGrows(View(), n, m, order, i);
        work := AddTo(work, allocation[i]);
        finish := finish[i := true];
        assert (order + [i])[..|order|] == order;
        order := order + [i];
      }
      assert SafeOrder(View(), n, m, order);
      safe := true;
    }

    method RequestResources(p: nat, request: Vector) returns (outcome: Outcome)
      requires Valid() && p < n && |request| == m
      modifies this
      ensures Valid()
      ensures outcome.ExceedsClaim? <==> !Within(request, old(need)[p])
      ensures outcome.MustWait? <==> Within(request, old(need)[p]) && !Within(request, old(available))
      ensures outcome.Approved? ==> View() == Granted(old(View()), p, request, n, m)
      ensures outcome.Approved? ==> SafeOrder(View(), n, m, outcome.order)
      ensures !outcome.Approved? ==> View() == old(View())
      ensures Sane(old(View()), n, m) && NonNegative(request) ==>
                (outcome.Approved? <==> Grantable(old(View()), p, request, n, m))
    {
      var ok := LessEqual(request, need[p]);
      if !ok {
        return ExceedsClaim;
      }
      ok := LessEqual(request, available);
      if !ok {
        return MustWait;
      }
      ghost var s := View();
      available := TakeFrom(available, request);
      var row := AddTo(allocation[p], request);
      allocation := allocation[p := row];
      row := TakeFrom(need[p], request);
      need := need[p := row];
      assert View() == Granted(s, p, request, n, m);
      if Sane(s, n, m) && NonNegative(request) {
        GrantedSane(s, p, request, n, m);
      }
      var safe, order := CheckSafeState();
      if safe {
        return Approved(order);
      }
      RollbackRestores(s, p, request, n, m);
      available := AddTo(available, request);
      row := TakeFrom(allocation[p], request);
      allocation := allocation[p := row];
      row := AddTo(need[p], request);
      need := need[p := row];
      return Unsafe;
    }
  }
}
