/** Small facts about options, sequences without repetition, and finite sets. */
module Collections {
  datatype Option<+T> = None | Some(value: T)

  predicate InRange(q: seq<nat>, n: nat) {
    forall k :: 0 <= k < |q| ==> q[k] < n
  }

  predicate Distinct(q: seq<nat>) {
    forall i, j :: 0 <= i < j < |q| ==> q[i] != q[j]
  }

  lemma MembersOf(q: seq<nat>, q': seq<nat>)
    requires multiset(q) == multiset(q')
    ensures forall i: nat :: i in q <==> i in q'
    ensures Distinct(q) ==> Distinct(q')
  {
    forall i: nat ensures i in q <==> i in q' {
      assert i in q <==> i in multiset(q);
      assert i in q' <==> i in multiset(q');
    }
    if Distinct(q) {
      forall i, j | 0 <= i < j < |q'| ensures q'[i] != q'[j] {
        if q'[i] == q'[j] {
          CountTwice(q', i, j);
          CountOnce(q, q'[i]);
        }
      }
    }
  }

  lemma CountTwice(q: seq<nat>, i: nat, j: nat)
    requires i < j < |q| && q[i] == q[j]
    ensures multiset(q)[q[i]] >= 2
  {
    assert q == q[..j] + q[j..];
    assert q[..j][i] == q[i] && q[j..][0] == q[i];
    assert q[i] in multiset(q[..j]) && q[i] in multiset(q[j..]);
  }

  lemma {:induction false} CountOnce(q: seq<nat>, x: nat)
    requires Distinct(q)
    ensures multiset(q)[x] <= 1
  {
    if q != [] {
      var n := |q| - 1;
      assert q == q[..n] + [q[n]];
      CountOnce(q[..n], x);
      if x == q[n] {
        assert x !in q[..n];
        assert multiset(q[..n])[x] == 0;
      }
    }
  }

  ghost function UpTo(n: nat): (r: set<nat>)
    ensures forall i: nat :: i in r <==> i < n
    ensures |r| == n
  {
    if n == 0 then {} else UpTo(n - 1) + {n - 1}
  }

  ghost function Members(q: seq<nat>): set<nat> {
    set i | i in q
  }

  lemma {:induction false} DistinctSize(q: seq<nat>)
    requires Distinct(q)
    ensures |Members(q)| == |q|
  {
    if q != [] {
      var n := |q| - 1;
      DistinctSize(q[..n]);
      assert q == q[..n] + [q[n]];
      assert Members(q) == Members(q[..n]) + {q[n]};
    }
  }

  lemma SubsetSize(a: set<nat>, b: set<nat>)
    requires a <= b
    ensures |a| <= |b|
  {
    assert b == a + (b - a);
  }

  lemma SubsetStrict(a: set<nat>, b: set<nat>)
    requires a < b
    ensures |a| < |b|
  {
    var x :| x in b && x !in a;
    assert b == a + (b - a);
    assert x in b - a;
  }

  lemma DistinctJoin(a: seq<nat>, b: seq<nat>)
    requires Distinct(a) && Distinct(b) && forall x :: x in a ==> x !in b
    ensures Distinct(a + b)
  {
    forall i, j | 0 <= i < j < |a + b|
      ensures (a + b)[i] != (a + b)[j]
    {
      if i < |a| <= j {
        assert a[i] in a && b[j - |a|] in b;
      }
    }
  }

  function Dropped(q: seq<nat>, i: nat): (r: seq<nat>)
    requires i < |q|
  {
    q[..i] + q[i + 1..]
  }

  lemma DistinctDropped(q: seq<nat>, i: nat)
    requires Distinct(q) && i < |q|
    ensures Distinct(Dropped(q, i))
    ensures forall x :: x in Dropped(q, i) <==> x in q && x != q[i]
  {
    var r := Dropped(q, i);
    forall x | x in q && x != q[i]
      ensures x in r
    {
      var j :| 0 <= j < |q| && q[j] == x;
      assert r[if j < i then j else j - 1] == x;
    }
    assert forall j :: 0 <= j < |r| ==> r[j] == q[if j < i then j else j + 1];
  }
}
