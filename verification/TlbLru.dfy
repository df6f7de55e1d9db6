/** pkg/memory/tlb.go: after any trace the TLB holds exactly the most recently used keys. */
module TlbLru {
  import opened Collections
  import opened Tlb

  /** What the memory manager does to the TLB: a use of a key that resolves looks it up and, on a
      miss, inserts it; a stray access is looked up and resolves to nothing. */
  datatype Event = Use(key: Key, pfn: nat, writable: bool) | Stray(key: Key) | FlushAll

  predicate Hit(c: Cache, k: Key) {
    Find(c.slots, k) < |c.slots|
  }

  function Served(c: Cache, e: Event): (r: Cache)
    requires c.slots != []
    ensures |r.slots| == |c.slots|
  {
    match e
    case Use(k, pfn, w) => if Hit(c, k) then LookedUp(c, k) else Inserted(LookedUp(c, k), k, pfn, w)
    case Stray(k) => LookedUp(c, k)
    case FlushAll => Flushed(c)
  }

  function Size(capacity: int): (n: nat)
    ensures n > 0
  {
    if capacity <= 0 then 16 else capacity
  }

  function Run(capacity: int, trace: seq<Event>): (c: Cache)
    ensures |c.slots| == Size(capacity)
  {
    if trace == [] then Empty(capacity) else Served(Run(capacity, trace[..|trace| - 1]), trace[|trace| - 1])
  }

  // ---- The reference: an unbounded list of keys, most recently used first ----

  function ToFront<T>(s: seq<T>, j: nat): (r: seq<T>)
    requires j < |s|
    ensures |r| == |s| && r[0] == s[j]
    ensures forall x :: 0 <= x < j ==> r[x + 1] == s[x]
    ensures forall x :: j < x < |s| ==> r[x] == s[x]
  {
    [s[j]] + s[..j] + s[j + 1..]
  }

  function IndexOf(r: seq<Key>, k: Key): (j: nat)
    ensures j <= |r|
    ensures j < |r| <==> k in r
    ensures j < |r| ==> r[j] == k
  {
    if r == [] || r[0] == k then 0 else 1 + IndexOf(r[1..], k)
  }

  function Touched(r: seq<Key>, k: Key): seq<Key> {
    if k in r then ToFront(r, IndexOf(r, k)) else [k] + r
  }

  function Recency(trace: seq<Event>): seq<Key> {
    if trace == [] then []
    else
      var r := Recency(trace[..|trace| - 1]);
      match trace[|trace| - 1]
      case Use(k, _, _) => Touched(r, k)
      case Stray(_) => r
      case FlushAll => []
  }

  /** A key that does not resolve has not been used since the last flush. */
  ghost predicate Consistent(trace: seq<Event>) {
    forall n :: 0 <= n < |trace| && trace[n].Stray? ==> trace[n].key !in Recency(trace[..n])
  }

  // ---- The invariant ----

  function Min(a: nat, b: nat): nat {
    if a <= b then a else b
  }

  ghost predicate NoRepeats(r: seq<Key>) {
    forall i, j :: 0 <= i < j < |r| ==> r[i] != r[j]
  }

  ghost predicate Filled(c: Cache, n: nat) {
    forall i :: 0 <= i < |c.slots| ==> (c.slots[i].valid <==> i < n) && c.slots[i].lastAccess <= c.tick
  }

  ghost predicate KeysAt(c: Cache, r: seq<Key>, pos: seq<nat>) {
    && |pos| <= |c.slots| && |pos| <= |r|
    && forall j :: 0 <= j < |pos| ==> pos[j] < |pos| && c.slots[pos[j]].key == r[j]
  }

  ghost predicate Ordered(c: Cache, pos: seq<nat>)
    requires InRange(pos, |c.slots|)
  {
    forall j, l :: 0 <= j < l < |pos| ==> c.slots[pos[j]].lastAccess > c.slots[pos[l]].lastAccess
  }

  ghost predicate Onto(pos: seq<nat>) {
    forall i: nat :: i < |pos| ==> i in pos
  }

  /** pos[j] is the slot of the j-th most recently used key. */
  ghost predicate Linked(c: Cache, r: seq<Key>, pos: seq<nat>) {
    && NoRepeats(r) && |pos| == Min(|c.slots|, |r|)
    && Filled(c, |pos|) && KeysAt(c, r, pos) && Ordered(c, pos) && Onto(pos)
  }

  lemma ToFrontOnto(s: seq<nat>, j: nat)
    requires j < |s| && Onto(s)
    ensures Onto(ToFront(s, j))
  {
    var t := ToFront(s, j);
    forall i: nat | i < |s|
      ensures i in t
    {
      assert i in s;
      var x :| 0 <= x < |s| && s[x] == i;
      assert t[if x < j then x + 1 else if x == j then 0 else x] == i;
    }
  }

  lemma TouchedNoRepeats(r: seq<Key>, k: Key)
    requires NoRepeats(r)
    ensures NoRepeats(Touched(r, k))
  {
    if k in r {
      var j := IndexOf(r, k);
      var t := ToFront(r, j);
      forall a, b | 0 <= a < b < |t|
        ensures t[a] != t[b]
      {
        var a', b' := if a == 0 then j else if a <= j then a - 1 else a, if b <= j then b - 1 else b;
        assert t[a] == r[a'] && t[b] == r[b'];
        if a' < b' {
          assert r[a'] != r[b'];
        } else {
          assert b' < a' && r[b'] != r[a'];
        }
      }
    }
  }

  /** A lookup hits exactly when the key is among the Capacity most recently used. */
  lemma HitIffRecent(c: Cache, r: seq<Key>, pos: seq<nat>, k: Key)
    requires Linked(c, r, pos)
    ensures Hit(c, k) <==> IndexOf(r, k) < |pos|
    ensures Hit(c, k) ==> Find(c.slots, k) == pos[IndexOf(r, k)]
  {
    var i, j := Find(c.slots, k), IndexOf(r, k);
    assert j < |pos| ==> Matches(c.slots[pos[j]], k);
    if i < |c.slots| {
      assert i in pos;
      var l :| 0 <= l < |pos| && pos[l] == i;
      assert r[l] == k;
      assert l == j;
    }
  }

  /** After a miss, insertion stops at the first empty slot. */
  lemma StopsAt(c: Cache, k: Key, n: nat)
    requires !Hit(c, k) && n <= |c.slots| && Filled(c, n)
    ensures Stop(c.slots, k) == n
  {
    var s := Stop(c.slots, k);
    assert s < |c.slots| && c.slots[s].valid ==> Matches(c.slots[s], k);
    assert n < |c.slots| ==> !c.slots[n].valid;
  }

  // ---- One lemma per way a use can end ----

  /** c' is c with the slot of the j-th key rewritten just now, and r' puts its key first. */
  ghost predicate Refreshes(c: Cache, r: seq<Key>, pos: seq<nat>, j: nat, c': Cache, r': seq<Key>) {
    && j < |pos| <= |r| && |pos| <= |r'| && pos[j] < |c.slots|
    && |c'.slots| == |c.slots| && c'.slots == c.slots[pos[j] := c'.slots[pos[j]]]
    && c'.slots[pos[j]].valid && c'.slots[pos[j]].lastAccess == c'.tick > c.tick
    && c'.slots[pos[j]].key == r'[0]
    && (forall x :: 0 <= x < j ==> r'[x + 1] == r[x])
    && (forall x :: j < x < |pos| ==> r'[x] == r[x])
  }

  lemma RefreshKeys(c: Cache, r: seq<Key>, pos: seq<nat>, j: nat, c': Cache, r': seq<Key>)
    requires KeysAt(c, r, pos) && Ordered(c, pos) && Refreshes(c, r, pos, j, c', r')
    ensures KeysAt(c', r', ToFront(pos, j))
  {
    var t := ToFront(pos, j);
    forall x | 0 <= x < |t|
      ensures t[x] < |t| && c'.slots[t[x]].key == r'[x]
    {
      var y := if x == 0 then j else if x <= j then x - 1 else x;
      assert t[x] == pos[y];
    }
  }

  lemma OthersStay(c: Cache, r: seq<Key>, pos: seq<nat>, j: nat, c': Cache, r': seq<Key>, z: nat)
    requires KeysAt(c, r, pos) && Ordered(c, pos) && Refreshes(c, r, pos, j, c', r')
    requires Filled(c, |pos|) && z < |pos| && z != j
    ensures c'.slots[pos[z]] == c.slots[pos[z]]
    ensures c'.slots[pos[z]].lastAccess < c'.slots[pos[j]].lastAccess
  {
    assert pos[z] != pos[j];
  }

  lemma RefreshOrder(c: Cache, r: seq<Key>, pos: seq<nat>, j: nat, c': Cache, r': seq<Key>)
    requires KeysAt(c, r, pos) && Ordered(c, pos) && Refreshes(c, r, pos, j, c', r')
    requires Filled(c, |pos|) && j < |pos|
    requires InRange(pos, |c.slots|) && InRange(ToFront(pos, j), |c'.slots|)
    ensures Ordered(c', ToFront(pos, j))
  {
    hide Refreshes, KeysAt, Filled;
    var t := ToFront(pos, j);
    forall x, y | 0 <= x < y < |t|
      ensures c'.slots[t[x]].lastAccess > c'.slots[t[y]].lastAccess
    {
      var y' := if y <= j then y - 1 else y;
      assert t[y] == pos[y'];
      OthersStay(c, r, pos, j, c', r', y');
      if x > 0 {
        var x' := if x <= j then x - 1 else x;
        assert t[x] == pos[x'];
        OthersStay(c, r, pos, j, c', r', x');
      }
    }
  }

  lemma RefreshKeeps(c: Cache, r: seq<Key>, pos: seq<nat>, j: nat, c': Cache, r': seq<Key>)
    requires Linked(c, r, pos) && Refreshes(c, r, pos, j, c', r')
    requires NoRepeats(r') && |pos| == Min(|c'.slots|, |r'|)
    ensures Linked(c', r', ToFront(pos, j))
  {
    ToFrontOnto(pos, j);
    RefreshKeys(c, r, pos, j, c', r');
    RefreshOrder(c, r, pos, j, c', r');
  }

  lemma HitKeeps(c: Cache, r: seq<Key>, pos: seq<nat>, k: Key) returns (pos': seq<nat>)
    requires Linked(c, r, pos) && Hit(c, k)
    ensures Linked(LookedUp(c, k), Touched(r, k), pos')
  {
    HitIffRecent(c, r, pos, k);
    var j := IndexOf(r, k);
    pos' := ToFront(pos, j);
    TouchedNoRepeats(r, k);
    RefreshKeeps(c, r, pos, j, LookedUp(c, k), Touched(r, k));
  }

  /** c' is c with the first empty slot written just now, and r' puts its key first. */
  ghost predicate Fills(c: Cache, r: seq<Key>, c': Cache, r': seq<Key>) {
    && |r| < |c.slots| == |c'.slots| && c'.slots == c.slots[|r| := c'.slots[|r|]]
    && c'.slots[|r|].valid && c'.slots[|r|].lastAccess == c'.tick > c.tick
    && r' == [c'.slots[|r|].key] + r
  }

  lemma FillOnto(pos: seq<nat>)
    requires Onto(pos)
    ensures Onto([|pos|] + pos)
  {
    forall i: nat | i < |pos| + 1
      ensures i in [|pos|] + pos
    {
      assert i == |pos| || i in pos;
    }
  }

  lemma FillOrder(c: Cache, r: seq<Key>, pos: seq<nat>, c': Cache, r': seq<Key>)
    requires Linked(c, r, pos) && Fills(c, r, c', r')
    ensures KeysAt(c', r', [|r|] + pos) && Ordered(c', [|r|] + pos)
  {
    var p := [|r|] + pos;
    forall x | 0 <= x < |p|
      ensures p[x] < |p| && c'.slots[p[x]].key == r'[x]
      ensures x > 0 ==> c'.slots[p[x]] == c.slots[pos[x - 1]] && c'.slots[p[x]].lastAccess <= c.tick
    {
    }
  }

  lemma FillLinked(c: Cache, r: seq<Key>, pos: seq<nat>, c': Cache, r': seq<Key>)
    requires Linked(c, r, pos) && Fills(c, r, c', r') && NoRepeats(r')
    ensures Linked(c', r', [|r|] + pos)
  {
    FillOnto(pos);
    FillOrder(c, r, pos, c', r');
  }

  lemma FillKeeps(c: Cache, r: seq<Key>, pos: seq<nat>, k: Key, pfn: nat, w: bool) returns (pos': seq<nat>)
    requires Linked(c, r, pos) && !Hit(c, k) && |r| < |c.slots|
    ensures Linked(Inserted(LookedUp(c, k), k, pfn, w), Touched(r, k), pos')
  {
    hide NoRepeats, KeysAt, Ordered, Onto;
    HitIffRecent(c, r, pos, k);
    assert k !in r;
    TouchedNoRepeats(r, k);
    StopsAt(c, k, |r|);
    FillLinked(c, r, pos, Inserted(LookedUp(c, k), k, pfn, w), Touched(r, k));
    pos' := [|r|] + pos;
  }

  /** Once the key is in front, the others are where they were, as far as the slots reach. */
  lemma TouchedOver(r: seq<Key>, k: Key, n: nat)
    requires 0 < n <= |r| && IndexOf(r, k) >= n
    ensures var t := Touched(r, k);
            n <= |t| && t[0] == k && forall x :: 0 <= x < n - 1 ==> t[x + 1] == r[x]
  {
  }

  lemma EvictKeeps(c: Cache, r: seq<Key>, pos: seq<nat>, k: Key, pfn: nat, w: bool) returns (pos': seq<nat>)
    requires Linked(c, r, pos) && !Hit(c, k) && |r| >= |c.slots| > 0
    ensures Linked(Inserted(LookedUp(c, k), k, pfn, w), Touched(r, k), pos')
  {
    hide NoRepeats, KeysAt, Ordered, Onto, Touched;
    HitIffRecent(c, r, pos, k);
    var n, c' := |c.slots|, Inserted(LookedUp(c, k), k, pfn, w);
    StopsAt(c, k, n);
    OldestIsLast(c, r, pos);
    TouchedNoRepeats(r, k);
    TouchedOver(r, k, n);
    assert c'.slots == c.slots[pos[n - 1] := c'.slots[pos[n - 1]]];
    RefreshKeeps(c, r, pos, n - 1, c', Touched(r, k));
    pos' := ToFront(pos, n - 1);
  }

  lemma OldestIsLast(c: Cache, r: seq<Key>, pos: seq<nat>)
    requires Linked(c, r, pos) && |r| >= |c.slots| > 0
    ensures Oldest(c.slots) == pos[|c.slots| - 1]
  {
    var i := Oldest(c.slots);
    assert i in pos;
    var j :| 0 <= j < |pos| && pos[j] == i;
  }

  lemma ServedKeeps(c: Cache, r: seq<Key>, pos: seq<nat>, e: Event) returns (pos': seq<nat>)
    requires c.slots != [] && Linked(c, r, pos)
    requires e.Stray? ==> e.key !in r
    ensures Linked(Served(c, e), match e case Use(k, _, _) => Touched(r, k) case Stray(_) => r case FlushAll => [], pos')
  {
    match e
    case Use(k, pfn, w) =>
      if Hit(c, k) {
        pos' := HitKeeps(c, r, pos, k);
      } else if |r| < |c.slots| {
        pos' := FillKeeps(c, r, pos, k, pfn, w);
      } else {
        pos' := EvictKeeps(c, r, pos, k, pfn, w);
      }
    case Stray(k) =>
      HitIffRecent(c, r, pos, k);
      pos' := pos;
    case FlushAll =>
      pos' := [];
  }

  // ---- Whole traces ----

  lemma {:induction false} RunLinked(capacity: int, trace: seq<Event>) returns (pos: seq<nat>)
    requires Consistent(trace)
    ensures Linked(Run(capacity, trace), Recency(trace), pos)
  {
    if trace == [] {
      pos := [];
    } else {
      var n := |trace| - 1;
      var front := trace[..n];
      assert forall m :: 0 <= m < n ==> front[..m] == trace[..m];
      var before := RunLinked(capacity, front);
      pos := ServedKeeps(Run(capacity, front), Recency(front), before, trace[n]);
    }
  }

  /** After any trace the valid slots are a prefix, no key is cached twice, and the cached keys are
      exactly the Capacity most recently used since the last flush. */
  lemma TrueLru(capacity: int, trace: seq<Event>)
    requires Consistent(trace)
    ensures var c := Run(capacity, trace); var n := Min(Size(capacity), |Recency(trace)|);
            && (forall i :: 0 <= i < |c.slots| ==> (c.slots[i].valid <==> i < n))
            && (forall i, j :: 0 <= i < j < n ==> c.slots[i].key != c.slots[j].key)
            && (forall k: Key :: k in Recency(trace)[..n] <==> Hit(c, k))
  {
    var pos := RunLinked(capacity, trace);
    LinkedIsLru(Run(capacity, trace), Recency(trace), pos);
  }

  lemma LinkedIsLru(c: Cache, r: seq<Key>, pos: seq<nat>)
    requires Linked(c, r, pos)
    ensures forall i, j :: 0 <= i < j < |pos| ==> c.slots[i].key != c.slots[j].key
    ensures forall k: Key :: k in r[..|pos|] <==> Hit(c, k)
  {
    forall i, j | 0 <= i < j < |pos|
      ensures c.slots[i].key != c.slots[j].key
    {
      assert i in pos && j in pos;
      var x :| 0 <= x < |pos| && pos[x] == i;
      var y :| 0 <= y < |pos| && pos[y] == j;
      assert x != y;
    }
    forall k: Key
      ensures k in r[..|pos|] <==> Hit(c, k)
    {
      HitIffRecent(c, r, pos, k);
      var j := IndexOf(r, k);
      if k in r[..|pos|] {
        var l :| 0 <= l < |pos| && r[..|pos|][l] == k;
        assert l == j;
      }
      if j < |pos| {
        assert r[..|pos|][j] == k;
      }
    }
  }

  /** On the same trace a larger TLB never has fewer hits. */
  lemma {:induction false} LargerNeverWorse(small: int, large: int, trace: seq<Event>)
    requires Consistent(trace) && Size(small) <= Size(large)
    ensures Run(small, trace).hits <= Run(large, trace).hits
    ensures Run(small, trace).hits + Run(small, trace).misses == Run(large, trace).hits + Run(large, trace).misses
  {
    if trace != [] {
      var n := |trace| - 1;
      var front := trace[..n];
      assert forall m :: 0 <= m < n ==> front[..m] == trace[..m];
      LargerNeverWorse(small, large, front);
      if !trace[n].FlushAll? {
        var pos := RunLinked(small, front);
        var pos' := RunLinked(large, front);
        HitIffRecent(Run(small, front), Recency(front), pos, trace[n].key);
        HitIffRecent(Run(large, front), Recency(front), pos', trace[n].key);
      }
    }
  }

  // ---- The counters ----

  /** Lookups of a trace that find their key among the n most recently used, and all lookups. */
  function Found(trace: seq<Event>, n: nat): nat {
    if trace == [] then 0
    else
      var front, e := trace[..|trace| - 1], trace[|trace| - 1];
      var r := Recency(front);
      Found(front, n) + if !e.FlushAll? && e.key in r[..Min(n, |r|)] then 1 else 0
  }

  function Lookups(trace: seq<Event>): nat {
    if trace == [] then 0 else Lookups(trace[..|trace| - 1]) + if trace[|trace| - 1].FlushAll? then 0 else 1
  }

  lemma {:induction false} ServedCounts(c: Cache, e: Event)
    requires c.slots != []
    ensures Served(c, e).hits == c.hits + if !e.FlushAll? && Hit(c, e.key) then 1 else 0
    ensures Served(c, e).misses == c.misses + if !e.FlushAll? && !Hit(c, e.key) then 1 else 0
  {
  }

  /** Hits are the lookups of keys among the Capacity most recently used, misses are the others. */
  lemma {:induction false} CountersExact(capacity: int, trace: seq<Event>)
    requires Consistent(trace)
    ensures Run(capacity, trace).hits == Found(trace, Size(capacity))
    ensures Run(capacity, trace).misses == Lookups(trace) - Found(trace, Size(capacity))
  {
    hide Served, Hit, Recency, Consistent;
    if trace != [] {
      var n := |trace| - 1;
      FrontConsistent(trace);
      CountersExact(capacity, trace[..n]);
      TrueLru(capacity, trace[..n]);
      ServedCounts(Run(capacity, trace[..n]), trace[n]);
    }
  }

  lemma {:induction false} FrontConsistent(trace: seq<Event>)
    requires Consistent(trace) && trace != []
    ensures Consistent(trace[..|trace| - 1])
  {
    var front := trace[..|trace| - 1];
    forall n | 0 <= n < |front| && front[n].Stray?
      ensures front[n].key !in Recency(front[..n])
    {
      assert front[..n] == trace[..n] && trace[n] == front[n];
    }
  }
}
