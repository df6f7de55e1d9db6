/** pkg/memory/allocator.go: the buddy tree. */
module Buddy {
  import opened Collections
  import opened Arithmetic

  datatype Tree =
    | Leaf(addr: nat, order: nat, taken: bool)
    | Fork(addr: nat, order: nat, left: Tree, right: Tree)

  datatype Blk = Blk(addr: nat, order: nat)

  function Pow2(n: nat): (r: nat)
    ensures r > 0
  {
    if n == 0 then 1 else 2 * Pow2(n - 1)
  }

  lemma {:induction false} Pow2Grows(a: nat, b: nat)
    requires a < b
    ensures Pow2(a) < Pow2(b)
  {
    if a + 1 < b {
      Pow2Grows(a, b - 1);
    }
  }

  // ---- Multiples of a power of two ----

  predicate Aligned(d: nat, k: nat)
    decreases d
  {
    if d < Pow2(k) then d == 0 else Aligned(d - Pow2(k), k)
  }

  lemma {:induction false} AlignedIsMultiple(d: nat, k: nat) returns (q: nat)
    requires Aligned(d, k)
    ensures d == q * Pow2(k) && d % Pow2(k) == 0
    decreases d
  {
    if d == 0 {
      q := 0;
    } else {
      var q' := AlignedIsMultiple(d - Pow2(k), k);
      q := q' + 1;
    }
    ModUnique(d, Pow2(k), q, 0);
  }

  lemma {:induction false} MultipleIsAligned(q: nat, k: nat)
    ensures Aligned(q * Pow2(k), k)
  {
    if q > 0 {
      MultipleIsAligned(q - 1, k);
      assert q * Pow2(k) == (q - 1) * Pow2(k) + Pow2(k);
    }
  }

  lemma {:induction false} AlignedPlus(a: nat, b: nat, k: nat)
    requires Aligned(a, k) && Aligned(b, k)
    ensures Aligned(a + b, k)
    decreases a
  {
    if a > 0 {
      AlignedPlus(a - Pow2(k), b, k);
    }
  }

  lemma {:induction false} AlignedMinus(a: nat, b: nat, k: nat)
    requires Aligned(a, k) && Aligned(b, k)
    ensures a <= b ==> Aligned(b - a, k)
    ensures a < b ==> a + Pow2(k) <= b
    decreases a
  {
    if a > 0 && a <= b {
      AlignedMinus(a - Pow2(k), b - Pow2(k), k);
    }
  }

  lemma {:induction false} AlignedPow(o: nat, k: nat)
    requires k <= o
    ensures Aligned(Pow2(o), k)
  {
    if k < o {
      AlignedPow(o - 1, k);
      AlignedPlus(Pow2(o - 1), Pow2(o - 1), k);
    }
  }

  /** Each fork halves its block. */
  ghost predicate Formed(t: Tree) {
    match t
    case Leaf(_, _, _) => true
    case Fork(a, o, l, r) =>
      && o > 0 && l.order == o - 1 && r.order == o - 1
      && l.addr == a && r.addr == a + Pow2(o - 1)
      && Formed(l) && Formed(r)
  }

  function Taken(t: Tree): set<Blk> {
    match t
    case Leaf(a, o, taken) => if taken then {Blk(a, o)} else {}
    case Fork(_, _, l, r) => Taken(l) + Taken(r)
  }

  /** Nothing is split in vain: every fork holds an allocated block. */
  ghost predicate Packed(t: Tree) {
    match t
    case Leaf(_, _, _) => true
    case Fork(_, _, l, r) => Taken(t) != {} && Packed(l) && Packed(r)
  }

  predicate HasRoom(t: Tree, target: nat) {
    match t
    case Leaf(_, o, taken) => !taken && o >= target
    case Fork(_, _, l, r) => HasRoom(l, target) || HasRoom(r, target)
  }

  /** findAndSplit followed by marking the node it returns. */
  function Claimed(t: Tree, target: nat): (r: (Tree, Option<nat>))
    requires Formed(t)
    ensures Formed(r.0) && r.0.addr == t.addr && r.0.order == t.order
    decreases t.order, t
  {
    match t
    case Leaf(a, o, taken) =>
      if taken || o < target then (t, None)
      else if o == target then (Leaf(a, o, true), Some(a))
      else
        var (l, res) := Claimed(Leaf(a, o - 1, false), target);
        (Fork(a, o, l, Leaf(a + Pow2(o - 1), o - 1, false)), res)
    case Fork(a, o, l, r) =>
      var (l', res) := Claimed(l, target);
      if res.Some? then (Fork(a, o, l', r), res)
      else
        var (r', res') := Claimed(r, target);
        (Fork(a, o, l, r'), res')
  }

  // ---- Success, failure and effect ----

  lemma {:induction false} ClaimedIff(t: Tree, target: nat)
    requires Formed(t)
    ensures Claimed(t, target).1.Some? <==> HasRoom(t, target)
    ensures Claimed(t, target).1.None? ==> Claimed(t, target).0 == t
    decreases t.order, t
  {
    match t
    case Leaf(a, o, taken) =>
      if !taken && o > target {
        ClaimedIff(Leaf(a, o - 1, false), target);
      }
    case Fork(_, _, l, r) =>
      ClaimedIff(l, target);
      ClaimedIff(r, target);
  }

  lemma {:induction false} ClaimedAdds(t: Tree, target: nat)
    requires Formed(t) && Claimed(t, target).1.Some?
    ensures Taken(Claimed(t, target).0) == Taken(t) + {Blk(Claimed(t, target).1.value, target)}
    decreases t.order, t
  {
    match t
    case Leaf(a, o, taken) =>
      if o > target {
        ClaimedAdds(Leaf(a, o - 1, false), target);
      }
    case Fork(_, _, l, r) =>
      if Claimed(l, target).1.Some? {
        ClaimedAdds(l, target);
      } else {
        ClaimedAdds(r, target);
      }
  }

  lemma {:induction false} ClaimedPacked(t: Tree, target: nat)
    requires Formed(t) && Packed(t)
    ensures Packed(Claimed(t, target).0)
    decreases t.order, t
  {
    ClaimedIff(t, target);
    if Claimed(t, target).1.Some? {
      ClaimedAdds(t, target);
      match t
      case Leaf(a, o, taken) =>
        if o > target {
          ClaimedPacked(Leaf(a, o - 1, false), target);
        }
      case Fork(_, _, l, r) =>
        ClaimedPacked(l, target);
        ClaimedPacked(r, target);
    }
  }

  // ---- Where blocks lie ----

  predicate Apart(x: Blk, y: Blk) {
    x.addr + Pow2(x.order) <= y.addr || y.addr + Pow2(y.order) <= x.addr
  }

  /** Every allocated block lies in the arena at a multiple of its own size from its start. */
  lemma {:induction false} Inside(t: Tree, b: Blk)
    requires Formed(t) && b in Taken(t)
    ensures b.order <= t.order && t.addr <= b.addr
    ensures b.addr + Pow2(b.order) <= t.addr + Pow2(t.order)
    ensures Aligned(b.addr - t.addr, b.order)
  {
    match t
    case Leaf(_, _, _) =>
    case Fork(_, o, l, r) =>
      if b in Taken(l) {
        Inside(l, b);
      } else {
        Inside(r, b);
        AlignedPow(o - 1, b.order);
        AlignedPlus(Pow2(o - 1), b.addr - r.addr, b.order);
      }
  }

  lemma Halves(t: Tree, x: Blk, y: Blk)
    requires Formed(t) && t.Fork? && x in Taken(t.left) && y in Taken(t.right)
    ensures x.addr + Pow2(x.order) <= y.addr
  {
    Inside(t.left, x);
    Inside(t.right, y);
  }

  lemma {:induction false} PairwiseApart(t: Tree, x: Blk, y: Blk)
    requires Formed(t) && x in Taken(t) && y in Taken(t) && x != y
    ensures Apart(x, y)
  {
    match t
    case Leaf(_, _, _) =>
    case Fork(_, _, l, r) =>
      if x in Taken(l) && y in Taken(l) {
        PairwiseApart(l, x, y);
      } else if x in Taken(r) && y in Taken(r) {
        PairwiseApart(r, x, y);
      } else if x in Taken(l) {
        Halves(t, x, y);
      } else {
        Halves(t, y, x);
      }
  }

  // ---- Allocation fails only when no aligned block of the size is free ----

  ghost predicate Vacant(t: Tree, b: Blk) {
    forall x :: x in Taken(t) ==> Apart(x, b)
  }

  lemma NotWhollyVacant(t: Tree, b: Blk)
    requires Formed(t) && Taken(t) != {} && b.addr == t.addr && b.order == t.order
    ensures !Vacant(t, b)
  {
    var x :| x in Taken(t);
    Inside(t, x);
  }

  /** A vacant aligned block anywhere in the arena means the search will find room. */
  lemma {:induction false} VacantMeansRoom(t: Tree, d: nat, target: nat)
    requires Formed(t) && Packed(t)
    requires Aligned(d, target) && d + Pow2(target) <= Pow2(t.order)
    requires Vacant(t, Blk(t.addr + d, target))
    ensures HasRoom(t, target)
  {
    var b := Blk(t.addr + d, target);
    FitsOrder(t.order, target);
    match t
    case Leaf(a, o, taken) =>
      assert taken ==> Blk(a, o) in Taken(t) && Apart(Blk(a, o), b);
    case Fork(a, o, l, r) =>
      if target < o {
        AlignedPow(o - 1, target);
        AlignedMinus(d, Pow2(o - 1), target);
        AlignedMinus(Pow2(o - 1), d, target);
        if d < Pow2(o - 1) {
          VacantMeansRoom(l, d, target);
        } else {
          VacantMeansRoom(r, d - Pow2(o - 1), target);
        }
      } else {
        NotWhollyVacant(t, b);
        assert false;
      }
  }

  lemma FitsOrder(o: nat, k: nat)
    requires Pow2(k) <= Pow2(o)
    ensures k <= o
  {
    if k > o {
      Pow2Grows(o, k);
    }
  }

  /** And room found is a vacant aligned block. */
  lemma RoomMeansVacant(t: Tree, target: nat) returns (d: nat)
    requires Formed(t) && HasRoom(t, target)
    ensures Aligned(d, target) && d + Pow2(target) <= Pow2(t.order)
    ensures Vacant(t, Blk(t.addr + d, target))
  {
    ClaimedIff(t, target);
    ClaimedAdds(t, target);
    ClaimIsNew(t, target);
    var t' := Claimed(t, target).0;
    var b := Blk(Claimed(t, target).1.value, target);
    Inside(t', b);
    d := b.addr - t.addr;
    forall x | x in Taken(t)
      ensures Apart(x, b)
    {
      PairwiseApart(t', x, b);
    }
  }

  lemma {:induction false} ClaimIsNew(t: Tree, target: nat)
    requires Formed(t) && Claimed(t, target).1.Some?
    ensures Blk(Claimed(t, target).1.value, target) !in Taken(t)
    decreases t.order, t
  {
    if t.Fork? {
      var b := Blk(Claimed(t, target).1.value, target);
      if Claimed(t.left, target).1.Some? {
        ClaimIsNew(t.left, target);
        NotOpposite(t.left, target, t.right);
      } else {
        ClaimIsNew(t.right, target);
        NotOpposite(t.right, target, t.left);
      }
    }
  }

  lemma NotOpposite(t: Tree, target: nat, other: Tree)
    requires Formed(t) && Formed(other) && Claimed(t, target).1.Some?
    requires t.addr + Pow2(t.order) <= other.addr || other.addr + Pow2(other.order) <= t.addr
    ensures Blk(Claimed(t, target).1.value, target) !in Taken(other)
  {
    var b := Blk(Claimed(t, target).1.value, target);
    ClaimedAdds(t, target);
    Inside(Claimed(t, target).0, b);
    if b in Taken(other) {
      Inside(other, b);
    }
  }

  // ---- Runs of Allocate ----

  /** The least order that is at least min and holds size bytes. */
  function TargetOrder(min: nat, size: nat): (o: nat)
    ensures o >= min && Pow2(o) >= size
    ensures forall k :: min <= k < o ==> Pow2(k) < size
    decreases size - Pow2(min)
  {
    if Pow2(min) < size then TargetOrder(min + 1, size) else min
  }

  datatype Reply = Granted(addr: nat) | OutOfMemory

  datatype Arena = Arena(base: nat, min: nat, max: nat, root: Tree)

  ghost predicate Sound(a: Arena) {
    Formed(a.root) && Packed(a.root) && a.root.addr == a.base && a.root.order == a.max
  }

  function Fresh(base: nat, min: nat, max: nat): (a: Arena)
    ensures Sound(a)
  {
    Arena(base, min, max, Leaf(base, max, false))
  }

  function Allocate(a: Arena, size: nat): (r: (Arena, Reply))
    requires Sound(a)
    ensures Sound(r.0)
  {
    var target := TargetOrder(a.min, size);
    if target > a.max then (a, OutOfMemory)
    else
      var (root, res) := Claimed(a.root, target);
      ClaimedPacked(a.root, target);
      (a.(root := root), if res.Some? then Granted(res.value) else OutOfMemory)
  }

  /** The block of order target at offset d is aligned, inside the arena and unallocated. */
  ghost predicate FreeSlot(a: Arena, d: nat, target: nat) {
    Aligned(d, target) && d + Pow2(target) <= Pow2(a.max) && Vacant(a.root, Blk(a.base + d, target))
  }

  ghost predicate AnyFreeSlot(a: Arena, target: nat) {
    exists d: nat :: FreeSlot(a, d, target)
  }

  /** Allocation succeeds exactly when some block of the target size, at a multiple of that size
      from the base, is free; otherwise the tree is unchanged. */
  lemma AllocateIff(a: Arena, size: nat)
    requires Sound(a)
    ensures Allocate(a, size).1.Granted? <==> AnyFreeSlot(a, TargetOrder(a.min, size))
    ensures Allocate(a, size).1.OutOfMemory? ==> Allocate(a, size).0 == a
  {
    var target := TargetOrder(a.min, size);
    ClaimedIff(a.root, target);
    if Allocate(a, size).1.Granted? {
      var d := RoomMeansVacant(a.root, target);
      assert FreeSlot(a, d, target);
    } else {
      NoFreeSlot(a, size);
    }
  }

  lemma {:induction false} ClaimsLowest(t: Tree, d: nat, target: nat)
    requires Formed(t) && Packed(t) && Claimed(t, target).1.Some?
    requires Aligned(d, target) && d + Pow2(target) <= Pow2(t.order)
    requires Vacant(t, Blk(t.addr + d, target))
    ensures Claimed(t, target).1.value <= t.addr + d
    decreases t.order, t
  {
    FitsOrder(t.order, target);
    match t
    case Leaf(a, o, taken) =>
      ClaimsStart(t, target);
    case Fork(a, o, l, r) =>
      if target < o {
        AlignedPow(o - 1, target);
        AlignedMinus(d, Pow2(o - 1), target);
        AlignedMinus(Pow2(o - 1), d, target);
        ClaimedIff(l, target);
        if d < Pow2(o - 1) {
          VacantMeansRoom(l, d, target);
          ClaimsLowest(l, d, target);
        } else if Claimed(l, target).1.Some? {
          ClaimedAdds(l, target);
          Inside(Claimed(l, target).0, Blk(Claimed(l, target).1.value, target));
        } else {
          ClaimsLowest(r, d - Pow2(o - 1), target);
        }
      } else {
        NotWhollyVacant(t, Blk(t.addr + d, target));
        assert false;
      }
  }

  lemma {:induction false} ClaimsStart(t: Tree, target: nat)
    requires Formed(t) && t.Leaf? && Claimed(t, target).1.Some?
    ensures Claimed(t, target).1.value == t.addr
    decreases t.order
  {
    if t.order > target {
      ClaimsStart(Leaf(t.addr, t.order - 1, false), target);
    }
  }

  /** The block granted is the free one of lowest address. */
  lemma AllocateLowest(a: Arena, size: nat, d: nat)
    requires Sound(a) && Allocate(a, size).1.Granted? && FreeSlot(a, d, TargetOrder(a.min, size))
    ensures Allocate(a, size).1.addr <= a.base + d
  {
    ClaimsLowest(a.root, d, TargetOrder(a.min, size));
  }

  lemma NoFreeSlot(a: Arena, size: nat)
    requires Sound(a) && Allocate(a, size).1.OutOfMemory?
    ensures !AnyFreeSlot(a, TargetOrder(a.min, size))
  {
    var target := TargetOrder(a.min, size);
    forall d: nat | FreeSlot(a, d, target)
      ensures false
    {
      ClaimedIff(a.root, target);
      FitsOrder(a.max, target);
      VacantMeansRoom(a.root, d, target);
    }
  }

  /** Inside the arena, at a multiple of its own size from the base. */
  predicate Proper(base: nat, max: nat, b: Blk) {
    base <= b.addr && b.addr + Pow2(b.order) <= base + Pow2(max) && (b.addr - base) % Pow2(b.order) == 0
  }

  /** A grant adds exactly one block: as large as the target order, inside the arena, aligned to its
      own size relative to the base, and apart from every block allocated before. */
  lemma AllocateGrants(a: Arena, size: nat)
    requires Sound(a) && Allocate(a, size).1.Granted?
    ensures var target := TargetOrder(a.min, size); var addr := Allocate(a, size).1.addr;
            && Proper(a.base, a.max, Blk(addr, target))
            && Taken(Allocate(a, size).0.root) == Taken(a.root) + {Blk(addr, target)}
            && Vacant(a.root, Blk(addr, target))
  {
    var target := TargetOrder(a.min, size);
    var b := Blk(Allocate(a, size).1.addr, target);
    ClaimedAdds(a.root, target);
    ClaimIsNew(a.root, target);
    var root := Claimed(a.root, target).0;
    Inside(root, b);
    var q := AlignedIsMultiple(b.addr - a.base, target);
    forall x | x in Taken(a.root)
      ensures Apart(x, b)
    {
      PairwiseApart(root, x, b);
    }
  }

  function Run(base: nat, min: nat, max: nat, sizes: seq<nat>): (r: (Arena, seq<Blk>))
    ensures Sound(r.0) && r.0.base == base && r.0.min == min && r.0.max == max
  {
    if sizes == [] then (Fresh(base, min, max), [])
    else
      var n := |sizes| - 1;
      var (a, granted) := Run(base, min, max, sizes[..n]);
      var (a', reply) := Allocate(a, sizes[n]);
      (a', if reply.Granted? then granted + [Blk(reply.addr, TargetOrder(min, sizes[n]))] else granted)
  }

  ghost predicate Handed(base: nat, max: nat, taken: set<Blk>, granted: seq<Blk>) {
    && (forall i, j :: 0 <= i < j < |granted| ==> Apart(granted[i], granted[j]))
    && (forall i :: 0 <= i < |granted| ==> Proper(base, max, granted[i]))
    && (forall i :: 0 <= i < |granted| ==> granted[i] in taken)
  }

  lemma HandedMore(base: nat, max: nat, t: Tree, granted: seq<Blk>, b: Blk)
    requires Handed(base, max, Taken(t), granted) && Vacant(t, b) && Proper(base, max, b)
    ensures Handed(base, max, Taken(t) + {b}, granted + [b])
  {
    var all := granted + [b];
    forall i, j | 0 <= i < j < |all|
      ensures Apart(all[i], all[j])
    {
      assert all[i] == granted[i];
    }
    assert forall i :: 0 <= i < |all| ==> all[i] == b || all[i] in Taken(t);
  }

  /** Over any run, the blocks handed out are pairwise disjoint, inside the arena and aligned. */
  lemma {:induction false} RunDisjoint(base: nat, min: nat, max: nat, sizes: seq<nat>)
    ensures Handed(base, max, Taken(Run(base, min, max, sizes).0.root), Run(base, min, max, sizes).1)
  {
    if sizes != [] {
      var n := |sizes| - 1;
      RunDisjoint(base, min, max, sizes[..n]);
      var (a, granted) := Run(base, min, max, sizes[..n]);
      if Allocate(a, sizes[n]).1.Granted? {
        AllocateGrants(a, sizes[n]);
        HandedMore(base, max, a.root, granted, Blk(Allocate(a, sizes[n]).1.addr, TargetOrder(min, sizes[n])));
      } else {
        AllocateIff(a, sizes[n]);
      }
    }
  }
}
