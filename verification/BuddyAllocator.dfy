/** pkg/memory/allocator.go: the buddy tree of nodes, split in place. */
module BuddyAllocators {
  import opened Collections
  import opened Buddy

  class BuddyNode {
    const addr: nat
    const order: nat
    var isAllocated: bool
    var left: BuddyNode?
    var right: BuddyNode?
    ghost var repr: set<BuddyNode>

    constructor (addr: nat, order: nat)
      ensures Is(Leaf(addr, order, false), null) && repr == {this}
    {
      this.addr, this.order, isAllocated, left, right := addr, order, false, null, null;
      repr := {this};
    }

    /** The nodes below this one form the tree t, where the leaf `pending`, if there is one, is
        allocated in t but not yet flagged. */
    ghost predicate Is(t: Tree, pending: BuddyNode?)
      reads this, repr
      decreases t
    {
      && this in repr && addr == t.addr && order == t.order
      && match t
         case Leaf(_, _, taken) =>
           left == null && right == null && (if this == pending then taken && !isAllocated else isAllocated == taken)
         case Fork(_, _, l, r) =>
           && this != pending && !isAllocated && left != null && right != null && Owns(left, right)
           && left.Is(l, pending) && right.Is(r, pending)
    }

    ghost predicate Owns(l: BuddyNode, r: BuddyNode)
      reads this, repr
    {
      && l in repr && r in repr && l.repr <= repr && r.repr <= repr
      && this !in l.repr && this !in r.repr && l.repr !! r.repr
    }

    lemma {:induction false} PendingElsewhere(t: Tree, p: BuddyNode?)
      requires Is(t, null) && p !in repr
      ensures Is(t, p)
      decreases t
    {
      if t.Fork? {
        left.PendingElsewhere(t.left, p);
        right.PendingElsewhere(t.right, p);
      }
    }

    /** Setting the flag of the pending leaf completes the tree. */
    twostate lemma {:induction false} Settled(t: Tree, new p: BuddyNode)
      requires old(allocated(p)) && old(Is(t, p)) && repr == old(repr)
      requires forall n :: n in repr ==> n.left == old(n.left) && n.right == old(n.right) && n.repr == old(n.repr)
      requires forall n :: n in repr && n != p ==> n.isAllocated == old(n.isAllocated)
      requires p.isAllocated
      ensures Is(t, null)
      decreases t
    {
      if t.Fork? {
        var l, r := left, right;
        l.Settled(t.left, p);
        r.Settled(t.right, p);
      }
    }

    /** What a search through this node leaves behind: nothing, or t' with `found` still to flag. */
    ghost predicate Searched(t: Tree, r: (Tree, Option<nat>), found: BuddyNode?)
      reads this, repr
    {
      && (found == null <==> r.1.None?)
      && (found == null ==> Is(t, null))
      && (found != null ==> found in repr && found.addr == r.1.value && Is(r.0, found))
    }

    method FindAndSplit(target: nat, ghost t: Tree) returns (found: BuddyNode?)
      requires Is(t, null) && Formed(t)
      modifies repr
      ensures fresh(repr - old(repr)) && old(repr) <= repr
      ensures Searched(t, Claimed(t, target), found)
      decreases t.order, t, 1
    {
      if isAllocated {
        return null;
      }
      if left == null && right == null {
        if order == target {
          return this;
        }
        if order > target {
          found := Split(target, t);
          return found;
        }
        return null;
      }
      found := FindLeft(target, t);
      if found == null {
        found := FindRight(target, t);
      }
    }

    method Split(target: nat, ghost t: Tree) returns (found: BuddyNode?)
      requires Is(t, null) && t.Leaf? && !t.taken && order > target
      modifies repr
      ensures fresh(repr - old(repr)) && old(repr) <= repr
      ensures Searched(t, Claimed(t, target), found)
      decreases t.order, t, 0
    {
      var childOrder := order - 1;
      var l := new BuddyNode(addr, childOrder);
      var r := new BuddyNode(addr + Pow2(childOrder), childOrder);
      left, right := l, r;
      found := l.FindAndSplit(target, Leaf(addr, childOrder, false));
      repr := repr + {r} + l.repr;
      ClaimedIff(Leaf(addr, childOrder, false), target);
      r.PendingElsewhere(Leaf(r.addr, childOrder, false), found);
    }

    method FindLeft(target: nat, ghost t: Tree) returns (found: BuddyNode?)
      requires Is(t, null) && Formed(t) && t.Fork?
      modifies repr
      ensures fresh(repr - old(repr)) && old(repr) <= repr
      ensures Searched(t, (t.(left := Claimed(t.left, target).0), Claimed(t.left, target).1), found)
      decreases t.order, t, 0
    {
      var l, r := left, right;
      found := l.FindAndSplit(target, t.left);
      repr := repr + l.repr;
      if found != null {
        r.PendingElsewhere(t.right, found);
      }
    }

    method FindRight(target: nat, ghost t: Tree) returns (found: BuddyNode?)
      requires Is(t, null) && Formed(t) && t.Fork?
      modifies repr
      ensures fresh(repr - old(repr)) && old(repr) <= repr
      ensures Searched(t, (t.(right := Claimed(t.right, target).0), Claimed(t.right, target).1), found)
      decreases t.order, t, 0
    {
      var l, r := left, right;
      found := r.FindAndSplit(target, t.right);
      repr := repr + r.repr;
      if found != null {
        l.PendingElsewhere(t.left, found);
      }
    }
  }

  class BuddyAllocator {
    const baseAddr: nat
    const minOrder: nat
    const maxOrder: nat
    const root: BuddyNode
    ghost var tree: Tree

    ghost predicate Valid()
      reads this, root, root.repr
    {
      root.Is(tree, null) && Sound(View())
    }

    ghost function View(): Arena
      reads this
    {
      Arena(baseAddr, minOrder, maxOrder, tree)
    }

    constructor (baseAddr: nat, minOrder: nat, maxOrder: nat)
      ensures Valid() && fresh(root) && fresh(root.repr) && View() == Fresh(baseAddr, minOrder, maxOrder)
    {
      this.baseAddr, this.minOrder, this.maxOrder := baseAddr, minOrder, maxOrder;
      root := new BuddyNode(baseAddr, maxOrder);
      tree := Leaf(baseAddr, maxOrder, false);
    }

    method Allocate(size: nat) returns (r: Reply)
      requires Valid()
      modifies this, root.repr
      ensures Valid() && fresh(root.repr - old(root.repr))
      ensures (View(), r) == Buddy.Allocate(old(View()), size)
    {
      var targetOrder: nat := minOrder;
      while Pow2(targetOrder) < size
        invariant TargetOrder(targetOrder, size) == TargetOrder(minOrder, size)
        decreases size - Pow2(targetOrder)
      {
        targetOrder := targetOrder + 1;
      }
      if targetOrder > maxOrder {
        return OutOfMemory;
      }
      var node := root.FindAndSplit(targetOrder, tree);
      ClaimedIff(tree, targetOrder);
      ClaimedPacked(tree, targetOrder);
      if node == null {
        return OutOfMemory;
      }
      label found:
      node.isAllocated := true;
      tree := Claimed(tree, targetOrder).0;
      root.Settled@found(tree, node);
      return Granted(node.addr);
    }
  }
}
