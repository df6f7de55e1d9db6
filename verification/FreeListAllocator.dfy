/** pkg/memory/allocator.go: the doubly linked list of block headers, updated in place. */
module FreeListAllocators {
  import opened FreeList
  import Laws = FreeListLaws

  class BlockHeader {
    var addr: nat
    var size: nat
    var isAllocated: bool
    var next: BlockHeader?
    var prev: BlockHeader?

    constructor (addr: nat, size: nat, next: BlockHeader?, prev: BlockHeader?)
      ensures this.addr == addr && this.size == size && !isAllocated && this.next == next && this.prev == prev
    {
      this.addr, this.size, isAllocated, this.next, this.prev := addr, size, false, next, prev;
    }
  }

  ghost predicate Unique(ns: seq<BlockHeader>) {
    forall i, j :: 0 <= i < j < |ns| ==> ns[i] != ns[j]
  }

  /** Node i of the list points at its neighbours. */
  ghost predicate LinkedAt(ns: seq<BlockHeader>, i: nat)
    requires i < |ns|
    reads ns`next, ns`prev
  {
    && ns[i].next == (if i + 1 < |ns| then ns[i + 1] else null)
    && ns[i].prev == (if i > 0 then ns[i - 1] else null)
  }

  ghost predicate Chain(ns: seq<BlockHeader>)
    reads ns`next, ns`prev
  {
    forall i :: 0 <= i < |ns| ==> LinkedAt(ns, i)
  }

  ghost predicate Holds(n: BlockHeader, b: Block)
    reads n`addr, n`size, n`isAllocated
  {
    n.addr == b.addr && n.size == b.size && n.isAllocated == b.taken
  }

  /** The headers in list order hold exactly these blocks. */
  ghost predicate Mirrors(ns: seq<BlockHeader>, bs: seq<Block>)
    reads ns`addr, ns`size, ns`isAllocated
  {
    |ns| == |bs| && forall i :: 0 <= i < |ns| ==> Holds(ns[i], bs[i])
  }

  function Inserted<T>(s: seq<T>, i: nat, x: T): (r: seq<T>)
    requires i < |s|
    ensures |r| == |s| + 1 && r[i + 1] == x
    ensures forall j :: 0 <= j <= i ==> r[j] == s[j]
    ensures forall j :: i + 1 < j < |r| ==> r[j] == s[j - 1]
  {
    s[..i + 1] + [x] + s[i + 1..]
  }

  lemma UniqueInserted(ns: seq<BlockHeader>, i: nat, x: BlockHeader)
    requires Unique(ns) && i < |ns| && x !in ns
    ensures Unique(Inserted(ns, i, x))
  {
  }

  // ---- The in-place steps on the list of blocks ----

  function Absorbed(bs: seq<Block>, i: nat): seq<Block>
    requires i + 1 < |bs|
  {
    bs[..i] + [bs[i].(size := bs[i].size + bs[i + 1].size)] + bs[i + 2..]
  }

  function Halved(bs: seq<Block>, i: nat, size: nat): (r: seq<Block>)
    requires i < |bs| && size < bs[i].size
    ensures i < |r| && r[i] == Block(bs[i].addr, size, bs[i].taken)
  {
    bs[..i] + [bs[i].(size := size), Block(bs[i].addr + size, bs[i].size - size, false)] + bs[i + 1..]
  }

  lemma HalvedInSteps(bs: seq<Block>, i: nat, size: nat)
    requires i < |bs| && size < bs[i].size
    ensures Halved(bs, i, size) ==
            Inserted(bs, i, Block(bs[i].addr + size, bs[i].size - size, false))[i := Block(bs[i].addr, size, bs[i].taken)]
  {
  }

  /** Splitting and then setting the flag is what Carved says. */
  lemma CarvedInSteps(bs: seq<Block>, i: nat, size: nat)
    requires i < |bs| && 0 < size <= bs[i].size && !bs[i].taken
    ensures var carved := bs[..i] + Carved(bs[i], size) + bs[i + 1..];
            var split := if bs[i].size > size + 16 then Halved(bs, i, size) else bs;
            carved == split[i := split[i].(taken := true)]
  {
  }

  /** Clearing the flag, absorbing a free successor and being absorbed by a free predecessor is
      what Merged says. */
  lemma MergedInSteps(bs: seq<Block>, i: nat)
    requires i < |bs|
    ensures var cleared := bs[i := bs[i].(taken := false)];
            var grown := if High(bs, i) == i + 2 then Absorbed(cleared, i) else cleared;
            Merged(bs, i) == if Low(bs, i) < i then Absorbed(grown, i - 1) else grown
  {
    var cleared := bs[i := bs[i].(taken := false)];
    var grown := if High(bs, i) == i + 2 then Absorbed(cleared, i) else cleared;
    GrownParts(bs, i);
    MergedFrom(bs, i, grown);
  }

  lemma MergedFrom(bs: seq<Block>, i: nat, grown: seq<Block>)
    requires i < |bs| && i < |grown| && grown[..i] == bs[..i] && grown[i + 1..] == bs[High(bs, i)..]
    requires grown[i] == Block(bs[i].addr, bs[i].size + (if High(bs, i) == i + 2 then bs[i + 1].size else 0), false)
    ensures Merged(bs, i) == if Low(bs, i) < i then Absorbed(grown, i - 1) else grown
  {
    if Low(bs, i) < i {
      assert grown[i - 1] == grown[..i][i - 1] && grown[..i - 1] == grown[..i][..i - 1];
      assert bs[i - 1] == bs[..i][i - 1] && bs[..i - 1] == bs[..i][..i - 1];
    } else {
      assert grown == grown[..i] + [grown[i]] + grown[i + 1..];
    }
  }

  /** The list after the block has been cleared and has taken over a free successor. */
  lemma GrownParts(bs: seq<Block>, i: nat)
    requires i < |bs|
    ensures var cleared := bs[i := bs[i].(taken := false)];
            var grown := if High(bs, i) == i + 2 then Absorbed(cleared, i) else cleared;
            && |grown| > i && grown[..i] == bs[..i] && grown[i + 1..] == bs[High(bs, i)..]
            && grown[i] == Block(bs[i].addr, bs[i].size + (if High(bs, i) == i + 2 then bs[i + 1].size else 0), false)
  {
  }

  class FreeListAllocator {
    const heapStart: nat
    const totalSize: nat
    var head: BlockHeader
    var allocatedBytes: nat
    var allocationsCount: nat
    ghost var nodes: seq<BlockHeader>   // the headers reached from head, in order
    ghost var blocks: seq<Block>        // what they hold
    ghost var repr: set<BlockHeader>    // every header the allocator owns

    ghost predicate Linked()
      reads this, repr
    {
      && nodes != [] && head == nodes[0] && Unique(nodes)
      && (forall i :: 0 <= i < |nodes| ==> nodes[i] in repr)
      && Chain(nodes) && Mirrors(nodes, blocks)
    }

    ghost function View(): Heap
      reads this
    {
      Heap(heapStart, totalSize, blocks, allocatedBytes, allocationsCount)
    }

    ghost predicate Valid()
      reads this, repr
    {
      Linked() && Good(View())
    }

    constructor (startAddr: nat, totalSize: nat)
      ensures Valid() && fresh(repr)
      ensures View() == Laws.Fresh(startAddr, totalSize)
    {
      heapStart, this.totalSize := startAddr, totalSize;
      var block := new BlockHeader(startAddr, totalSize, null, null);
      head := block;
      allocatedBytes, allocationsCount := 0, 0;
      nodes, blocks, repr := [block], [Block(startAddr, totalSize, false)], {block};
      Laws.OneTaken(Block(startAddr, totalSize, false));
    }

    // ---- Searching ----

    method FindFirstFit(size: nat) returns (chosen: BlockHeader?, ghost i: nat)
      requires Linked()
      ensures i == FirstFit(blocks, size)
      ensures chosen == if i < |nodes| then nodes[i] else null
    {
      var curr: BlockHeader? := head;
      i := 0;
      while curr != null
        invariant i <= |nodes| && curr == if i < |nodes| then nodes[i] else null
        invariant forall j :: 0 <= j < i ==> !Fits(blocks[j], size)
        decreases |nodes| - i
      {
        assert LinkedAt(nodes, i) && Holds(nodes[i], blocks[i]);
        if !curr.isAllocated && curr.size >= size {
          return curr, i;
        }
        curr, i := curr.next, i + 1;
      }
      return null, i;
    }

    method FindBestFit(size: nat) returns (chosen: BlockHeader?, ghost i: nat)
      requires Linked()
      ensures i == BestFit(blocks, size)
      ensures chosen == if i < |nodes| then nodes[i] else null
    {
      var curr: BlockHeader? := head;
      ghost var k: nat := 0;
      chosen, i := null, 0;
      while curr != null
        invariant k <= |nodes| && curr == if k < |nodes| then nodes[k] else null
        invariant IsBestFit(blocks[..k], size, i)
        invariant chosen == if i < k then nodes[i] else null
        decreases |nodes| - k
      {
        assert LinkedAt(nodes, k) && Holds(nodes[k], blocks[k]);
        assert i < k ==> Holds(nodes[i], blocks[i]);
        if !curr.isAllocated && curr.size >= size {
          if chosen == null || curr.size < chosen.size {
            chosen, i := curr, k;
          }
        } else if i == k {
          i := k + 1;
        }
        curr, k := curr.next, k + 1;
      }
      assert blocks[..k] == blocks;
      BestFitUnique(blocks, size, i);
    }

    method Find(size: nat, bestFit: bool) returns (chosen: BlockHeader?, ghost i: nat)
      requires Linked()
      ensures i == Choice(blocks, size, bestFit)
      ensures chosen == if i < |nodes| then nodes[i] else null
    {
      if bestFit {
        chosen, i := FindBestFit(size);
      } else {
        chosen, i := FindFirstFit(size);
      }
    }

    method FindAddress(addr: nat) returns (curr: BlockHeader?, ghost i: nat)
      requires Linked()
      ensures i == AtAddress(blocks, addr)
      ensures curr == if i < |nodes| then nodes[i] else null
    {
      curr, i := head, 0;
      while curr != null && curr.addr != addr
        invariant i <= |nodes| && curr == if i < |nodes| then nodes[i] else null
        invariant forall j :: 0 <= j < i ==> blocks[j].addr != addr
        decreases |nodes| - i
      {
        assert LinkedAt(nodes, i) && Holds(nodes[i], blocks[i]);
        curr, i := curr.next, i + 1;
      }
      assert i < |nodes| ==> Holds(nodes[i], blocks[i]);
    }

    // ---- Relinking ----

    /** Sets the three pointers that put a header after node i. */
    method Hook(node: BlockHeader, added: BlockHeader, ghost i: nat)
      requires Linked() && i < |nodes| && node == nodes[i]
      requires added in repr && added !in nodes && added.prev == node && added.next == node.next
      modifies repr`next, repr`prev
      ensures Chain(Inserted(nodes, i, added))
    {
      assert LinkedAt(nodes, i);
      if node.next != null {
        node.next.prev := added;
      }
      node.next := added;
      ghost var ns := Inserted(nodes, i, added);
      forall j | 0 <= j < |ns|
        ensures LinkedAt(ns, j)
      {
        assert j <= i ==> old(LinkedAt(nodes, j));
        assert j > i + 1 ==> old(LinkedAt(nodes, j - 1));
      }
    }

    method LinkAfter(node: BlockHeader, added: BlockHeader, ghost i: nat, ghost b: Block)
      requires Linked() && i < |nodes| && node == nodes[i]
      requires added in repr && added !in nodes && added.prev == node && added.next == node.next && Holds(added, b)
      modifies this`nodes, this`blocks, repr`next, repr`prev
      ensures Linked() && nodes == Inserted(old(nodes), i, added) && blocks == Inserted(old(blocks), i, b)
    {
      Hook(node, added, i);
      UniqueInserted(nodes, i, added);
      nodes := Inserted(nodes, i, added);
      blocks := Inserted(blocks, i, b);
    }

    method Unlink(node: BlockHeader, ghost i: nat)
      requires Linked() && i + 1 < |nodes| && node == nodes[i]
      modifies this`nodes, this`blocks, repr`next, repr`prev
      ensures Linked() && nodes == old(nodes)[..i + 1] + old(nodes)[i + 2..]
      ensures blocks == old(blocks)[..i + 1] + old(blocks)[i + 2..]
    {
      assert LinkedAt(nodes, i) && LinkedAt(nodes, i + 1);
      assert i + 2 < |nodes| ==> nodes[i + 2] in nodes;
      node.next := node.next.next;
      if node.next != null {
        node.next.prev := node;
      }
      nodes := nodes[..i + 1] + nodes[i + 2..];
      blocks := blocks[..i + 1] + blocks[i + 2..];
      forall j | 0 <= j < |nodes|
        ensures LinkedAt(nodes, j)
      {
        assert j <= i ==> old(LinkedAt(nodes, j));
        assert j > i ==> old(LinkedAt(nodes, j + 1));
      }
    }

    method Write(node: BlockHeader, size: nat, taken: bool, ghost i: nat)
      requires Linked() && i < |nodes| && node == nodes[i]
      modifies this`blocks, repr`size, repr`isAllocated
      ensures Linked() && blocks == old(blocks)[i := Block(old(blocks)[i].addr, size, taken)]
    {
      node.size, node.isAllocated := size, taken;
      blocks := blocks[i := Block(blocks[i].addr, size, taken)];
    }

    // ---- Malloc ----

    /** A new header, owned but not yet in the list. */
    method Adopt(addr: nat, size: nat, next: BlockHeader?, prev: BlockHeader?) returns (n: BlockHeader)
      requires Linked()
      modifies this`repr
      ensures Linked() && fresh(n) && repr == old(repr) + {n} && n !in nodes
      ensures n.next == next && n.prev == prev && Holds(n, Block(addr, size, false))
    {
      n := new BlockHeader(addr, size, next, prev);
      repr := repr + {n};
    }

    /** Cuts the free block i down to size bytes and links the rest in after it. */
    method Split(chosen: BlockHeader, size: nat, ghost i: nat) returns (ghost rest: BlockHeader)
      requires Linked() && i < |nodes| && chosen == nodes[i] && size < blocks[i].size
      modifies this`nodes, this`blocks, this`repr, repr
      ensures Linked() && fresh(repr - old(repr)) && nodes == Inserted(old(nodes), i, rest)
      ensures blocks == Halved(old(blocks), i, size)
    {
      hide Halved, Chain, Inserted, Unique;
      HalvedInSteps(blocks, i, size);
      assert Holds(chosen, blocks[i]);
      var remaining := Adopt(chosen.addr + size, chosen.size - size, chosen.next, chosen);
      LinkAfter(chosen, remaining, i, Block(blocks[i].addr + size, blocks[i].size - size, false));
      Write(chosen, size, chosen.isAllocated, i);
      rest := remaining;
    }

    method Take(chosen: BlockHeader, size: nat, ghost i: nat)
      requires Linked() && i < |nodes| && chosen == nodes[i] && 0 < size <= blocks[i].size && !blocks[i].taken
      modifies this, repr
      ensures Linked() && fresh(repr - old(repr))
      ensures blocks == old(blocks)[..i] + Carved(old(blocks)[i], size) + old(blocks)[i + 1..]
      ensures allocatedBytes == old(allocatedBytes) + Carved(old(blocks)[i], size)[0].size
      ensures allocationsCount == old(allocationsCount) + 1
    {
      CarvedInSteps(blocks, i, size);
      assert Holds(chosen, blocks[i]);
      if chosen.size > size + 16 {
        ghost var rest := Split(chosen, size, i);
      }
      assert Holds(chosen, blocks[i]);
      Write(chosen, chosen.size, true, i);
      allocatedBytes := allocatedBytes + chosen.size;
      allocationsCount := allocationsCount + 1;
    }

    method Malloc(size: nat, bestFit: bool) returns (r: Reply)
      requires Valid()
      modifies this, repr
      ensures Valid() && fresh(repr - old(repr))
      ensures (View(), r) == FreeList.Malloc(old(View()), size, bestFit)
    {
      Laws.MallocKeeps(View(), size, bestFit);
      if size == 0 {
        return Granted(0);
      }
      r := Allocate(size, bestFit);
    }

    method Allocate(size: nat, bestFit: bool) returns (r: Reply)
      requires Linked() && size > 0
      modifies this, repr
      ensures Linked() && fresh(repr - old(repr))
      ensures (View(), r) == FreeList.Malloc(old(View()), size, bestFit)
    {
      hide Chain, Unique;
      var chosen, i := Find(size, bestFit);
      if chosen == null {
        return OutOfMemory;
      }
      assert Holds(chosen, blocks[i]) && Fits(blocks[i], size);
      ghost var h := View();
      r := Granted(chosen.addr);
      Take(chosen, size, i);
      assert View() == FreeList.Malloc(h, size, bestFit).0;
    }

    // ---- Free ----

    /** Node i takes over the bytes of its successor, which leaves the list. */
    method Absorb(node: BlockHeader, ghost i: nat)
      requires Linked() && i + 1 < |nodes| && node == nodes[i]
      modifies this`nodes, this`blocks, repr
      ensures Linked() && nodes == old(nodes)[..i + 1] + old(nodes)[i + 2..]
      ensures blocks == Absorbed(old(blocks), i)
    {
      assert LinkedAt(nodes, i) && Holds(node, blocks[i]) && Holds(nodes[i + 1], blocks[i + 1]);
      Write(node, node.size + node.next.size, node.isAllocated, i);
      Unlink(node, i);
    }

    method MergeNext(curr: BlockHeader, ghost i: nat)
      requires Linked() && i < |nodes| && curr == nodes[i]
      modifies this`nodes, this`blocks, repr
      ensures Linked() && repr == old(repr) && i < |nodes| && nodes[i] == curr
      ensures blocks == if i + 1 < |old(blocks)| && !old(blocks)[i + 1].taken then Absorbed(old(blocks), i) else old(blocks)
    {
      assert LinkedAt(nodes, i);
      assert i + 1 < |nodes| ==> Holds(nodes[i + 1], blocks[i + 1]);
      if curr.next != null && !curr.next.isAllocated {
        Absorb(curr, i);
      }
    }

    method MergePrev(curr: BlockHeader, ghost i: nat)
      requires Linked() && i < |nodes| && curr == nodes[i]
      modifies this`nodes, this`blocks, repr
      ensures Linked() && repr == old(repr)
      ensures blocks == if i > 0 && !old(blocks)[i - 1].taken then Absorbed(old(blocks), i - 1) else old(blocks)
    {
      assert LinkedAt(nodes, i);
      assert i > 0 ==> Holds(nodes[i - 1], blocks[i - 1]);
      if curr.prev != null && !curr.prev.isAllocated {
        Absorb(curr.prev, i - 1);
      }
    }

    method Release(curr: BlockHeader, ghost i: nat)
      requires Linked() && i < |nodes| && curr == nodes[i] && blocks[i].size <= allocatedBytes
      modifies this, repr
      ensures Linked() && repr == old(repr)
      ensures blocks == Merged(old(blocks), i)
      ensures allocatedBytes == old(allocatedBytes) - old(blocks)[i].size && allocationsCount == old(allocationsCount)
    {
      MergedInSteps(blocks, i);
      assert Holds(curr, blocks[i]);
      Write(curr, curr.size, false, i);
      allocatedBytes := allocatedBytes - curr.size;
      MergeNext(curr, i);
      MergePrev(curr, i);
    }

    method Free(addr: nat) returns (r: FreeReply)
      requires Valid()
      modifies this, repr
      ensures Valid() && repr == old(repr)
      ensures (View(), r) == FreeList.Free(old(View()), addr)
    {
      hide Merged, Chain, Unique, Tiles, Coalesced;
      var curr, i := FindAddress(addr);
      if curr == null {
        return NotFound;
      }
      assert Holds(curr, blocks[i]);
      if !curr.isAllocated {
        return DoubleFree;
      }
      Laws.FreeKeeps(View(), addr);
      SizeCounts(blocks, i);
      Release(curr, i);
      return Released;
    }
  }
}
