/** pkg/memory/allocator.go: what every run of Malloc and Free keeps. */
module FreeListLaws {
  import opened Collections
  import opened FreeList

  // ---- Replacing a stretch of blocks ----

  function Splice(bs: seq<Block>, lo: nat, hi: nat, mid: seq<Block>): seq<Block>
    requires lo <= hi <= |bs|
  {
    bs[..lo] + mid + bs[hi..]
  }

  lemma SpliceTiles(start: nat, total: nat, bs: seq<Block>, lo: nat, hi: nat, mid: seq<Block>, width: nat)
    requires Tiles(start, total, bs) && lo < hi <= |bs|
    requires bs[lo].addr + width == End(bs[hi - 1]) && Tiles(bs[lo].addr, width, mid)
    ensures Tiles(start, total, Splice(bs, lo, hi, mid))
  {
    var r := Splice(bs, lo, hi, mid);
    if lo < hi - 1 {
      InOrder(start, total, bs, lo, hi - 1);
    }
    assert |bs| > 1 && |mid| == 1 ==> mid[0].size == width > 0;
    forall i, j | 0 <= i && j == i + 1 && j < |r|
      ensures r[j].addr == End(r[i])
    {
      if j < lo {
        assert r[i] == bs[i] && r[j] == bs[j];
      } else if j == lo {
        assert r[i] == bs[i] && r[j] == mid[0];
      } else if j < lo + |mid| {
        assert r[i] == mid[i - lo] && r[j] == mid[j - lo];
      } else if j == lo + |mid| {
        assert r[i] == mid[|mid| - 1] && r[j] == bs[hi];
      } else {
        assert r[i] == bs[i - lo - |mid| + hi] && r[j] == bs[j - lo - |mid| + hi];
      }
    }
    if hi == |bs| {
      assert r[|r| - 1] == mid[|mid| - 1];
    } else {
      assert r[|r| - 1] == bs[|bs| - 1];
    }
  }

  lemma SpliceCoalesced(bs: seq<Block>, lo: nat, hi: nat, mid: seq<Block>)
    requires Coalesced(bs) && Coalesced(mid) && lo <= hi <= |bs| && mid != []
    requires lo > 0 ==> bs[lo - 1].taken || mid[0].taken
    requires hi < |bs| ==> bs[hi].taken || mid[|mid| - 1].taken
    ensures Coalesced(Splice(bs, lo, hi, mid))
  {
    var r := Splice(bs, lo, hi, mid);
    forall i, j | 0 <= i && j == i + 1 && j < |r|
      ensures r[i].taken || r[j].taken
    {
      if j < lo {
        assert r[i] == bs[i] && r[j] == bs[j];
      } else if lo < j < lo + |mid| {
        assert r[i] == mid[i - lo] && r[j] == mid[j - lo];
      } else if j > lo + |mid| {
        assert r[i] == bs[i - lo - |mid| + hi] && r[j] == bs[j - lo - |mid| + hi];
      }
    }
  }

  lemma SpliceBytes(bs: seq<Block>, lo: nat, hi: nat, mid: seq<Block>)
    requires lo <= hi <= |bs|
    ensures TakenBytes(Splice(bs, lo, hi, mid)) == TakenBytes(bs) - TakenBytes(bs[lo..hi]) + TakenBytes(mid)
  {
    assert bs == bs[..lo] + bs[lo..hi] + bs[hi..];
    TakenBytesSplit(bs[..lo] + bs[lo..hi], bs[hi..]);
    TakenBytesSplit(bs[..lo], bs[lo..hi]);
    TakenBytesSplit(bs[..lo] + mid, bs[hi..]);
    TakenBytesSplit(bs[..lo], mid);
  }

  lemma OneTaken(b: Block)
    ensures TakenBytes([b]) == if b.taken then b.size else 0
  {
    assert [b][1..] == [];
  }

  /** Two neighbouring blocks at the seam of a splice are not both free. */
  ghost predicate Seams(bs: seq<Block>, lo: nat, hi: nat, mid: seq<Block>) {
    && lo < hi <= |bs| && mid != []
    && (lo > 0 ==> bs[lo - 1].taken || mid[0].taken)
    && (hi < |bs| ==> bs[hi].taken || mid[|mid| - 1].taken)
  }

  lemma SpliceGood(h: Heap, lo: nat, hi: nat, mid: seq<Block>, width: nat, h': Heap)
    requires Good(h) && Seams(h.blocks, lo, hi, mid) && Coalesced(mid)
    requires h.blocks[lo].addr + width == End(h.blocks[hi - 1]) && Tiles(h.blocks[lo].addr, width, mid)
    requires h'.start == h.start && h'.total == h.total && h'.blocks == Splice(h.blocks, lo, hi, mid)
    requires h'.bytes == h.bytes - TakenBytes(h.blocks[lo..hi]) + TakenBytes(mid)
    ensures Good(h')
  {
    SpliceTiles(h.start, h.total, h.blocks, lo, hi, mid, width);
    SpliceCoalesced(h.blocks, lo, hi, mid);
    SpliceBytes(h.blocks, lo, hi, mid);
  }

  // ---- Malloc keeps the heap well-formed ----

  lemma CarvedTiles(b: Block, size: nat)
    requires 0 < size <= b.size && !b.taken
    ensures Tiles(b.addr, b.size, Carved(b, size)) && Coalesced(Carved(b, size))
    ensures TakenBytes(Carved(b, size)) == Carved(b, size)[0].size
  {
    var c := Carved(b, size);
    OneTaken(c[0]);
    if |c| == 2 {
      assert c == [c[0]] + [c[1]];
      TakenBytesSplit([c[0]], [c[1]]);
      OneTaken(c[1]);
    }
  }

  lemma MallocKeeps(h: Heap, size: nat, bestFit: bool)
    requires Good(h)
    ensures Good(Malloc(h, size, bestFit).0)
  {
    if size > 0 {
      var i := Choice(h.blocks, size, bestFit);
      if i < |h.blocks| {
        var b := h.blocks[i];
        CarvedTiles(b, size);
        assert h.blocks[i..i + 1] == [b];
        OneTaken(b);
        assert i + 1 < |h.blocks| ==> h.blocks[i].taken || h.blocks[i + 1].taken;
        SpliceGood(h, i, i + 1, Carved(b, size), b.size, Malloc(h, size, bestFit).0);
      }
    }
  }

  // ---- Free keeps the heap well-formed ----

  /** Freeing replaces the block and its free neighbours by one free block over the same bytes. */
  lemma MergedIsSplice(start: nat, total: nat, bs: seq<Block>, i: nat)
    requires Tiles(start, total, bs) && i < |bs|
    ensures var lo, hi := Low(bs, i), High(bs, i);
            && bs[lo].addr <= End(bs[hi - 1])
            && Merged(bs, i) == Splice(bs, lo, hi, [Block(bs[lo].addr, End(bs[hi - 1]) - bs[lo].addr, false)])
  {
    var lo, hi := Low(bs, i), High(bs, i);
    assert i > 0 ==> bs[i].addr == End(bs[i - 1]);
    assert i + 1 < |bs| ==> bs[i + 1].addr == End(bs[i]);
    var grown := bs[i].size + if hi == i + 2 then bs[i + 1].size else 0;
    assert End(bs[hi - 1]) == bs[i].addr + grown;
    assert End(bs[hi - 1]) - bs[lo].addr == if lo < i then bs[lo].size + grown else grown;
  }

  lemma MergedBytes(bs: seq<Block>, i: nat)
    requires i < |bs| && bs[i].taken
    ensures TakenBytes(bs[Low(bs, i)..High(bs, i)]) == bs[i].size
  {
    var s := bs[Low(bs, i)..High(bs, i)];
    var k := i - Low(bs, i);
    assert s[k] == bs[i];
    SizeCounts(s, k);
    if k == 1 {
      assert s[..1] == [bs[i - 1]];
      OneTaken(bs[i - 1]);
    }
    if High(bs, i) == i + 2 {
      assert |s| == k + 2 && s[k + 1] == bs[i + 1];
      assert s[k + 1..] == [bs[i + 1]];
      OneTaken(bs[i + 1]);
    }
  }

  lemma FreeKeeps(h: Heap, addr: nat)
    requires Good(h)
    ensures Good(Free(h, addr).0)
  {
    var bs, i := h.blocks, AtAddress(h.blocks, addr);
    if i < |bs| && bs[i].taken {
      var lo, hi := Low(bs, i), High(bs, i);
      MergedIsSplice(h.start, h.total, bs, i);
      var width := End(bs[hi - 1]) - bs[lo].addr;
      var b := Block(bs[lo].addr, width, false);
      MergedBytes(bs, i);
      OneTaken(b);
      assert lo > 0 ==> bs[lo - 1].taken;
      assert hi < |bs| ==> bs[hi].taken;
      SpliceGood(h, lo, hi, [b], width, Free(h, addr).0);
    }
  }

  // ---- Runs ----

  datatype Op = MallocOp(size: nat, bestFit: bool) | FreeOp(addr: nat)

  function Fresh(start: nat, total: nat): Heap {
    Heap(start, total, [Block(start, total, false)], 0, 0)
  }

  function Apply(h: Heap, op: Op): (r: Heap)
    requires Good(h)
    ensures Good(r)
  {
    match op
    case MallocOp(size, bestFit) => MallocKeeps(h, size, bestFit); Malloc(h, size, bestFit).0
    case FreeOp(addr) => FreeKeeps(h, addr); Free(h, addr).0
  }

  /** The invariant of every run: the blocks tile the heap, no two neighbours are both free, and
      AllocatedBytes is the sum of the allocated sizes. */
  function Run(start: nat, total: nat, ops: seq<Op>): (h: Heap)
    ensures Good(h) && h.start == start && h.total == total
  {
    if ops == [] then OneTaken(Block(start, total, false)); Fresh(start, total)
    else Apply(Run(start, total, ops[..|ops| - 1]), ops[|ops| - 1])
  }

  /** Grants of a run, other than the empty ones. */
  function Grants(start: nat, total: nat, ops: seq<Op>): nat {
    if ops == [] then 0
    else
      var front, op := ops[..|ops| - 1], ops[|ops| - 1];
      Grants(start, total, front) +
      if op.MallocOp? && op.size > 0 && Malloc(Run(start, total, front), op.size, op.bestFit).1.Granted? then 1 else 0
  }

  /** AllocationsCount is the number of blocks ever granted. */
  lemma {:induction false} CountIsGrants(start: nat, total: nat, ops: seq<Op>)
    ensures Run(start, total, ops).count == Grants(start, total, ops)
  {
    if ops != [] {
      CountIsGrants(start, total, ops[..|ops| - 1]);
    }
  }

  // ---- Malloc succeeds exactly when it can ----

  ghost predicate FreeByte(bs: seq<Block>, b: nat) {
    exists i :: 0 <= i < |bs| && !bs[i].taken && bs[i].addr <= b < End(bs[i])
  }

  ghost predicate FreeRange(bs: seq<Block>, a: nat, size: nat) {
    forall b: nat :: a <= b < a + size ==> FreeByte(bs, b)
  }

  /** A run of free bytes lies inside one free block. */
  lemma FreeRangeInOneBlock(h: Heap, a: nat, size: nat) returns (i: nat)
    requires Good(h) && size > 0 && FreeRange(h.blocks, a, size)
    ensures i < |h.blocks| && Fits(h.blocks[i], size)
  {
    var bs := h.blocks;
    assert FreeByte(bs, a);
    i :| 0 <= i < |bs| && !bs[i].taken && bs[i].addr <= a < End(bs[i]);
    if End(bs[i]) < a + size {
      assert FreeByte(bs, End(bs[i]));
      var j :| 0 <= j < |bs| && !bs[j].taken && bs[j].addr <= End(bs[i]) < End(bs[j]);
      NextTo(h, i, j);
      assert false;
    }
  }

  lemma NextTo(h: Heap, i: nat, j: nat)
    requires Good(h) && i < |h.blocks| && j < |h.blocks| && !h.blocks[i].taken
    requires h.blocks[j].addr <= End(h.blocks[i]) < End(h.blocks[j])
    ensures h.blocks[j].taken
  {
    var bs := h.blocks;
    assert i + 1 < |bs| ==> bs[i + 1].addr == End(bs[i]);
    if j < i {
      InOrder(h.start, h.total, bs, j, i);
    } else if j > i + 1 {
      InOrder(h.start, h.total, bs, i + 1, j);
    }
  }

  lemma MallocIff(h: Heap, size: nat, bestFit: bool)
    requires Good(h) && size > 0
    ensures Malloc(h, size, bestFit).1.Granted? <==> exists a :: FreeRange(h.blocks, a, size)
  {
    var i := Choice(h.blocks, size, bestFit);
    if i < |h.blocks| {
      var a := h.blocks[i].addr;
      forall b: nat | a <= b < a + size
        ensures FreeByte(h.blocks, b)
      {
        assert !h.blocks[i].taken && h.blocks[i].addr <= b < End(h.blocks[i]);
      }
      assert FreeRange(h.blocks, a, size);
    }
    if a :| FreeRange(h.blocks, a, size) {
      var j := FreeRangeInOneBlock(h, a, size);
    }
  }

  /** A first-fit grant is the free block of lowest address that is large enough, a best-fit grant a
      smallest one, of lowest address among those. */
  lemma GrantByPolicy(h: Heap, size: nat, bestFit: bool)
    requires Good(h) && size > 0 && Malloc(h, size, bestFit).1.Granted?
    ensures var a := Malloc(h, size, bestFit).1.addr;
            exists b :: b in h.blocks && b.addr == a && FreeList.Fits(b, size) &&
              forall c :: c in h.blocks && FreeList.Fits(c, size) && c != b ==>
                if bestFit then b.size < c.size || (b.size == c.size && b.addr < c.addr) else b.addr < c.addr
  {
    var bs, i := h.blocks, Choice(h.blocks, size, bestFit);
    var b := bs[i];
    forall c | c in bs && FreeList.Fits(c, size) && c != b
      ensures if bestFit then b.size < c.size || (b.size == c.size && b.addr < c.addr) else b.addr < c.addr
    {
      var j :| 0 <= j < |bs| && bs[j] == c;
      if i < j {
        InOrder(h.start, h.total, bs, i, j);
      }
    }
    assert b in bs;
  }

  /** The block is cut exactly when more than 16 bytes would be left over: then the caller gets the
      size asked for and the rest stays free behind it, and otherwise the caller gets it whole. */
  lemma GrantIsCut(h: Heap, size: nat, bestFit: bool)
    requires Good(h) && size > 0 && Malloc(h, size, bestFit).1.Granted?
    ensures var (h', r) := Malloc(h, size, bestFit);
            exists b :: b in h.blocks && !b.taken && b.addr == r.addr &&
              if b.size <= size + 16 then b.(taken := true) in h'.blocks && |h'.blocks| == |h.blocks|
              else
                && Block(b.addr, size, true) in h'.blocks
                && Block(b.addr + size, b.size - size, false) in h'.blocks && |h'.blocks| == |h.blocks| + 1
  {
    var bs, i := h.blocks, Choice(h.blocks, size, bestFit);
    var c, r := Carved(bs[i], size), Malloc(h, size, bestFit).0.blocks;
    assert bs[i] in bs;
    assert r[i] == c[0] && (|c| == 2 ==> r[i + 1] == c[1]);
  }

  // ---- What the caller holds ----

  function TakenBlocks(bs: seq<Block>): set<Block> {
    set b | b in bs && b.taken
  }

  lemma SpliceTaken(bs: seq<Block>, lo: nat, hi: nat, mid: seq<Block>)
    requires lo <= hi <= |bs|
    ensures TakenBlocks(Splice(bs, lo, hi, mid)) == TakenBlocks(bs[..lo]) + TakenBlocks(mid) + TakenBlocks(bs[hi..])
    ensures TakenBlocks(bs) == TakenBlocks(bs[..lo]) + TakenBlocks(bs[lo..hi]) + TakenBlocks(bs[hi..])
  {
    assert bs == bs[..lo] + bs[lo..hi] + bs[hi..];
  }

  /** A block outside a stretch is none of the blocks inside it. */
  lemma OnlyHere(h: Heap, lo: nat, i: nat, hi: nat)
    requires Good(h) && lo <= i < hi <= |h.blocks|
    ensures forall b :: b in h.blocks[..lo] || b in h.blocks[hi..] ==> b.addr != h.blocks[i].addr
  {
    forall b | b in h.blocks[..lo] || b in h.blocks[hi..]
      ensures b.addr != h.blocks[i].addr
    {
      if b.addr == h.blocks[i].addr {
        var j :| 0 <= j < |h.blocks| && h.blocks[j] == b && (j < lo || j >= hi);
        AddressesDiffer(h.start, h.total, h.blocks, i, j);
      }
    }
  }

  /** A grant is one new block at the address returned, at least as large as asked and at most 16
      bytes larger; every block held before is held still. */
  lemma MallocTakes(h: Heap, size: nat, bestFit: bool) returns (b: Block)
    requires Good(h) && size > 0 && Malloc(h, size, bestFit).1.Granted?
    ensures var (h', r) := Malloc(h, size, bestFit);
            && b.taken && b.addr == r.addr && size <= b.size <= size + 16
            && TakenBlocks(h'.blocks) == TakenBlocks(h.blocks) + {b}
    ensures forall t :: t in TakenBlocks(h.blocks) ==> t.addr != b.addr
  {
    hide Tiles, Coalesced, TakenBlocks;
    var i := Choice(h.blocks, size, bestFit);
    b := Carved(h.blocks[i], size)[0];
    CarveAdds(h.blocks, i, size);
    NotHeld(h, i);
  }

  lemma CarveAdds(bs: seq<Block>, i: nat, size: nat)
    requires i < |bs| && !bs[i].taken && 0 < size <= bs[i].size
    ensures TakenBlocks(Splice(bs, i, i + 1, Carved(bs[i], size))) == TakenBlocks(bs) + {Carved(bs[i], size)[0]}
  {
    CarvedTaken(bs[i], size);
    SpliceTaken(bs, i, i + 1, Carved(bs[i], size));
    assert bs[i..i + 1] == [bs[i]] && TakenBlocks([bs[i]]) == {};
  }

  /** No block held starts where a free one does. */
  lemma NotHeld(h: Heap, i: nat)
    requires Good(h) && i < |h.blocks| && !h.blocks[i].taken
    ensures forall t :: t in TakenBlocks(h.blocks) ==> t.addr != h.blocks[i].addr
  {
    OnlyHere(h, i, i, i + 1);
    assert h.blocks == h.blocks[..i] + [h.blocks[i]] + h.blocks[i + 1..];
  }

  lemma CarvedTaken(b: Block, size: nat)
    requires 0 < size <= b.size
    ensures TakenBlocks(Carved(b, size)) == {Carved(b, size)[0]}
  {
  }

  /** Free releases exactly the block held at the address; any other address is refused. */
  lemma FreeReleases(h: Heap, addr: nat)
    requires Good(h)
    ensures var (h', r) := Free(h, addr);
            && (r.Released? <==> exists b :: b in TakenBlocks(h.blocks) && b.addr == addr)
            && (r.DoubleFree? <==> exists b :: b in h.blocks && !b.taken && b.addr == addr)
            && TakenBlocks(h'.blocks) == set b | b in TakenBlocks(h.blocks) && b.addr != addr
  {
    var bs, i := h.blocks, AtAddress(h.blocks, addr);
    if i < |bs| {
      assert forall b :: b in bs && b.addr == addr ==> b == bs[i] by {
        OnlyHere(h, i, i, i + 1);
        assert bs == bs[..i] + [bs[i]] + bs[i + 1..];
      }
      if bs[i].taken {
        ReleasedSet(h, i);
      }
    }
  }

  lemma ReleasedSet(h: Heap, i: nat)
    requires Good(h) && i < |h.blocks| && h.blocks[i].taken
    ensures TakenBlocks(Merged(h.blocks, i)) == set b | b in TakenBlocks(h.blocks) && b.addr != h.blocks[i].addr
  {
    var bs := h.blocks;
    var lo, hi := Low(bs, i), High(bs, i);
    MergedIsSplice(h.start, h.total, bs, i);
    var mid := [Block(bs[lo].addr, End(bs[hi - 1]) - bs[lo].addr, false)];
    assert TakenBlocks(mid) == {};
    SpliceTaken(bs, lo, hi, mid);
    OnlyHere(h, lo, i, hi);
    StretchTaken(bs, i);
  }

  lemma StretchTaken(bs: seq<Block>, i: nat)
    requires i < |bs| && bs[i].taken
    ensures TakenBlocks(bs[Low(bs, i)..High(bs, i)]) == {bs[i]}
  {
    var lo, hi := Low(bs, i), High(bs, i);
    var s := bs[lo..hi];
    assert s[i - lo] == bs[i];
    forall b | b in s && b.taken
      ensures b == bs[i]
    {
      var j :| 0 <= j < |s| && s[j] == b;
      assert bs[lo + j] == b;
    }
  }

  // ---- Round trips ----

  /** Malloc then Free gives back the very same block list. */
  lemma MallocThenFree(h: Heap, size: nat, bestFit: bool)
    requires Good(h) && size > 0 && Malloc(h, size, bestFit).1.Granted?
    ensures var (h', r) := Malloc(h, size, bestFit);
            Good(h') && Free(h', r.addr) == (h.(count := h.count + 1), Released)
  {
    hide Tiles, Coalesced, Merged, AtAddress;
    var bs, i := h.blocks, Choice(h.blocks, size, bestFit);
    var (h', r) := Malloc(h, size, bestFit);
    MallocKeeps(h, size, bestFit);
    assert h'.blocks[i] == Carved(bs[i], size)[0];
    AddressesDiffer(h'.start, h'.total, h'.blocks, i, AtAddress(h'.blocks, r.addr));
    CarvedMergesBack(bs, i, size);
  }

  lemma CarvedMergesBack(bs: seq<Block>, i: nat, size: nat)
    requires Coalesced(bs) && i < |bs| && Fits(bs[i], size) && size > 0
    ensures Merged(Splice(bs, i, i + 1, Carved(bs[i], size)), i) == bs
  {
    var c := Splice(bs, i, i + 1, Carved(bs[i], size));
    assert i > 0 ==> c[i - 1] == bs[i - 1] && bs[i - 1].taken;
    assert i + 1 < |bs| ==> bs[i + 1].taken;
  }

  function Addresses(bs: seq<Block>): set<nat> {
    set b | b in bs && b.taken :: b.addr
  }

  function ReleaseAll(h: Heap, addrs: seq<nat>): Heap
    requires Good(h)
    decreases |addrs|
  {
    if addrs == [] then h
    else
      FreeKeeps(h, addrs[0]);
      ReleaseAll(Free(h, addrs[0]).0, addrs[1..])
  }

  /** Freeing everything held, in any order, leaves one free block over the whole heap. */
  lemma {:induction false} FreeAllRestores(h: Heap, addrs: seq<nat>)
    requires Good(h) && Distinct(addrs) && Members(addrs) == Addresses(h.blocks)
    ensures ReleaseAll(h, addrs).blocks == [Block(h.start, h.total, false)]
    ensures ReleaseAll(h, addrs).bytes == 0
    decreases |addrs|
  {
    hide Tiles, Coalesced, Merged;
    if addrs == [] {
      AllFreeIsOne(h);
    } else {
      var a := addrs[0];
      var h' := Free(h, a).0;
      FreeKeeps(h, a);
      AddressesAfter(h, a);
      assert Members(addrs[1..]) == Members(addrs) - {a} by {
        assert addrs == [a] + addrs[1..];
      }
      FreeAllRestores(h', addrs[1..]);
    }
  }

  lemma AddressesAfter(h: Heap, a: nat)
    requires Good(h)
    ensures Addresses(Free(h, a).0.blocks) == Addresses(h.blocks) - {a}
  {
    FreeReleases(h, a);
    var h' := Free(h, a).0;
    forall x
      ensures x in Addresses(h'.blocks) <==> x in Addresses(h.blocks) - {a}
    {
      if x in Addresses(h.blocks) && x != a {
        var b :| b in h.blocks && b.taken && b.addr == x;
        assert b in TakenBlocks(h'.blocks);
      }
      if x in Addresses(h'.blocks) {
        var b :| b in h'.blocks && b.taken && b.addr == x;
        assert b in TakenBlocks(h'.blocks);
        assert b in TakenBlocks(h.blocks);
      }
    }
  }

  lemma TakenHaveAddresses(bs: seq<Block>)
    ensures forall i :: 0 <= i < |bs| && bs[i].taken ==> bs[i].addr in Addresses(bs)
  {
  }

  lemma AllFreeIsOne(h: Heap)
    requires Good(h) && Addresses(h.blocks) == {}
    ensures h.blocks == [Block(h.start, h.total, false)] && h.bytes == 0
  {
    var bs := h.blocks;
    assert |bs| > 1 ==> bs[0].taken || bs[1].taken;
    TakenHaveAddresses(bs);
    OneTaken(bs[0]);
    assert bs == [bs[0]];
  }
}
