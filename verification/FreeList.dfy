/** pkg/memory/allocator.go: the free-list heap on its list of blocks in address order. */
module FreeList {
  datatype Block = Block(addr: nat, size: nat, taken: bool)

  datatype Heap = Heap(start: nat, total: nat, blocks: seq<Block>, bytes: nat, count: nat)

  datatype Reply = Granted(addr: nat) | OutOfMemory

  datatype FreeReply = Released | DoubleFree | NotFound

  // ---- Well-formed heaps ----

  function End(b: Block): nat {
    b.addr + b.size
  }

  /** Blocks follow each other over the whole heap; only a heap of size 0 has an empty one. */
  ghost predicate Tiles(start: nat, total: nat, bs: seq<Block>) {
    && bs != [] && bs[0].addr == start && End(bs[|bs| - 1]) == start + total
    && (|bs| == 1 || forall i :: 0 <= i < |bs| ==> bs[i].size > 0)
    && (forall i, j :: 0 <= i && j == i + 1 && j < |bs| ==> bs[j].addr == End(bs[i]))
  }

  ghost predicate Coalesced(bs: seq<Block>) {
    forall i, j :: 0 <= i && j == i + 1 && j < |bs| ==> bs[i].taken || bs[j].taken
  }

  function TakenBytes(bs: seq<Block>): nat {
    if bs == [] then 0 else (if bs[0].taken then bs[0].size else 0) + TakenBytes(bs[1..])
  }

  ghost predicate Good(h: Heap) {
    && Tiles(h.start, h.total, h.blocks)
    && Coalesced(h.blocks)
    && h.bytes == TakenBytes(h.blocks)
  }

  lemma {:induction false} TakenBytesSplit(a: seq<Block>, b: seq<Block>)
    ensures TakenBytes(a + b) == TakenBytes(a) + TakenBytes(b)
  {
    if a == [] {
      assert a + b == b;
    } else {
      assert (a + b)[1..] == a[1..] + b;
      TakenBytesSplit(a[1..], b);
    }
  }

  /** Blocks follow each other in address order. */
  lemma {:induction false} InOrder(start: nat, total: nat, bs: seq<Block>, i: nat, j: nat)
    requires Tiles(start, total, bs) && i < j < |bs|
    ensures End(bs[i]) <= bs[j].addr
    decreases j
  {
    if i + 1 < j {
      InOrder(start, total, bs, i, j - 1);
    }
    assert bs[j].addr == End(bs[j - 1]);
  }

  lemma Within(start: nat, total: nat, bs: seq<Block>, i: nat)
    requires Tiles(start, total, bs) && i < |bs|
    ensures start <= bs[i].addr && End(bs[i]) <= start + total
  {
    if i > 0 {
      InOrder(start, total, bs, 0, i);
    }
    if i < |bs| - 1 {
      InOrder(start, total, bs, i, |bs| - 1);
    }
  }

  /** A block's address is its own. */
  lemma AddressesDiffer(start: nat, total: nat, bs: seq<Block>, i: nat, j: nat)
    requires Tiles(start, total, bs) && i < |bs| && j < |bs| && bs[i].addr == bs[j].addr
    ensures i == j
  {
    if i < j {
      InOrder(start, total, bs, i, j);
    } else if j < i {
      InOrder(start, total, bs, j, i);
    }
  }

  // ---- Malloc ----

  predicate Fits(b: Block, size: nat) {
    !b.taken && b.size >= size
  }

  function FirstFit(bs: seq<Block>, size: nat): (i: nat)
    ensures i <= |bs|
    ensures i < |bs| ==> Fits(bs[i], size)
    ensures forall j :: 0 <= j < i ==> !Fits(bs[j], size)
  {
    if bs == [] || Fits(bs[0], size) then 0 else 1 + FirstFit(bs[1..], size)
  }

  /** i is the first of the smallest blocks that fit, or |bs| when none does. */
  ghost predicate IsBestFit(bs: seq<Block>, size: nat, i: nat) {
    && i <= |bs|
    && (i < |bs| ==> Fits(bs[i], size))
    && (forall j :: 0 <= j < |bs| && Fits(bs[j], size) ==>
          i < |bs| && bs[i].size <= bs[j].size && (j < i ==> bs[i].size < bs[j].size))
  }

  function BestFit(bs: seq<Block>, size: nat): (i: nat)
    ensures IsBestFit(bs, size, i)
  {
    if bs == [] then 0
    else
      var n := |bs| - 1;
      var i := BestFit(bs[..n], size);
      if Fits(bs[n], size) && (i == n || bs[n].size < bs[i].size) then n
      else if i == n then n + 1
      else i
  }

  lemma BestFitUnique(bs: seq<Block>, size: nat, i: nat)
    requires IsBestFit(bs, size, i)
    ensures i == BestFit(bs, size)
  {
  }

  function Choice(bs: seq<Block>, size: nat, bestFit: bool): (i: nat)
    ensures i <= |bs|
    ensures i < |bs| ==> Fits(bs[i], size)
    ensures i == |bs| ==> forall j :: 0 <= j < |bs| ==> !Fits(bs[j], size)
  {
    if bestFit then BestFit(bs, size) else FirstFit(bs, size)
  }

  function Carved(b: Block, size: nat): (r: seq<Block>)
    requires 0 < size <= b.size
    ensures 1 <= |r| <= 2
  {
    if b.size > size + 16 then [Block(b.addr, size, true), Block(b.addr + size, b.size - size, false)]
    else [b.(taken := true)]
  }

  function Malloc(h: Heap, size: nat, bestFit: bool): (Heap, Reply) {
    if size == 0 then (h, Granted(0))
    else
      var i := Choice(h.blocks, size, bestFit);
      if i == |h.blocks| then (h, OutOfMemory)
      else
        var b := h.blocks[i];
        var pieces := Carved(b, size);
        (h.(blocks := h.blocks[..i] + pieces + h.blocks[i + 1..], bytes := h.bytes + pieces[0].size, count := h.count + 1),
         Granted(b.addr))
  }

  // ---- Free ----

  function AtAddress(bs: seq<Block>, addr: nat): (i: nat)
    ensures i <= |bs|
    ensures i < |bs| ==> bs[i].addr == addr
    ensures forall j :: 0 <= j < i ==> bs[j].addr != addr
  {
    if bs == [] || bs[0].addr == addr then 0 else 1 + AtAddress(bs[1..], addr)
  }

  /** First block of the stretch that freeing block i merges. */
  function Low(bs: seq<Block>, i: nat): (lo: nat)
    requires i < |bs|
    ensures lo <= i
  {
    if i > 0 && !bs[i - 1].taken then i - 1 else i
  }

  /** One past the last block of that stretch. */
  function High(bs: seq<Block>, i: nat): (hi: nat)
    requires i < |bs|
    ensures i < hi <= |bs|
  {
    if i + 1 < |bs| && !bs[i + 1].taken then i + 2 else i + 1
  }

  /** Block i, freed, absorbs a free successor and is then absorbed by a free predecessor. */
  function Merged(bs: seq<Block>, i: nat): seq<Block>
    requires i < |bs|
  {
    var lo, hi := Low(bs, i), High(bs, i);
    var grown := bs[i].size + if hi == i + 2 then bs[i + 1].size else 0;
    bs[..lo] + [Block(bs[lo].addr, if lo < i then bs[lo].size + grown else grown, false)] + bs[hi..]
  }

  function Free(h: Heap, addr: nat): (Heap, FreeReply)
    requires h.bytes >= TakenBytes(h.blocks)
  {
    var i := AtAddress(h.blocks, addr);
    if i == |h.blocks| then (h, NotFound)
    else if !h.blocks[i].taken then (h, DoubleFree)
    else
      SizeCounts(h.blocks, i);
      (h.(blocks := Merged(h.blocks, i), bytes := h.bytes - h.blocks[i].size), Released)
  }

  lemma SizeCounts(bs: seq<Block>, i: nat)
    requires i < |bs| && bs[i].taken
    ensures TakenBytes(bs) == TakenBytes(bs[..i]) + bs[i].size + TakenBytes(bs[i + 1..])
  {
    assert bs == bs[..i] + ([bs[i]] + bs[i + 1..]);
    TakenBytesSplit(bs[..i], [bs[i]] + bs[i + 1..]);
  }
}
