/** pkg/memory/tlb.go: the translation lookaside buffer, and why it is exact LRU. */
module Tlb {
  datatype Key = Key(asid: int, vpn: nat)

  datatype TlbEntry = TlbEntry(key: Key, pfn: nat, valid: bool, readWrite: bool, lastAccess: int)

  const BLANK: TlbEntry := TlbEntry(Key(0, 0), 0, false, false, 0)

  datatype Cache = Cache(slots: seq<TlbEntry>, tick: int, hits: nat, misses: nat)

  // ---- The operations as functions of the cache ----

  predicate Matches(e: TlbEntry, k: Key) {
    e.valid && e.key == k
  }

  /** First slot that caches the key, or |slots|. */
  function Find(slots: seq<TlbEntry>, k: Key): (i: nat)
    ensures i <= |slots|
    ensures i < |slots| ==> Matches(slots[i], k)
    ensures forall j :: 0 <= j < i ==> !Matches(slots[j], k)
  {
    if slots == [] || Matches(slots[0], k) then 0 else 1 + Find(slots[1..], k)
  }

  /** First slot that is empty or caches the key, or |slots|. */
  function Stop(slots: seq<TlbEntry>, k: Key): (i: nat)
    ensures i <= |slots|
    ensures i < |slots| ==> !slots[i].valid || slots[i].key == k
    ensures forall j :: 0 <= j < i ==> slots[j].valid && slots[j].key != k
  {
    if slots == [] || !slots[0].valid || slots[0].key == k then 0 else 1 + Stop(slots[1..], k)
  }

  /** The first of the least recently used slots. */
  ghost predicate IsOldest(slots: seq<TlbEntry>, i: nat) {
    && i < |slots|
    && (forall j :: 0 <= j < |slots| ==> slots[i].lastAccess <= slots[j].lastAccess)
    && (forall j :: 0 <= j < i ==> slots[i].lastAccess < slots[j].lastAccess)
  }

  function Oldest(slots: seq<TlbEntry>): (i: nat)
    requires slots != []
    ensures IsOldest(slots, i)
  {
    if |slots| == 1 then 0
    else
      var j := Oldest(slots[1..]);
      if slots[1..][j].lastAccess < slots[0].lastAccess then 1 + j else 0
  }

  function Empty(capacity: int): Cache {
    Cache(seq(if capacity <= 0 then 16 else capacity, _ => BLANK), 0, 0, 0)
  }

  function LookedUp(c: Cache, k: Key): (r: Cache)
    ensures |r.slots| == |c.slots|
  {
    var i := Find(c.slots, k);
    if i < |c.slots| then
      Cache(c.slots[i := c.slots[i].(lastAccess := c.tick + 1)], c.tick + 1, c.hits + 1, c.misses)
    else
      c.(tick := c.tick + 1, misses := c.misses + 1)
  }

  function Inserted(c: Cache, k: Key, pfn: nat, writable: bool): (r: Cache)
    requires c.slots != []
    ensures |r.slots| == |c.slots|
  {
    var stop := Stop(c.slots, k);
    var i := if stop < |c.slots| then stop else Oldest(c.slots);
    c.(slots := c.slots[i := TlbEntry(k, pfn, true, writable, c.tick + 1)], tick := c.tick + 1)
  }

  function Flushed(c: Cache): (r: Cache)
    ensures |r.slots| == |c.slots|
  {
    c.(slots := seq(|c.slots|, i requires 0 <= i < |c.slots| => c.slots[i].(valid := false)))
  }

  // ---- The class ----

  class TLB {
    const capacity: nat
    const entries: array<TlbEntry>
    var hits: nat
    var misses: nat
    var accessTick: int

    ghost predicate Valid()
      reads this, entries
    {
      && capacity == entries.Length > 0
      && forall i :: 0 <= i < entries.Length ==> entries[i].lastAccess <= accessTick
    }

    ghost function View(): Cache
      reads this, entries
    {
      Cache(entries[..], accessTick, hits, misses)
    }

    constructor (capacity: int)
      ensures Valid() && fresh(entries) && View() == Empty(capacity)
    {
      var n := if capacity <= 0 then 16 else capacity;
      this.capacity := n;
      entries := new TlbEntry[n](_ => BLANK);
      hits, misses, accessTick := 0, 0, 0;
    }

    method Lookup(k: Key) returns (pfn: nat, found: bool)
      requires Valid()
      modifies this, entries
      ensures Valid() && View() == LookedUp(old(View()), k)
      ensures found == (Find(old(entries[..]), k) < entries.Length)
      ensures pfn == if found then old(entries[..])[Find(old(entries[..]), k)].pfn else 0
    {
      accessTick := accessTick + 1;
      for i := 0 to entries.Length
        invariant entries[..] == old(entries[..]) && accessTick == old(accessTick) + 1
        invariant hits == old(hits) && misses == old(misses)
        invariant forall j :: 0 <= j < i ==> !Matches(old(entries[..])[j], k)
      {
        if Matches(entries[i], k) {
          assert Find(old(entries[..]), k) == i;
          entries[i] := entries[i].(lastAccess := accessTick);
          hits := hits + 1;
          return entries[i].pfn, true;
        }
      }
      misses := misses + 1;
      return 0, false;
    }

    method Insert(k: Key, pfn: nat, writable: bool)
      requires Valid()
      modifies this, entries
      ensures Valid() && View() == Inserted(old(View()), k, pfn, writable)
    {
      ghost var was := entries[..];
      accessTick := accessTick + 1;
      var lru, oldest := 0, accessTick + 1;
      for i := 0 to entries.Length
        invariant entries[..] == was && accessTick == old(accessTick) + 1
        invariant hits == old(hits) && misses == old(misses)
        invariant forall j :: 0 <= j < i ==> was[j].valid && was[j].key != k
        invariant i == 0 ==> oldest == accessTick + 1
        invariant i > 0 ==> IsOldest(was[..i], lru) && oldest == was[lru].lastAccess
      {
        if !entries[i].valid {
          assert Stop(was, k) == i;
          entries[i] := TlbEntry(k, pfn, true, writable, accessTick);
          return;
        }
        if entries[i].key == k {
          assert Stop(was, k) == i;
          entries[i] := entries[i].(pfn := pfn, readWrite := writable, lastAccess := accessTick);
          return;
        }
        if entries[i].lastAccess < oldest {
          oldest, lru := entries[i].lastAccess, i;
        }
      }
      assert was[..entries.Length] == was;
      entries[lru] := TlbEntry(k, pfn, true, writable, accessTick);
    }

    method Flush()
      requires Valid()
      modifies entries
      ensures Valid() && View() == Flushed(old(View()))
    {
      for i := 0 to entries.Length
        invariant forall j :: 0 <= j < entries.Length ==>
                    entries[j] == if j < i then old(entries[j]).(valid := false) else old(entries[j])
      {
        entries[i] := entries[i].(valid := false);
      }
    }
  }
}
