/** pkg/memory/page_replacement.go: the memory manager object. */
module MemoryManagers {
  import opened Collections
  import opened Paging
  import opened Tlb
  import opened PageReplacement
  import T = Translation

  class MemoryManager {
    const numFrames: nat
    const frames: array<Frame>
    const policy: Policy
    const tlb: TLB
    var clockHand: nat
    var currentTick: int
    var pageFaults: nat
    var pageEvictions: nat
    var swapWrites: nat
    var swapReads: nat

    ghost predicate Valid()
      reads this, tlb, tlb.entries
    {
      numFrames == frames.Length && clockHand < numFrames && tlb.Valid()
    }

    ghost function View(): (m: Memory)
      reads this, frames
    {
      Memory(frames[..], clockHand, currentTick, policy, pageFaults, pageEvictions, swapWrites, swapReads)
    }

    constructor (numFrames: int, policy: Policy, tlbCapacity: int)
      ensures Valid() && fresh(frames) && fresh(tlb) && fresh(tlb.entries)
      ensures View() == Booted(numFrames, policy) && tlb.View() == Empty(tlbCapacity)
    {
      var n := if numFrames <= 0 then 4 else numFrames;
      this.numFrames := n;
      this.policy := policy;
      frames := new Frame[n](i requires 0 <= i => Frame(i, 0, 0, false, 0, 0, false, false));
      tlb := new TLB(tlbCapacity);
      clockHand, currentTick, pageFaults, pageEvictions, swapWrites, swapReads := 0, 0, 0, 0, 0, 0;
    }

    /** The clock loop ends: each frame it passes over loses its use bit. */
    method SweepClock() returns (victim: nat)
      requires Valid()
      modifies this`clockHand, frames
      ensures Valid() && (frames[..], victim) == Sweep(old(frames[..]), old(clockHand))
      ensures clockHand == After(victim, numFrames)
    {
      while frames[clockHand].useBit
        invariant Valid() && Sweep(frames[..], clockHand) == Sweep(old(frames[..]), old(clockHand))
        decreases UseBits(frames[..])
      {
        ghost var before := frames[..];
        ClearingShrinks(before, clockHand);
        frames[clockHand] := frames[clockHand].(useBit := false);
        assert frames[..] == before[clockHand := before[clockHand].(useBit := false)];
        clockHand := (clockHand + 1) % numFrames;
      }
      victim := clockHand;
      clockHand := (clockHand + 1) % numFrames;
    }

    method OldestBy(lru: bool) returns (victim: nat)
      requires Valid()
      ensures victim == FirstMin(if lru then LastUsed(frames[..]) else Loaded(frames[..]))
    {
      ghost var values := if lru then LastUsed(frames[..]) else Loaded(frames[..]);
      victim := 0;
      var oldest := if lru then frames[0].lastUsedTick else frames[0].loadedTick;
      for i := 1 to numFrames
        invariant IsFirstMin(values[..i], victim) && oldest == values[victim]
      {
        var value := if lru then frames[i].lastUsedTick else frames[i].loadedTick;
        if value < oldest {
          oldest, victim := value, i;
        }
      }
      assert values[..numFrames] == values;
    }

    /** The replacement policy of a full memory. */
    method Select() returns (victim: nat)
      requires Valid()
      modifies this`clockHand, frames
      ensures Valid() && (frames[..], clockHand, victim) == Selected(old(View()))
    {
      match policy {
        case Fifo => victim := OldestBy(false);
        case Lru => victim := OldestBy(true);
        case Clock => victim := SweepClock();
        case OtherPolicy => victim := 0;
      }
    }

    method FindFree() returns (i: nat)
      requires Valid()
      ensures i == FirstFree(frames[..])
    {
      i := 0;
      while i < numFrames && frames[i].occupied
        invariant i <= numFrames && forall j :: 0 <= j < i ==> frames[j].occupied
      {
        i := i + 1;
      }
    }

    method AllocateFrame(pid: int, vpn: nat) returns (pfn: nat)
      requires Valid()
      modifies this, frames
      ensures Valid() && (View(), pfn) == Allocated(old(View()), pid, vpn)
    {
      pfn := FindFree();
      if pfn == numFrames {
        pfn := Select();
        pageEvictions := pageEvictions + 1;
        if frames[pfn].dirty {
          swapWrites := swapWrites + 1;
        }
      }
      frames[pfn] := Frame(pfn, pid, vpn, true, currentTick, currentTick, true, false);
    }

    /** The page-fault branch. */
    method FaultIn(pt: PageTable, vpn: nat)
      requires Valid() && vpn < pt.entries.Length && T.Backed(pt.entries[..], numFrames)
      modifies this, frames, pt.entries
      ensures Valid() && (View(), pt.entries[..]) == T.FaultedIn(old(View()), pt.pid, old(pt.entries[..]), vpn)
    {
      hide Allocated;
      if !pt.entries[vpn].present {
        AllocatedIgnoresCounts(View(), pt.pid, vpn);
        pageFaults := pageFaults + 1;
        swapReads := swapReads + 1;
        var granted := AllocateFrame(pt.pid, vpn);
        pt.entries[vpn] := pt.entries[vpn].(present := true, pfn := granted, accessed := true);
      }
    }

    method Touch(pfn: nat, isWrite: bool)
      requires Valid() && pfn < numFrames
      modifies frames
      ensures Valid() && View() == Touched(old(View()), pfn, isWrite)
    {
      frames[pfn] := frames[pfn].(lastUsedTick := currentTick, useBit := true);
      if isWrite {
        frames[pfn] := frames[pfn].(dirty := true);
      }
    }

    method AccessMemory(pt: PageTable, vaddr: nat, isWrite: bool) returns (r: Outcome)
      requires Valid() && pt.Valid() && T.Backed(pt.entries[..], numFrames)
      requires forall pfn :: T.Cached(tlb.View(), Key(pt.pid, vaddr / pt.pageSize)) == Some(pfn) ==> pfn < numFrames
      modifies this, frames, tlb, tlb.entries, pt.entries
      ensures Valid()
      ensures T.Access(View(), tlb.View(), pt.entries[..], r) ==
              T.Accessed(old(View()), old(tlb.View()), pt.pid, T.Table(pt.pageSize, old(pt.entries[..])), vaddr, isWrite)
    {
      currentTick := currentTick + 1;
      var vpn, offset := vaddr / pt.pageSize, vaddr % pt.pageSize;
      var pfn, hit := tlb.Lookup(Key(pt.pid, vpn));
      if hit {
        Touch(pfn, isWrite);
        return Address((pfn * pt.pageSize + offset) % WORD);
      }
      r := Miss(pt, vaddr, isWrite, old(View()));
    }

    /** After a TLB miss: walk the page table, fault the page in and remember the translation. */
    method Miss(pt: PageTable, vaddr: nat, isWrite: bool, ghost m: Memory) returns (r: Outcome)
      requires Valid() && pt.Valid() && T.Backed(pt.entries[..], numFrames)
      requires m.Valid() && View() == T.Ticked(m)
      modifies this, frames, tlb, tlb.entries, pt.entries
      ensures Valid()
      ensures T.Walk(View(), pt.entries[..], r) ==
              T.Walked(m, pt.pid, T.Table(pt.pageSize, old(pt.entries[..])), vaddr, isWrite)
      ensures tlb.View() == if T.Resolves(old(pt.entries[..]), vaddr / pt.pageSize)
                            then Inserted(old(tlb.View()), Key(pt.pid, vaddr / pt.pageSize),
                                          pt.entries[vaddr / pt.pageSize].pfn, pt.entries[vaddr / pt.pageSize].readWrite)
                            else old(tlb.View())
    {
      var vpn, offset := vaddr / pt.pageSize, vaddr % pt.pageSize;
      if vpn >= pt.entries.Length || !pt.entries[vpn].valid {
        return Failed(InvalidPage);
      }
      FaultIn(pt, vpn);
      tlb.Insert(Key(pt.pid, vpn), pt.entries[vpn].pfn, pt.entries[vpn].readWrite);
      Touch(pt.entries[vpn].pfn, isWrite);
      if isWrite {
        pt.entries[vpn] := pt.entries[vpn].(dirty := true);
      }
      return Address((pt.entries[vpn].pfn * pt.pageSize + offset) % WORD);
    }
  }
}
