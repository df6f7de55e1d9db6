/** pkg/memory/paging.go: the linear page table. */
module Paging {
  const WORD: nat := 0x1_0000_0000_0000_0000

  datatype Pte = Pte(
    valid: bool,
    present: bool,
    readWrite: bool,
    user: bool,
    accessed: bool,
    dirty: bool,
    pfn: nat,
    swapOffset: nat
  )

  const EMPTY: Pte := Pte(false, false, false, false, false, false, 0, 0)

  datatype Fault = InvalidPage | PageFault | ProtectionFault

  datatype Outcome = Address(paddr: nat) | Failed(fault: Fault)

  /** The entry MapPage writes. */
  function Fresh(pfn: nat, writable: bool): Pte {
    Pte(true, true, writable, true, false, false, pfn, 0)
  }

  function Mapped(es: seq<Pte>, vpn: nat, pfn: nat, writable: bool): (r: seq<Pte>)
    ensures |r| == |es|
  {
    if vpn < |es| then es[vpn := Fresh(pfn, writable)] else es
  }

  /** What translation through one entry yields. */
  function Through(e: Pte, pageSize: nat, offset: nat, isWrite: bool): Outcome {
    if !e.valid then Failed(InvalidPage)
    else if !e.present then Failed(PageFault)
    else if isWrite && !e.readWrite then Failed(ProtectionFault)
    else Address((e.pfn * pageSize + offset) % WORD)
  }

  /** The tracking bits translation sets, on success only. */
  function Tracked(e: Pte, isWrite: bool): Pte {
    if !e.valid || !e.present || (isWrite && !e.readWrite) then e
    else e.(accessed := true, dirty := e.dirty || isWrite)
  }

  function Translated(es: seq<Pte>, pageSize: nat, vaddr: nat, isWrite: bool): Outcome
    requires pageSize > 0
  {
    var vpn := vaddr / pageSize;
    if vpn >= |es| then Failed(InvalidPage) else Through(es[vpn], pageSize, vaddr % pageSize, isWrite)
  }

  function Marked(es: seq<Pte>, pageSize: nat, vaddr: nat, isWrite: bool): (r: seq<Pte>)
    requires pageSize > 0
    ensures |r| == |es|
  {
    var vpn := vaddr / pageSize;
    if vpn >= |es| then es else es[vpn := Tracked(es[vpn], isWrite)]
  }

  /** After mapping a page: a read of it gets the frame's address, a write gets the same if it was
      mapped writable and a protection fault if not, and every other page answers as before. */
  lemma MappedTranslates(es: seq<Pte>, vpn: nat, pfn: nat, writable: bool, pageSize: nat, vaddr: nat)
    requires pageSize > 0
    ensures var es' := Mapped(es, vpn, pfn, writable);
            if vaddr / pageSize == vpn < |es| then
              var a := Address((pfn * pageSize + vaddr % pageSize) % WORD);
              && Translated(es', pageSize, vaddr, false) == a
              && Translated(es', pageSize, vaddr, true) == (if writable then a else Failed(ProtectionFault))
              && es'[vpn].user && !es'[vpn].accessed && !es'[vpn].dirty && es'[vpn].swapOffset == 0
            else
              forall w :: Translated(es', pageSize, vaddr, w) == Translated(es, pageSize, vaddr, w)
  {
  }

  /** A translation that succeeds leaves the page accessed, and dirty if it was a write or dirty
      before; one that fails leaves the table alone; neither changes what any address translates to. */
  lemma TranslationMarks(es: seq<Pte>, pageSize: nat, vaddr: nat, isWrite: bool, other: nat, w: bool)
    requires pageSize > 0
    ensures var es', vpn := Marked(es, pageSize, vaddr, isWrite), vaddr / pageSize;
            && (Translated(es, pageSize, vaddr, isWrite).Failed? ==> es' == es)
            && (Translated(es, pageSize, vaddr, isWrite).Address? ==>
                  && vpn < |es| && es'[vpn].accessed && (es'[vpn].dirty <==> isWrite || es[vpn].dirty)
                  && forall v :: 0 <= v < |es| && v != vpn ==> es'[v] == es[v])
            && Translated(es', pageSize, other, w) == Translated(es, pageSize, other, w)
  {
    TrackedAnswers(es, vaddr / pageSize, isWrite, other / pageSize, pageSize, other % pageSize, w);
  }

  lemma TrackedAnswers(es: seq<Pte>, vpn: nat, isWrite: bool, page: nat, pageSize: nat, offset: nat, w: bool)
    ensures page < |es| && vpn < |es| ==>
              Through(es[vpn := Tracked(es[vpn], isWrite)][page], pageSize, offset, w) ==
              Through(es[page], pageSize, offset, w)
  {
  }

  class PageTable {
    const pid: int
    const pageSize: nat
    const entries: array<Pte>

    ghost predicate Valid() {
      pageSize > 0
    }

    constructor (pid: int, numPages: nat, pageSize: nat)
      ensures Valid() && fresh(entries) && entries.Length == numPages
      ensures this.pid == pid && this.pageSize == if pageSize == 0 then 4096 else pageSize
      ensures forall i :: 0 <= i < numPages ==> entries[i] == EMPTY
    {
      this.pid := pid;
      this.pageSize := if pageSize == 0 then 4096 else pageSize;
      entries := new Pte[numPages](_ => EMPTY);
    }

    method MapPage(vpn: nat, pfn: nat, writable: bool)
      modifies entries
      ensures entries[..] == Mapped(old(entries[..]), vpn, pfn, writable)
    {
      if vpn < entries.Length {
        entries[vpn] := Pte(true, true, writable, true, false, false, pfn, 0);
      }
    }

    method Translate(vaddr: nat, isWrite: bool) returns (r: Outcome)
      requires Valid()
      modifies entries
      ensures r == Translated(old(entries[..]), pageSize, vaddr, isWrite)
      ensures entries[..] == Marked(old(entries[..]), pageSize, vaddr, isWrite)
    {
      var vpn, offset := vaddr / pageSize, vaddr % pageSize;
      if vpn >= entries.Length || !entries[vpn].valid {
        return Failed(InvalidPage);
      }
      if !entries[vpn].present {
        return Failed(PageFault);
      }
      if isWrite && !entries[vpn].readWrite {
        return Failed(ProtectionFault);
      }
      entries[vpn] := entries[vpn].(accessed := true);
      if isWrite {
        entries[vpn] := entries[vpn].(dirty := true);
      }
      return Address((entries[vpn].pfn * pageSize + offset) % WORD);
    }
  }
}
