/** pkg/memory/multilevel_pt.go: a two-level page table that behaves like one linear table. */
module TwoLevel {
  import opened Paging

  const PAGE: nat := 4096
  const FANOUT: nat := 1024
  const PAGES: nat := 0x10_0000          // FANOUT * FANOUT
  const SPACE: nat := 0x1_0000_0000      // 32-bit addresses

  /** (vaddr >> 22) & 0x3FF */
  function DirectoryIndex(vaddr: nat): (i: nat)
    ensures i < FANOUT
  {
    vaddr / 0x40_0000 % 0x400
  }

  /** (vaddr >> 12) & 0x3FF */
  function TableIndex(vaddr: nat): (i: nat)
    ensures i < FANOUT
  {
    vaddr / 0x1000 % 0x400
  }

  /** The two indices together are the page number of the low 32 bits. */
  lemma IndicesArePageNumber(vaddr: nat)
    ensures DirectoryIndex(vaddr) * FANOUT + TableIndex(vaddr) == vaddr % SPACE / PAGE
    ensures vaddr % PAGE == vaddr % SPACE % PAGE
  {
    var p, o := vaddr / 4096, vaddr % 4096;
    var q, t := p / 1024, p % 1024;
    var h, d := q / 1024, q % 1024;
    Quotient(vaddr, 0x40_0000, q, 4096 * t + o);
    var low := 0x40_0000 * d + 4096 * t + o;
    Quotient(vaddr, SPACE, h, low);
    Quotient(low, 4096, 1024 * d + t, o);
  }

  lemma Quotient(x: nat, d: nat, q: nat, r: nat)
    requires x == d * q + r && r < d
    requires d == 4096 || d == 0x40_0000 || d == SPACE
    ensures x / d == q && x % d == r
  {
  }

  class MultiLevelPageTable {
    const pid: int
    const directory: array<PageTable?>
    var allocatedPTs: nat
    ghost var regions: set<nat>       // 4 MB regions that have been mapped

    /** The second-level tables are private, apart from each other, and there for exactly the
        regions that have been mapped. */
    ghost predicate Valid()
      reads this, directory
    {
      && directory.Length == FANOUT
      && (forall i :: 0 <= i < FANOUT ==> (directory[i] != null <==> i in regions))
      && (forall i :: i in regions ==> 0 <= i < FANOUT)
      && (forall i :: 0 <= i < FANOUT && directory[i] != null ==> directory[i].entries.Length == FANOUT)
      && (forall i, j :: 0 <= i < j < FANOUT && directory[i] != null && directory[j] != null ==>
            directory[i].entries != directory[j].entries)
      && allocatedPTs == |regions|
    }

    ghost function Tables(): set<object>
      reads this, directory
    {
      set i | 0 <= i < directory.Length && directory[i] != null :: directory[i].entries
    }

    /** Page v of the linear table this table stands for. */
    ghost function Page(v: nat): Pte
      requires Valid() && v < PAGES
      reads this, directory, Tables()
    {
      var t := directory[v / FANOUT];
      if t == null then EMPTY
      else
        assert t.entries in Tables();
        t.entries[v % FANOUT]
    }

    ghost function Flat(): (es: seq<Pte>)
      requires Valid()
      reads this, directory, Tables()
      ensures |es| == PAGES
    {
      seq(PAGES, v requires 0 <= v < PAGES && Valid() reads this, directory, Tables() => Page(v))
    }

    constructor (pid: int)
      ensures Valid() && fresh(directory) && regions == {} && Tables() == {}
      ensures Flat() == seq(PAGES, _ => EMPTY)
    {
      this.pid := pid;
      directory := new PageTable?[FANOUT](_ => null);
      allocatedPTs := 0;
      regions := {};
    }

    /** Exactly one linear page, if any, lives at slot k of table i. */
    lemma FlatAt(v: nat)
      requires Valid() && v < PAGES
      ensures Flat()[v] == Page(v)
      ensures v / FANOUT < FANOUT && v % FANOUT < FANOUT
    {
    }

    /** Allocates the second-level table of region d on demand. */
    method Prepare(d: nat)
      requires Valid() && d < FANOUT
      modifies this, directory
      ensures Valid() && Tables() >= old(Tables()) && fresh(Tables() - old(Tables()))
      ensures Flat() == old(Flat())
      ensures regions == old(regions) + {d}
    {
      if directory[d] == null {
        var table := new PageTable(pid, FANOUT, PAGE);
        Install(d, table);
      }
    }

    /** An all-empty table does not change what the linear view holds. */
    method Install(d: nat, table: PageTable)
      requires Valid() && d < FANOUT && directory[d] == null
      requires table.entries.Length == FANOUT && table.entries !in Tables()
      requires forall k :: 0 <= k < FANOUT ==> table.entries[k] == EMPTY
      modifies this, directory
      ensures Valid() && old(Tables()) <= Tables() <= old(Tables()) + {table.entries}
      ensures Flat() == old(Flat())
      ensures regions == old(regions) + {d}
    {
      forall i | 0 <= i < FANOUT && directory[i] != null
        ensures directory[i].entries != table.entries
      {
        assert directory[i].entries in Tables();
      }
      directory[d] := table;
      allocatedPTs := allocatedPTs + 1;
      regions := regions + {d};
      assert forall i :: 0 <= i < FANOUT && i != d ==> directory[i] == old(directory[i]);
      assert Valid();
      SameTables(d);
      SameView(d);
    }

    twostate lemma SameTables(d: nat)
      requires old(Valid()) && Valid() && d < FANOUT
      requires forall i :: 0 <= i < FANOUT && i != d ==> directory[i] == old(directory[i])
      requires old(directory[d]) == null && directory[d] != null
      ensures old(Tables()) <= Tables() <= old(Tables()) + {directory[d].entries}
    {
    }

    twostate lemma SameView(d: nat)
      requires old(Valid()) && Valid() && d < FANOUT
      requires forall i :: 0 <= i < FANOUT && i != d ==> directory[i] == old(directory[i])
      requires unchanged(old(Tables()))
      requires old(directory[d]) == null && directory[d] != null
      requires forall k :: 0 <= k < FANOUT ==> directory[d].entries[k] == EMPTY
      ensures Flat() == old(Flat())
    {
      forall v | 0 <= v < PAGES
        ensures Page(v) == old(Page(v))
      {
        if v / FANOUT == d {
          assert directory[d].entries[v % FANOUT] == EMPTY;
        }
      }
    }

    method Map(vaddr: nat, pfn: nat, writable: bool)
      requires Valid()
      modifies this, directory, Tables()
      ensures Valid() && fresh(Tables() - old(Tables()))
      ensures Flat() == Mapped(old(Flat()), vaddr % SPACE / PAGE, pfn, writable)
      ensures regions == old(regions) + {DirectoryIndex(vaddr)}
    {
      var d, t := DirectoryIndex(vaddr), TableIndex(vaddr);
      IndicesArePageNumber(vaddr);
      Prepare(d);
      Fill(d, t, pfn, writable);
    }

    method Fill(d: nat, t: nat, pfn: nat, writable: bool)
      requires Valid() && d in regions && t < FANOUT
      modifies Tables()
      ensures Valid() && Tables() == old(Tables())
      ensures Flat() == Mapped(old(Flat()), d * FANOUT + t, pfn, writable)
    {
      assert directory[d].entries in Tables();
      directory[d].MapPage(t, pfn, writable);
      forall v | 0 <= v < PAGES
        ensures Page(v) == if v == d * FANOUT + t then Fresh(pfn, writable) else old(Page(v))
      {
        assert directory[d].entries[t] == directory[d].entries[..][t];
        if v / FANOUT == d {
          assert directory[d].entries[v % FANOUT] == directory[d].entries[..][v % FANOUT];
        }
      }
    }

    method Translate(vaddr: nat, isWrite: bool) returns (r: Outcome)
      requires Valid()
      modifies Tables()
      ensures Valid() && Tables() == old(Tables()) && regions == old(regions)
      ensures r == Translated(old(Flat()), PAGE, vaddr % SPACE, isWrite)
      ensures Flat() == Marked(old(Flat()), PAGE, vaddr % SPACE, isWrite)
    {
      var d, t, offset := DirectoryIndex(vaddr), TableIndex(vaddr), vaddr % PAGE;
      IndicesArePageNumber(vaddr);
      ghost var flat, v := Flat(), d * FANOUT + t;
      FlatAt(v);
      if directory[d] == null {
        assert flat[v] == EMPTY;
        assert Marked(flat, PAGE, vaddr % SPACE, isWrite) == flat;
        return Failed(InvalidPage);
      }
      var table := directory[d].entries;
      assert table in Tables() && flat[v] == table[t];
      if !table[t].valid {
        assert Marked(flat, PAGE, vaddr % SPACE, isWrite) == flat;
        return Failed(InvalidPage);
      }
      if !table[t].present {
        assert Marked(flat, PAGE, vaddr % SPACE, isWrite) == flat;
        return Failed(PageFault);
      }
      if isWrite && !table[t].readWrite {
        assert Marked(flat, PAGE, vaddr % SPACE, isWrite) == flat;
        return Failed(ProtectionFault);
      }
      table[t] := table[t].(accessed := true);
      if isWrite {
        table[t] := table[t].(dirty := true);
      }
      assert Flat() == flat[v := Tracked(flat[v], isWrite)];
      return Address((table[t].pfn * PAGE + offset) % WORD);
    }
  }

  datatype Op = MapOp(vaddr: nat, pfn: nat, writable: bool) | TranslateOp(vaddr: nat, isWrite: bool)

  /** One linear table of PAGES pages after a sequence of operations on 32-bit addresses. */
  function LinearTable(ops: seq<Op>): (es: seq<Pte>)
    ensures |es| == PAGES
  {
    if ops == [] then seq(PAGES, _ => EMPTY)
    else
      var es := LinearTable(ops[..|ops| - 1]);
      match ops[|ops| - 1]
      case MapOp(a, pfn, w) => Mapped(es, a % SPACE / PAGE, pfn, w)
      case TranslateOp(a, w) => Marked(es, PAGE, a % SPACE, w)
  }

  /** What that linear table answers to the translations among them. */
  function LinearAnswers(ops: seq<Op>): seq<Outcome> {
    if ops == [] then []
    else
      var front := ops[..|ops| - 1];
      match ops[|ops| - 1]
      case MapOp(_, _, _) => LinearAnswers(front)
      case TranslateOp(a, w) => LinearAnswers(front) + [Translated(LinearTable(front), PAGE, a % SPACE, w)]
  }

  /** The distinct 4 MB regions a sequence of operations maps. */
  ghost function MappedRegions(ops: seq<Op>): set<nat> {
    set k | 0 <= k < |ops| && ops[k].MapOp? :: ops[k].vaddr % SPACE / 0x40_0000
  }

  /** The whole run: the two-level table is indistinguishable from the linear one and has
      allocated one second-level table for each region mapped. */
  method Replay(pid: int, ops: seq<Op>) returns (table: MultiLevelPageTable, answers: seq<Outcome>)
    ensures table.Valid() && table.Flat() == LinearTable(ops)
    ensures answers == LinearAnswers(ops)
    ensures table.allocatedPTs == |MappedRegions(ops)|
  {
    table := new MultiLevelPageTable(pid);
    answers := [];
    for k := 0 to |ops|
      invariant fresh(table) && fresh(table.directory) && table.Valid() && fresh(table.Tables())
      invariant table.Flat() == LinearTable(ops[..k]) && answers == LinearAnswers(ops[..k])
      invariant table.regions == MappedRegions(ops[..k])
    {
      assert ops[..k + 1][..k] == ops[..k];
      RegionsGrow(ops, k);
      match ops[k]
      case MapOp(a, pfn, w) =>
        table.Map(a, pfn, w);
      case TranslateOp(a, w) =>
        var r := table.Translate(a, w);
        answers := answers + [r];
    }
    assert ops[..|ops|] == ops;
  }

  lemma RegionsGrow(ops: seq<Op>, k: nat)
    requires k < |ops|
    ensures MappedRegions(ops[..k + 1]) ==
            MappedRegions(ops[..k]) + if ops[k].MapOp? then {DirectoryIndex(ops[k].vaddr)} else {}
  {
    RegionOf(ops[k].vaddr);
    var a, b := MappedRegions(ops[..k]), MappedRegions(ops[..k + 1]);
    forall x | x in a
      ensures x in b
    {
      var i :| 0 <= i < k && ops[..k][i].MapOp? && x == ops[..k][i].vaddr % SPACE / 0x40_0000;
      assert ops[..k + 1][i] == ops[i];
    }
    assert ops[..k + 1][k] == ops[k];
  }

  lemma RegionOf(vaddr: nat)
    ensures vaddr % SPACE / 0x40_0000 == DirectoryIndex(vaddr)
  {
    var q, low := vaddr / 0x40_0000, vaddr % 0x40_0000;
    var h, d := q / 1024, q % 1024;
    Quotient(vaddr, SPACE, h, 0x40_0000 * d + low);
    Quotient(0x40_0000 * d + low, 0x40_0000, d, low);
  }
}
