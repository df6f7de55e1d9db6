/** pkg/memory/page_replacement.go: eviction never clears a Present bit, and what follows for the
    counters and for who owns a frame. */
module Residency {
  import opened Collections
  import opened Paging
  import opened Tlb
  import opened PageReplacement
  import opened Translation

  predicate SamePage(f: Frame, g: Frame) {
    f.occupied == g.occupied && f.pid == g.pid && f.vpn == g.vpn
  }

  predicate Holds(f: Frame, k: Key) {
    f.occupied && f.pid == k.asid && f.vpn == k.vpn
  }

  /** The frames in use. */
  function Full(m: Memory): set<nat> {
    set i: nat | i < |m.frames| && m.frames[i].occupied
  }

  lemma FullBounded(m: Memory)
    ensures Full(m) <= UpTo(|m.frames|) && |Full(m)| <= |m.frames|
  {
    SubsetSize(Full(m), UpTo(|m.frames|));
  }

  // ---- One access ----

  /** Page vpn of the table is mapped and not in memory. */
  predicate Absent(t: Table, vpn: nat) {
    Resolves(t.entries, vpn) && !t.entries[vpn].present
  }

  /** An access to a page that is in memory, or to no page, moves no page. */
  lemma PresentStays(m: Memory, pid: int, t: Table, vaddr: nat, isWrite: bool)
    requires m.Valid() && t.pageSize > 0 && Backed(t.entries, |m.frames|) && !Absent(t, vaddr / t.pageSize)
    ensures var r := Walked(m, pid, t, vaddr, isWrite);
            && r.mem.faults == m.faults && r.mem.evictions == m.evictions && Full(r.mem) == Full(m)
            && (forall i :: 0 <= i < |m.frames| ==> SamePage(r.mem.frames[i], m.frames[i]))
            && (forall v :: 0 <= v < |t.entries| ==>
                  r.entries[v].present == t.entries[v].present && r.entries[v].pfn == t.entries[v].pfn)
  {
  }

  /** allocateFrame puts the page into one frame, which was free unless all were occupied. */
  lemma AllocatedLoads(m: Memory, pid: int, vpn: nat)
    requires m.Valid()
    ensures var (m', v) := Allocated(m, pid, vpn);
            && m'.faults == m.faults
            && Holds(m'.frames[v], Key(pid, vpn))
            && (forall i :: 0 <= i < |m.frames| && i != v ==> SamePage(m'.frames[i], m.frames[i]))
            && m'.evictions == m.evictions + (if m.frames[v].occupied then 1 else 0)
            && (m.frames[v].occupied ==> forall i :: 0 <= i < |m.frames| ==> m.frames[i].occupied)
  {
    if forall i :: 0 <= i < |m.frames| ==> m.frames[i].occupied {
      EvictsByPolicy(m, pid, vpn);
    } else {
      FreeFrameFirst(m, pid, vpn);
    }
  }

  /** An access to an absent page loads it, and only it, into the frame it is then present in. */
  lemma AbsentLoads(m: Memory, pid: int, t: Table, vaddr: nat, isWrite: bool)
    requires m.Valid() && t.pageSize > 0 && Backed(t.entries, |m.frames|) && Absent(t, vaddr / t.pageSize)
    ensures var r := Walked(m, pid, t, vaddr, isWrite); var vpn := vaddr / t.pageSize; var v := r.entries[vpn].pfn;
            && r.mem.faults == m.faults + 1
            && Holds(r.mem.frames[v], Key(pid, vpn))
            && (forall i :: 0 <= i < |m.frames| && i != v ==> SamePage(r.mem.frames[i], m.frames[i]))
            && r.entries[vpn].present
            && (forall u :: 0 <= u < |t.entries| && u != vpn ==>
                  r.entries[u].present == t.entries[u].present && r.entries[u].pfn == t.entries[u].pfn)
            && r.mem.evictions == m.evictions + (if m.frames[v].occupied then 1 else 0)
            && (m.frames[v].occupied ==> forall i :: 0 <= i < |m.frames| ==> m.frames[i].occupied)
  {
    hide Allocated;
    AllocatedLoads(Ticked(m), pid, vaddr / t.pageSize);
  }

  // ---- The counters ----

  /** The absent pages that a trace asks for, whatever the manager does. */
  function Demanded(ts: Tables, requests: seq<Request>): set<Key>
    requires Known(ts, requests) && forall p :: p in ts ==> ts[p].pageSize > 0
  {
    if requests == [] then {}
    else
      var q := requests[|requests| - 1];
      var before := Demanded(ts, requests[..|requests| - 1]);
      if q.Request? && Absent(ts[q.pid], q.vaddr / ts[q.pid].pageSize)
      then before + {Key(q.pid, q.vaddr / ts[q.pid].pageSize)}
      else before
  }

  /** A page is present if it was at the start or has been demanded since. */
  ghost predicate Filled(ts: Tables, ts': Tables, keys: set<Key>) {
    && ts'.Keys == ts.Keys
    && forall p :: p in ts ==> FilledTable(ts[p], ts'[p], p, keys)
  }

  ghost predicate FilledTable(t: Table, t': Table, p: int, keys: set<Key>) {
    && t'.pageSize == t.pageSize && |t'.entries| == |t.entries|
    && forall v :: 0 <= v < |t.entries| ==>
         && t'.entries[v].valid == t.entries[v].valid
         && (t'.entries[v].present <==> t.entries[v].present || Key(p, v) in keys)
  }

  /** Faults count the pages demanded, and a page goes to a free frame until there is none. */
  ghost predicate Counted(m: Memory, m': Memory, keys: set<Key>) {
    && |m'.frames| == |m.frames|
    && m'.faults == m.faults + |keys|
    && m.evictions <= m'.evictions
    && |keys| + |Full(m)| == |Full(m')| + (m'.evictions - m.evictions)
    && (m.evictions < m'.evictions ==> Full(m') == UpTo(|m.frames|))
  }

  lemma StepFilled(ts: Tables, w: WalkSystem, keys: set<Key>, q: Request)
    requires Sound(w.mem, w.tables) && Filled(ts, w.tables, keys) && q.Request? && q.pid in ts
    requires ts[q.pid].pageSize > 0
    ensures var vpn := q.vaddr / ts[q.pid].pageSize;
            Filled(ts, WalkStepped(w, q).tables,
                   if Absent(ts[q.pid], vpn) then keys + {Key(q.pid, vpn)} else keys)
  {
    hide Walked, Full;
    var p, t, vpn := q.pid, w.tables[q.pid], q.vaddr / ts[q.pid].pageSize;
    assert FilledTable(ts[p], t, p, keys);
    if Absent(t, vpn) {
      AbsentLoads(w.mem, p, t, q.vaddr, q.isWrite);
    } else {
      PresentStays(w.mem, p, t, q.vaddr, q.isWrite);
    }
    forall o | o in ts
      ensures FilledTable(ts[o], WalkStepped(w, q).tables[o], o,
                          if Absent(ts[p], vpn) then keys + {Key(p, vpn)} else keys)
    {
      assert FilledTable(ts[o], w.tables[o], o, keys);
    }
  }

  lemma FullGrows(m: Memory, m': Memory, v: nat)
    requires |m'.frames| == |m.frames| && v < |m.frames| && m'.frames[v].occupied
    requires forall i :: 0 <= i < |m.frames| && i != v ==> SamePage(m'.frames[i], m.frames[i])
    ensures Full(m') == Full(m) + {v}
    ensures (forall i :: 0 <= i < |m.frames| ==> m.frames[i].occupied) ==> Full(m) == UpTo(|m.frames|)
  {
  }

  lemma LoadCounted(m: Memory, a: Memory, b: Memory, v: nat, keys: set<Key>, k: Key)
    requires Counted(m, a, keys) && k !in keys && |b.frames| == |a.frames| && v < |a.frames| && b.frames[v].occupied
    requires forall i :: 0 <= i < |a.frames| && i != v ==> SamePage(b.frames[i], a.frames[i])
    requires b.faults == a.faults + 1 && b.evictions == a.evictions + (if a.frames[v].occupied then 1 else 0)
    requires a.frames[v].occupied ==> forall i :: 0 <= i < |a.frames| ==> a.frames[i].occupied
    ensures Counted(m, b, keys + {k})
  {
    FullGrows(a, b, v);
    assert |keys + {k}| == |keys| + 1;
    if a.frames[v].occupied {
      assert Full(b) == Full(a);
    } else {
      assert v !in Full(a);
      assert |Full(b)| == |Full(a)| + 1;
    }
  }

  lemma StepCounted(m: Memory, ts: Tables, w: WalkSystem, keys: set<Key>, q: Request)
    requires Sound(w.mem, w.tables) && Filled(ts, w.tables, keys) && q.Request? && q.pid in ts
    requires ts[q.pid].pageSize > 0 && Counted(m, w.mem, keys)
    ensures var vpn := q.vaddr / ts[q.pid].pageSize;
            Counted(m, WalkStepped(w, q).mem, if Absent(ts[q.pid], vpn) then keys + {Key(q.pid, vpn)} else keys)
  {
    hide Walked;
    var p, t, vpn := q.pid, w.tables[q.pid], q.vaddr / ts[q.pid].pageSize;
    assert FilledTable(ts[p], t, p, keys);
    var s := WalkStepped(w, q);
    if Absent(t, vpn) {
      AbsentLoads(w.mem, p, t, q.vaddr, q.isWrite);
      LoadCounted(m, w.mem, s.mem, s.tables[p].entries[vpn].pfn, keys, Key(p, vpn));
    } else {
      PresentStays(w.mem, p, t, q.vaddr, q.isWrite);
      assert Absent(ts[p], vpn) ==> keys + {Key(p, vpn)} == keys;
    }
  }

  lemma {:induction false} RunCounted(w: WalkSystem, requests: seq<Request>)
    requires Sound(w.mem, w.tables) && Known(w.tables, requests)
    ensures var r, keys := WalkRun(w, requests), Demanded(w.tables, requests);
            && Filled(w.tables, r.tables, keys) && Counted(w.mem, r.mem, keys)
            && forall k :: k in keys ==> k.asid in w.tables && Absent(w.tables[k.asid], k.vpn)
  {
    if requests != [] {
      var n := |requests| - 1;
      RunCounted(w, requests[..n]);
      if requests[n].Request? {
        var keys := Demanded(w.tables, requests[..n]);
        StepFilled(w.tables, WalkRun(w, requests[..n]), keys, requests[n]);
        StepCounted(w.mem, w.tables, WalkRun(w, requests[..n]), keys, requests[n]);
      }
    }
  }

  /** Whatever the policy and the TLB: every mapped page that was absent faults on its first access
      and never again, and pages are evicted exactly when there are more of them than free frames. */
  lemma FaultsAreDemand(mem: Memory, capacity: int, ts: Tables, requests: seq<Request>)
    requires Sound(mem, ts) && Known(ts, requests)
    ensures var r, n := Run(Start(mem, capacity, ts), requests).mem, |Demanded(ts, requests)|;
            var free := |mem.frames| - |Full(mem)|;
            && r.faults == mem.faults + n
            && r.evictions == mem.evictions + (if n <= free then 0 else n - free)
  {
    var w := WalkSystem(mem, ts, []);
    Transparent(mem, capacity, ts, requests);
    RunCounted(w, requests);
    FullBounded(mem);
    FullBounded(WalkRun(w, requests).mem);
  }

  /** So no policy faults or evicts more often than another. */
  lemma PoliciesFaultAlike(mem: Memory, policy: Policy, capacity: int, ts: Tables, requests: seq<Request>)
    requires Sound(mem, ts) && Known(ts, requests)
    ensures var a := Run(Start(mem, capacity, ts), requests).mem;
            var b := Run(Start(mem.(policy := policy), capacity, ts), requests).mem;
            a.faults == b.faults && a.evictions == b.evictions
  {
    FaultsAreDemand(mem, capacity, ts, requests);
    FaultsAreDemand(mem.(policy := policy), capacity, ts, requests);
    assert Full(mem.(policy := policy)) == Full(mem);
  }

  // ---- Who owns a frame ----

  ghost predicate Resident(ts: Tables, k: Key) {
    k.asid in ts && k.vpn < |ts[k.asid].entries| && ts[k.asid].entries[k.vpn].present
  }

  function FrameOf(ts: Tables, k: Key): nat
    requires Resident(ts, k)
  {
    ts[k.asid].entries[k.vpn].pfn
  }

  /** Every page that is present is the one its frame holds. */
  ghost predicate SingleOwner(m: Memory, ts: Tables) {
    forall k :: Resident(ts, k) ==> FrameOf(ts, k) < |m.frames| && Holds(m.frames[FrameOf(ts, k)], k)
  }

  /** The page a frame holds is present in that frame. */
  ghost predicate Honest(m: Memory, ts: Tables) {
    forall i, k :: 0 <= i < |m.frames| && Holds(m.frames[i], k) ==> Resident(ts, k) && FrameOf(ts, k) == i
  }

  /** A page that is present although its frame holds another. */
  ghost predicate Lost(m: Memory, ts: Tables, k: Key) {
    Resident(ts, k) && FrameOf(ts, k) < |m.frames| && !Holds(m.frames[FrameOf(ts, k)], k)
  }

  /** No step makes a page absent or moves it to another frame. */
  lemma StaysResident(w: WalkSystem, q: Request, k: Key)
    requires Sound(w.mem, w.tables) && (q.Request? ==> q.pid in w.tables) && Resident(w.tables, k)
    ensures Resident(WalkStepped(w, q).tables, k) && FrameOf(WalkStepped(w, q).tables, k) == FrameOf(w.tables, k)
  {
  }

  /** The page a step loads, if any. */
  ghost predicate Loads(w: WalkSystem, q: Request, k: Key)
    requires Sound(w.mem, w.tables) && (q.Request? ==> q.pid in w.tables)
  {
    && q.Request? && k == Key(q.pid, q.vaddr / w.tables[q.pid].pageSize)
    && Absent(w.tables[q.pid], k.vpn)
  }

  /** What a step does to frames: it loads one page into the frame it is then present in, counting
      an eviction if that was occupied, or it leaves every frame its page. */
  lemma StepMoves(w: WalkSystem, q: Request, k: Key)
    requires Sound(w.mem, w.tables) && (q.Request? ==> q.pid in w.tables)
    ensures var s := WalkStepped(w, q);
            if Loads(w, q, k) then
              && !Resident(w.tables, k) && Resident(s.tables, k) && FrameOf(s.tables, k) < |w.mem.frames| == |s.mem.frames|
              && Holds(s.mem.frames[FrameOf(s.tables, k)], k)
              && s.mem.evictions == w.mem.evictions + (if w.mem.frames[FrameOf(s.tables, k)].occupied then 1 else 0)
              && forall i :: 0 <= i < |w.mem.frames| && i != FrameOf(s.tables, k) ==>
                   SamePage(s.mem.frames[i], w.mem.frames[i])
            else
              Resident(s.tables, k) ==> Resident(w.tables, k)
  {
    hide Walked;
    if q.Request? {
      var t := w.tables[q.pid];
      if Absent(t, q.vaddr / t.pageSize) {
        AbsentLoads(w.mem, q.pid, t, q.vaddr, q.isWrite);
      } else {
        PresentStays(w.mem, q.pid, t, q.vaddr, q.isWrite);
      }
    }
  }

  lemma StepStill(w: WalkSystem, q: Request)
    requires Sound(w.mem, w.tables) && (q.Request? ==> q.pid in w.tables)
    requires forall k :: !Loads(w, q, k)
    ensures var s := WalkStepped(w, q);
            && s.mem.evictions == w.mem.evictions && |s.mem.frames| == |w.mem.frames|
            && forall i :: 0 <= i < |w.mem.frames| ==> SamePage(s.mem.frames[i], w.mem.frames[i])
  {
    hide Walked;
    if q.Request? {
      var t := w.tables[q.pid];
      assert !Loads(w, q, Key(q.pid, q.vaddr / t.pageSize));
      PresentStays(w.mem, q.pid, t, q.vaddr, q.isWrite);
    }
  }

  ghost predicate Owned(w: WalkSystem, evictions: nat) {
    && Honest(w.mem, w.tables) && evictions <= w.mem.evictions
    && (w.mem.evictions == evictions ==> SingleOwner(w.mem, w.tables))
    && (w.mem.evictions > evictions ==> exists k :: Lost(w.mem, w.tables, k))
  }

  /** Loading a page into a frame that was free takes it from nobody; into an occupied one, it
      leaves the former page present in a frame that is no longer its own. */
  lemma LoadOwned(w: WalkSystem, q: Request, k: Key, evictions: nat)
    requires Sound(w.mem, w.tables) && (q.Request? ==> q.pid in w.tables) && Owned(w, evictions) && Loads(w, q, k)
    ensures Owned(WalkStepped(w, q), evictions)
  {
    hide WalkStepped;
    var s := WalkStepped(w, q);
    StepMoves(w, q, k);
    var v := FrameOf(s.tables, k);
    forall i, o | 0 <= i < |s.mem.frames| && Holds(s.mem.frames[i], o)
      ensures Resident(s.tables, o) && FrameOf(s.tables, o) == i
    {
      if i != v {
        assert Holds(w.mem.frames[i], o);
        StaysResident(w, q, o);
      }
    }
    if s.mem.evictions == evictions {
      forall o | Resident(s.tables, o)
        ensures FrameOf(s.tables, o) < |s.mem.frames| && Holds(s.mem.frames[FrameOf(s.tables, o)], o)
      {
        if o != k {
          StepMoves(w, q, o);
          StaysResident(w, q, o);
        }
      }
    } else {
      var o := Key(w.mem.frames[v].pid, w.mem.frames[v].vpn);
      if w.mem.evictions == evictions {
        assert Holds(w.mem.frames[v], o);
      } else {
        o :| Lost(w.mem, w.tables, o);
      }
      StaysResident(w, q, o);
      assert Lost(s.mem, s.tables, o);
    }
  }

  lemma StillOwned(w: WalkSystem, q: Request, evictions: nat)
    requires Sound(w.mem, w.tables) && (q.Request? ==> q.pid in w.tables) && Owned(w, evictions)
    requires forall k :: !Loads(w, q, k)
    ensures Owned(WalkStepped(w, q), evictions)
  {
    hide WalkStepped;
    var s := WalkStepped(w, q);
    StepStill(w, q);
    forall i, o | 0 <= i < |s.mem.frames| && Holds(s.mem.frames[i], o)
      ensures Resident(s.tables, o) && FrameOf(s.tables, o) == i
    {
      assert Holds(w.mem.frames[i], o);
      StaysResident(w, q, o);
    }
    if s.mem.evictions == evictions {
      forall o | Resident(s.tables, o)
        ensures FrameOf(s.tables, o) < |s.mem.frames| && Holds(s.mem.frames[FrameOf(s.tables, o)], o)
      {
        StepMoves(w, q, o);
        StaysResident(w, q, o);
      }
    } else {
      var o :| Lost(w.mem, w.tables, o);
      StaysResident(w, q, o);
      assert Lost(s.mem, s.tables, o);
    }
  }

  lemma {:induction false} RunOwned(w: WalkSystem, requests: seq<Request>)
    requires Sound(w.mem, w.tables) && Known(w.tables, requests)
    requires Honest(w.mem, w.tables) && SingleOwner(w.mem, w.tables)
    ensures Owned(WalkRun(w, requests), w.mem.evictions)
  {
    if requests != [] {
      var n := |requests| - 1;
      RunOwned(w, requests[..n]);
      var before := WalkRun(w, requests[..n]);
      if k :| Loads(before, requests[n], k) {
        LoadOwned(before, requests[n], k, w.mem.evictions);
      } else {
        StillOwned(before, requests[n], w.mem.evictions);
      }
    }
  }

  /** That every present page is the one its frame holds is kept exactly by the traces that demand no
      more absent pages than there are free frames: eviction leaves the victim's Present bit set. */
  lemma SingleOwnerIff(mem: Memory, capacity: int, ts: Tables, requests: seq<Request>)
    requires Sound(mem, ts) && Known(ts, requests) && Honest(mem, ts) && SingleOwner(mem, ts)
    ensures var r := Run(Start(mem, capacity, ts), requests);
            SingleOwner(r.mem, r.tables) <==> |Demanded(ts, requests)| <= |mem.frames| - |Full(mem)|
  {
    var w := WalkSystem(mem, ts, []);
    RunOwned(w, requests);
    RunCounted(w, requests);
    FullBounded(mem);
    FullBounded(WalkRun(w, requests).mem);
    Transparent(mem, capacity, ts, requests);
    TwinsOwn(WalkRun(w, requests).mem, Run(Start(mem, capacity, ts), requests).tables, WalkRun(w, requests).tables);
  }

  lemma TwinsOwn(m: Memory, ts: Tables, ts': Tables)
    requires Twins(ts, ts')
    ensures SingleOwner(m, ts) <==> SingleOwner(m, ts')
  {
    forall k
      ensures Resident(ts, k) <==> Resident(ts', k)
      ensures Resident(ts, k) && Resident(ts', k) ==> FrameOf(ts, k) == FrameOf(ts', k)
    {
      if k.asid in ts && k.vpn < |ts[k.asid].entries| {
        assert SameButDirty(ts[k.asid].entries, ts'[k.asid].entries);
        assert ts[k.asid].entries[k.vpn].(dirty := false) == ts'[k.asid].entries[k.vpn].(dirty := false);
      }
    }
  }

  /** Two pages and one frame: after reading both, both are present in it. */
  lemma TwoPagesOneFrame(policy: Policy, capacity: int, page: Pte)
    requires page.valid && !page.present
    ensures var ts := map[1 := Table(4096, [page, page])];
            var r := Run(Start(Booted(1, policy), capacity, ts), [Request(1, 0, false), Request(1, 4096, false)]);
            !SingleOwner(r.mem, r.tables)
  {
    hide Translation.Run, Stepped;
    var ts := map[1 := Table(4096, [page, page])];
    var first, both := [Request(1, 0, false)], [Request(1, 0, false), Request(1, 4096, false)];
    assert both[..1] == first && first[..0] == [];
    assert Demanded(ts, both[..1]) == {Key(1, 0)};
    assert Demanded(ts, both) == {Key(1, 0), Key(1, 1)};
    assert Full(Booted(1, policy)) == {};
    SingleOwnerIff(Booted(1, policy), capacity, ts, both);
  }
}
