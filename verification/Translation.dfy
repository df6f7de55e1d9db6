/** pkg/memory/page_replacement.go: AccessMemory as a cache in front of a page-table walk, and why
    the cache never shows. */
module Translation {
  import opened Collections
  import opened Paging
  import opened Tlb
  import opened PageReplacement
  import L = TlbLru

  datatype Table = Table(pageSize: nat, entries: seq<Pte>)

  datatype Walk = Walk(mem: Memory, entries: seq<Pte>, outcome: Outcome)

  datatype Access = Access(mem: Memory, cache: Cache, entries: seq<Pte>, outcome: Outcome)

  /** Frame numbers of present pages are real frames. */
  ghost predicate Backed(es: seq<Pte>, numFrames: nat) {
    forall v :: 0 <= v < |es| && es[v].present ==> es[v].pfn < numFrames
  }

  predicate Resolves(es: seq<Pte>, vpn: nat) {
    vpn < |es| && es[vpn].valid
  }

  function Ticked(m: Memory): (r: Memory)
    ensures r.frames == m.frames && r.hand == m.hand
  {
    m.(tick := m.tick + 1)
  }

  /** The page table after a fault, if there was one, and the memory with it. */
  function FaultedIn(m: Memory, pid: int, es: seq<Pte>, vpn: nat): (r: (Memory, seq<Pte>))
    requires m.Valid() && vpn < |es| && Backed(es, |m.frames|)
    ensures r.0.Valid() && |r.0.frames| == |m.frames| && |r.1| == |es|
    ensures r.1[vpn].present && Backed(r.1, |m.frames|)
    ensures forall v :: 0 <= v < |es| ==> r.1[v].valid == es[v].valid && r.1[v].readWrite == es[v].readWrite
    ensures forall v :: 0 <= v < |es| && es[v].present ==> r.1[v] == es[v]
  {
    if es[vpn].present then (m, es)
    else
      var (m', pfn) := Allocated(m, pid, vpn);
      (m'.(faults := m'.faults + 1, swapReads := m'.swapReads + 1),
       es[vpn := es[vpn].(present := true, pfn := pfn, accessed := true)])
  }

  /** An access by a manager that always walks the page table. */
  function Walked(m: Memory, pid: int, t: Table, vaddr: nat, isWrite: bool): (r: Walk)
    requires m.Valid() && t.pageSize > 0 && Backed(t.entries, |m.frames|)
    ensures r.mem.Valid() && |r.mem.frames| == |m.frames|
    ensures |r.entries| == |t.entries| && Backed(r.entries, |m.frames|)
    ensures forall v :: 0 <= v < |t.entries| ==>
              r.entries[v].valid == t.entries[v].valid && r.entries[v].readWrite == t.entries[v].readWrite
    ensures forall v :: 0 <= v < |t.entries| && t.entries[v].present ==>
              r.entries[v].present && r.entries[v].pfn == t.entries[v].pfn
  {
    var vpn := vaddr / t.pageSize;
    if !Resolves(t.entries, vpn) then Walk(Ticked(m), t.entries, Failed(InvalidPage))
    else
      var (m', es) := FaultedIn(Ticked(m), pid, t.entries, vpn);
      Walk(PageReplacement.Touched(m', es[vpn].pfn, isWrite),
           es[vpn := es[vpn].(dirty := es[vpn].dirty || isWrite)],
           Address((es[vpn].pfn * t.pageSize + vaddr % t.pageSize) % WORD))
  }

  /** A walk fails exactly on an unmapped page; else it answers the page's frame plus the offset and
      stamps that frame; it counts a fault exactly when the page was absent, and then the frame holds
      the page and the page is present in it. */
  lemma WalkEffect(m: Memory, pid: int, t: Table, vaddr: nat, isWrite: bool)
    requires m.Valid() && t.pageSize > 0 && Backed(t.entries, |m.frames|)
    ensures var r := Walked(m, pid, t, vaddr, isWrite); var vpn := vaddr / t.pageSize;
            && (r.outcome.Failed? <==> !Resolves(t.entries, vpn))
            && (r.outcome.Failed? ==> r == Walk(Ticked(m), t.entries, Failed(InvalidPage)))
            && (Resolves(t.entries, vpn) ==>
                  var e, f := r.entries[vpn], r.mem.frames[r.entries[vpn].pfn];
                  && e.present && r.outcome == Address((e.pfn * t.pageSize + vaddr % t.pageSize) % WORD)
                  && f.lastUsedTick == m.tick + 1 && f.useBit && (isWrite ==> f.dirty && e.dirty)
                  && r.mem.faults == m.faults + (if t.entries[vpn].present then 0 else 1)
                  && r.mem.swapReads == m.swapReads + (if t.entries[vpn].present then 0 else 1)
                  && (t.entries[vpn].present ==>
                        e == t.entries[vpn].(dirty := e.dirty) && r.mem.evictions == m.evictions)
                  && (e.dirty <==> isWrite || t.entries[vpn].dirty)
                  && (!t.entries[vpn].present ==> e.accessed)
                  && (!t.entries[vpn].present ==> f.occupied && f.pid == pid && f.vpn == vpn && f.dirty == isWrite))
  {
  }

  function Cached(c: Cache, k: Key): Option<nat> {
    var i := Find(c.slots, k);
    if i < |c.slots| then Some(c.slots[i].pfn) else None
  }

  /** AccessMemory. */
  function Accessed(m: Memory, c: Cache, pid: int, t: Table, vaddr: nat, isWrite: bool): (r: Access)
    requires m.Valid() && t.pageSize > 0 && Backed(t.entries, |m.frames|) && c.slots != []
    requires forall pfn :: Cached(c, Key(pid, vaddr / t.pageSize)) == Some(pfn) ==> pfn < |m.frames|
    ensures r.cache.slots != []
  {
    var vpn := vaddr / t.pageSize;
    var k := Key(pid, vpn);
    match Cached(c, k)
    case Some(pfn) =>
      Access(PageReplacement.Touched(Ticked(m), pfn, isWrite), LookedUp(c, k), t.entries,
             Address((pfn * t.pageSize + vaddr % t.pageSize) % WORD))
    case None =>
      var w := Walked(m, pid, t, vaddr, isWrite);
      var c' := if Resolves(t.entries, vpn)
                then Inserted(LookedUp(c, k), k, w.entries[vpn].pfn, w.entries[vpn].readWrite)
                else LookedUp(c, k);
      Access(w.mem, c', w.entries, w.outcome)
  }

  // ---- Runs over any number of page tables, one per process ----

  datatype Request = Request(pid: int, vaddr: nat, isWrite: bool) | TlbFlush

  type Tables = map<int, Table>

  datatype System = System(mem: Memory, cache: Cache, tables: Tables, outcomes: seq<Outcome>)

  ghost predicate Sound(m: Memory, ts: Tables) {
    m.Valid() && forall p :: p in ts ==> ts[p].pageSize > 0 && Backed(ts[p].entries, |m.frames|)
  }

  /** Every cached translation is the one the page table holds. */
  ghost predicate Coherent(c: Cache, ts: Tables) {
    forall i :: 0 <= i < |c.slots| && c.slots[i].valid ==> Agrees(c.slots[i], ts)
  }

  ghost predicate Agrees(e: TlbEntry, ts: Tables) {
    && e.key.asid in ts
    && Resolves(ts[e.key.asid].entries, e.key.vpn)
    && ts[e.key.asid].entries[e.key.vpn].present
    && ts[e.key.asid].entries[e.key.vpn].pfn == e.pfn
    && ts[e.key.asid].entries[e.key.vpn].readWrite == e.readWrite
  }

  ghost predicate Known(ts: Tables, requests: seq<Request>) {
    forall n :: 0 <= n < |requests| && requests[n].Request? ==> requests[n].pid in ts
  }

  /** A hit returns the frame number in the page table entry, which is present. */
  lemma CachedIsResident(s: System, p: int, vaddr: nat)
    requires Sound(s.mem, s.tables) && Coherent(s.cache, s.tables) && p in s.tables
    ensures var t := s.tables[p]; var vpn := vaddr / t.pageSize;
            forall pfn :: Cached(s.cache, Key(p, vpn)) == Some(pfn) ==>
              && pfn < |s.mem.frames| && Resolves(t.entries, vpn)
              && t.entries[vpn].present && t.entries[vpn].pfn == pfn
  {
    var i := Find(s.cache.slots, Key(p, vaddr / s.tables[p].pageSize));
    assert i < |s.cache.slots| ==> Agrees(s.cache.slots[i], s.tables);
  }

  lemma AgreesLater(e: TlbEntry, ts: Tables, p: int, es: seq<Pte>)
    requires Agrees(e, ts) && p in ts && |es| == |ts[p].entries|
    requires forall v :: 0 <= v < |es| && ts[p].entries[v].present ==>
               es[v].present && es[v].pfn == ts[p].entries[v].pfn
    requires forall v :: 0 <= v < |es| ==>
               es[v].valid == ts[p].entries[v].valid && es[v].readWrite == ts[p].entries[v].readWrite
    ensures Agrees(e, ts[p := ts[p].(entries := es)])
  {
  }

  lemma AccessKeepsCoherent(s: System, p: int, vaddr: nat, isWrite: bool)
    requires Sound(s.mem, s.tables) && s.cache.slots != [] && Coherent(s.cache, s.tables) && p in s.tables
    requires forall pfn :: Cached(s.cache, Key(p, vaddr / s.tables[p].pageSize)) == Some(pfn) ==>
               pfn < |s.mem.frames|
    ensures var a := Accessed(s.mem, s.cache, p, s.tables[p], vaddr, isWrite);
            Coherent(a.cache, s.tables[p := s.tables[p].(entries := a.entries)])
  {
    hide Accessed;
    var a := Accessed(s.mem, s.cache, p, s.tables[p], vaddr, isWrite);
    forall i | 0 <= i < |a.cache.slots| && a.cache.slots[i].valid
      ensures Agrees(a.cache.slots[i], s.tables[p := s.tables[p].(entries := a.entries)])
    {
      SlotAgrees(s, p, vaddr, isWrite, i);
    }
  }

  lemma SlotAgrees(s: System, p: int, vaddr: nat, isWrite: bool, i: nat)
    requires Sound(s.mem, s.tables) && s.cache.slots != [] && Coherent(s.cache, s.tables) && p in s.tables
    requires forall pfn :: Cached(s.cache, Key(p, vaddr / s.tables[p].pageSize)) == Some(pfn) ==>
               pfn < |s.mem.frames|
    requires var c := Accessed(s.mem, s.cache, p, s.tables[p], vaddr, isWrite).cache;
             i < |c.slots| && c.slots[i].valid
    ensures var a := Accessed(s.mem, s.cache, p, s.tables[p], vaddr, isWrite);
            Agrees(a.cache.slots[i], s.tables[p := s.tables[p].(entries := a.entries)])
  {
    hide Walked, LookedUp, Inserted, PageReplacement.Touched;
    var t := s.tables[p];
    var a := Accessed(s.mem, s.cache, p, t, vaddr, isWrite);
    var k, es := Key(p, vaddr / t.pageSize), a.entries;
    WalkEffect(s.mem, p, t, vaddr, isWrite);
    LookupKeeps(s.cache, k, i);
    var l := LookedUp(s.cache, k);
    if l.slots[i].valid {
      AgreesLater(l.slots[i], s.tables, p, es);
    }
    if a.cache != l {
      InsertKeeps(l, k, es[k.vpn].pfn, es[k.vpn].readWrite, i);
    }
  }

  lemma LookupKeeps(c: Cache, k: Key, i: nat)
    requires i < |c.slots|
    ensures LookedUp(c, k).slots[i] == c.slots[i].(lastAccess := LookedUp(c, k).slots[i].lastAccess)
  {
  }

  lemma InsertKeeps(c: Cache, k: Key, pfn: nat, writable: bool, i: nat)
    requires i < |c.slots|
    ensures var e := Inserted(c, k, pfn, writable).slots[i];
            e == c.slots[i] || (e.valid && e.key == k && e.pfn == pfn && e.readWrite == writable)
  {
  }

  function Stepped(s: System, q: Request): (r: System)
    requires Sound(s.mem, s.tables) && s.cache.slots != [] && Coherent(s.cache, s.tables)
    requires q.Request? ==> q.pid in s.tables
    ensures r.cache.slots != [] && Sound(r.mem, r.tables) && Coherent(r.cache, r.tables)
    ensures r.tables.Keys == s.tables.Keys
  {
    match q
    case Request(p, vaddr, w) =>
      var t := s.tables[p];
      CachedIsResident(s, p, vaddr);
      var a := Accessed(s.mem, s.cache, p, t, vaddr, w);
      AccessKeepsCoherent(s, p, vaddr, w);
      System(a.mem, a.cache, s.tables[p := t.(entries := a.entries)], s.outcomes + [a.outcome])
    case TlbFlush => s.(cache := Flushed(s.cache))
  }

  datatype WalkSystem = WalkSystem(mem: Memory, tables: Tables, outcomes: seq<Outcome>)

  function WalkStepped(s: WalkSystem, q: Request): (r: WalkSystem)
    requires Sound(s.mem, s.tables)
    requires q.Request? ==> q.pid in s.tables
    ensures Sound(r.mem, r.tables) && r.tables.Keys == s.tables.Keys
  {
    match q
    case Request(p, vaddr, w) =>
      var t := s.tables[p];
      var a := Walked(s.mem, p, t, vaddr, w);
      WalkSystem(a.mem, s.tables[p := t.(entries := a.entries)], s.outcomes + [a.outcome])
    case TlbFlush => s
  }

  // ---- Transparency ----

  /** Equal, except that es may miss dirty bits that es' has. */
  ghost predicate SameButDirty(es: seq<Pte>, es': seq<Pte>) {
    && |es| == |es'|
    && forall v :: 0 <= v < |es| ==>
         es[v].(dirty := false) == es'[v].(dirty := false) && (es[v].dirty ==> es'[v].dirty)
  }

  ghost predicate Twins(ts: Tables, ts': Tables) {
    && ts.Keys == ts'.Keys
    && forall p :: p in ts ==> ts[p].pageSize == ts'[p].pageSize && SameButDirty(ts[p].entries, ts'[p].entries)
  }

  /** No step reads a dirty bit of a page table. */
  lemma WalkIgnoresDirty(m: Memory, p: int, t: Table, t': Table, vaddr: nat, isWrite: bool)
    requires m.Valid() && t.pageSize == t'.pageSize > 0 && SameButDirty(t.entries, t'.entries)
    requires Backed(t.entries, |m.frames|) && Backed(t'.entries, |m.frames|)
    ensures var a, b := Walked(m, p, t, vaddr, isWrite), Walked(m, p, t', vaddr, isWrite);
            a.mem == b.mem && a.outcome == b.outcome && SameButDirty(a.entries, b.entries)
  {
    var vpn := vaddr / t.pageSize;
    if vpn < |t.entries| {
      assert t.entries[vpn].(dirty := false) == t'.entries[vpn].(dirty := false);
    }
  }

  /** A cached access does to memory, and answers, what the walk would. */
  lemma HitIsWalk(s: System, p: int, vaddr: nat, isWrite: bool)
    requires Sound(s.mem, s.tables) && s.cache.slots != [] && Coherent(s.cache, s.tables) && p in s.tables
    requires forall pfn :: Cached(s.cache, Key(p, vaddr / s.tables[p].pageSize)) == Some(pfn) ==>
               pfn < |s.mem.frames|
    ensures var a := Accessed(s.mem, s.cache, p, s.tables[p], vaddr, isWrite);
            var b := Walked(s.mem, p, s.tables[p], vaddr, isWrite);
            a.mem == b.mem && a.outcome == b.outcome && SameButDirty(a.entries, b.entries)
  {
    CachedIsResident(s, p, vaddr);
  }

  ghost predicate Coupled(s: System, w: WalkSystem) {
    && Sound(s.mem, s.tables) && s.cache.slots != [] && Coherent(s.cache, s.tables)
    && Sound(w.mem, w.tables)
    && s.mem == w.mem && s.outcomes == w.outcomes && Twins(s.tables, w.tables)
  }

  lemma StepCoupled(s: System, w: WalkSystem, q: Request)
    requires Coupled(s, w) && (q.Request? ==> q.pid in s.tables)
    ensures Coupled(Stepped(s, q), WalkStepped(w, q))
  {
    if q.Request? {
      CachedIsResident(s, q.pid, q.vaddr);
      HitIsWalk(s, q.pid, q.vaddr, q.isWrite);
      WalkIgnoresDirty(s.mem, q.pid, s.tables[q.pid], w.tables[q.pid], q.vaddr, q.isWrite);
    }
  }

  function Run(s: System, requests: seq<Request>): (r: System)
    requires Sound(s.mem, s.tables) && s.cache.slots != [] && Coherent(s.cache, s.tables)
    requires Known(s.tables, requests)
    ensures Sound(r.mem, r.tables) && r.cache.slots != [] && Coherent(r.cache, r.tables)
    ensures r.tables.Keys == s.tables.Keys
  {
    if requests == [] then s else Stepped(Run(s, requests[..|requests| - 1]), requests[|requests| - 1])
  }

  function WalkRun(w: WalkSystem, requests: seq<Request>): (r: WalkSystem)
    requires Sound(w.mem, w.tables) && Known(w.tables, requests)
    ensures Sound(r.mem, r.tables) && r.tables.Keys == w.tables.Keys
  {
    if requests == [] then w else WalkStepped(WalkRun(w, requests[..|requests| - 1]), requests[|requests| - 1])
  }

  function Start(mem: Memory, capacity: int, ts: Tables): System {
    System(mem, Empty(capacity), ts, [])
  }

  /** Whatever the trace, the TLB changes no address, no error, no frame, no clock hand and no
      counter, and no page-table bit but Dirty. */
  lemma {:induction false} Transparent(mem: Memory, capacity: int, ts: Tables, requests: seq<Request>)
    requires Sound(mem, ts) && Known(ts, requests)
    ensures Coupled(Run(Start(mem, capacity, ts), requests), WalkRun(WalkSystem(mem, ts, []), requests))
  {
    if requests != [] {
      var n := |requests| - 1;
      Transparent(mem, capacity, ts, requests[..n]);
      StepCoupled(Run(Start(mem, capacity, ts), requests[..n]), WalkRun(WalkSystem(mem, ts, []), requests[..n]),
                  requests[n]);
    }
  }

  // ---- The TLB trace an access trace causes, whatever the capacity ----

  function EventOf(w: WalkSystem, q: Request): L.Event
    requires Sound(w.mem, w.tables) && (q.Request? ==> q.pid in w.tables)
  {
    match q
    case Request(p, vaddr, isWrite) =>
      var t := w.tables[p];
      var vpn := vaddr / t.pageSize;
      if Resolves(t.entries, vpn) then
        var es := Walked(w.mem, p, t, vaddr, isWrite).entries;
        L.Use(Key(p, vpn), es[vpn].pfn, es[vpn].readWrite)
      else L.Stray(Key(p, vpn))
    case TlbFlush => L.FlushAll
  }

  function Events(w: WalkSystem, requests: seq<Request>): (r: seq<L.Event>)
    requires Sound(w.mem, w.tables) && Known(w.tables, requests)
    ensures |r| == |requests|
  {
    if requests == [] then []
    else
      var front := requests[..|requests| - 1];
      Events(w, front) + [EventOf(WalkRun(w, front), requests[|requests| - 1])]
  }

  lemma CacheStep(s: System, w: WalkSystem, q: Request)
    requires Coupled(s, w) && (q.Request? ==> q.pid in s.tables)
    ensures Stepped(s, q).cache == L.Served(s.cache, EventOf(w, q))
  {
    if q.Request? {
      var t, t' := s.tables[q.pid], w.tables[q.pid];
      CachedIsResident(s, q.pid, q.vaddr);
      WalkIgnoresDirty(s.mem, q.pid, t, t', q.vaddr, q.isWrite);
      var vpn := q.vaddr / t.pageSize;
      if vpn < |t.entries| {
        assert t.entries[vpn].(dirty := false) == t'.entries[vpn].(dirty := false);
        assert Walked(s.mem, q.pid, t, q.vaddr, q.isWrite).entries[vpn].(dirty := false) ==
               Walked(s.mem, q.pid, t', q.vaddr, q.isWrite).entries[vpn].(dirty := false);
      }
    }
  }

  lemma {:induction false} CacheFollows(mem: Memory, capacity: int, ts: Tables, requests: seq<Request>)
    requires Sound(mem, ts) && Known(ts, requests)
    ensures Run(Start(mem, capacity, ts), requests).cache == L.Run(capacity, Events(WalkSystem(mem, ts, []), requests))
  {
    var w := WalkSystem(mem, ts, []);
    if requests != [] {
      var n := |requests| - 1;
      var front := requests[..n];
      CacheFollows(mem, capacity, ts, front);
      Transparent(mem, capacity, ts, front);
      CacheStep(Run(Start(mem, capacity, ts), front), WalkRun(w, front), requests[n]);
      assert Events(w, requests)[..n] == Events(w, front);
    }
  }

  ghost predicate Mapped(ts: Tables, k: Key) {
    k.asid in ts && Resolves(ts[k.asid].entries, k.vpn)
  }

  lemma MappedStays(w: WalkSystem, q: Request, k: Key)
    requires Sound(w.mem, w.tables) && (q.Request? ==> q.pid in w.tables) && Mapped(w.tables, k)
    ensures Mapped(WalkStepped(w, q).tables, k)
  {
  }

  lemma UsedIsMapped(w: WalkSystem, q: Request)
    requires Sound(w.mem, w.tables) && (q.Request? ==> q.pid in w.tables) && EventOf(w, q).Use?
    ensures Mapped(WalkStepped(w, q).tables, EventOf(w, q).key)
  {
  }

  /** Only mapped pages are ever remembered, so the trace of TLB events is consistent. */
  lemma {:induction false} EventsConsistent(w: WalkSystem, requests: seq<Request>)
    requires Sound(w.mem, w.tables) && Known(w.tables, requests)
    ensures L.Consistent(Events(w, requests))
    ensures forall k :: k in L.Recency(Events(w, requests)) ==> Mapped(WalkRun(w, requests).tables, k)
  {
    if requests != [] {
      var n := |requests| - 1;
      var front := requests[..n];
      EventsConsistent(w, front);
      var es := Events(w, requests);
      assert es[..n] == Events(w, front);
      assert forall m :: 0 <= m < n ==> es[..m] == Events(w, front)[..m];
      forall k | k in L.Recency(es)
        ensures Mapped(WalkRun(w, requests).tables, k)
      {
        var before := WalkRun(w, front);
        if es[n].Use? && k == es[n].key {
          UsedIsMapped(before, requests[n]);
        } else {
          if es[n].Use? {
            TouchedMember(L.Recency(es[..n]), es[n].key, k);
          }
          MappedStays(before, requests[n], k);
        }
      }
    }
  }

  lemma TouchedMember(r: seq<Key>, k: Key, x: Key)
    requires x in L.Touched(r, k) && x != k
    ensures x in r
  {
  }

  /** The TLB of the manager is exact LRU over the pages accessed since the last flush. */
  lemma ManagerTlbIsLru(mem: Memory, capacity: int, ts: Tables, requests: seq<Request>, k: Key)
    requires Sound(mem, ts) && Known(ts, requests)
    ensures var r := L.Recency(Events(WalkSystem(mem, ts, []), requests));
            L.Hit(Run(Start(mem, capacity, ts), requests).cache, k) <==> k in r[..L.Min(L.Size(capacity), |r|)]
  {
    EventsConsistent(WalkSystem(mem, ts, []), requests);
    CacheFollows(mem, capacity, ts, requests);
    L.TrueLru(capacity, Events(WalkSystem(mem, ts, []), requests));
  }

  /** On the same access trace a manager with a larger TLB never has fewer hits. */
  lemma LargerTlbNeverWorse(mem: Memory, small: int, large: int, ts: Tables, requests: seq<Request>)
    requires Sound(mem, ts) && Known(ts, requests) && L.Size(small) <= L.Size(large)
    ensures Run(Start(mem, small, ts), requests).cache.hits <= Run(Start(mem, large, ts), requests).cache.hits
  {
    EventsConsistent(WalkSystem(mem, ts, []), requests);
    CacheFollows(mem, small, ts, requests);
    CacheFollows(mem, large, ts, requests);
    L.LargerNeverWorse(small, large, Events(WalkSystem(mem, ts, []), requests));
  }

  /** The manager's hits and misses count its accesses to pages among the Capacity most recent, and
      the others. */
  lemma ManagerCountersExact(mem: Memory, capacity: int, ts: Tables, requests: seq<Request>)
    requires Sound(mem, ts) && Known(ts, requests)
    ensures var c, es := Run(Start(mem, capacity, ts), requests).cache, Events(WalkSystem(mem, ts, []), requests);
            && c.hits == L.Found(es, L.Size(capacity)) && c.hits + c.misses == L.Lookups(es)
  {
    EventsConsistent(WalkSystem(mem, ts, []), requests);
    CacheFollows(mem, capacity, ts, requests);
    L.CountersExact(capacity, Events(WalkSystem(mem, ts, []), requests));
  }

  // ---- The answers and the page table's own translation ----

  /** A walk answers what the page table it leaves would answer to a read.  It answers what that
      would answer to the same access unless that is a write to a read-only page, which only
      Translate refuses. */
  lemma WalkAgrees(m: Memory, pid: int, t: Table, vaddr: nat, isWrite: bool)
    requires m.Valid() && t.pageSize > 0 && Backed(t.entries, |m.frames|)
    ensures var r, vpn := Walked(m, pid, t, vaddr, isWrite), vaddr / t.pageSize;
            && r.outcome == Translated(r.entries, t.pageSize, vaddr, false)
            && (r.outcome == Translated(r.entries, t.pageSize, vaddr, isWrite) <==>
                  !(isWrite && Resolves(t.entries, vpn) && !t.entries[vpn].readWrite))
  {
    hide Walked;
    WalkEffect(m, pid, t, vaddr, isWrite);
  }

  /** What the page tables answer to reads of the addresses requested. */
  function Answers(ts: Tables, requests: seq<Request>): seq<Outcome>
    requires Known(ts, requests) && forall p :: p in ts ==> ts[p].pageSize > 0
  {
    if requests == [] then []
    else
      var q, front := requests[|requests| - 1], Answers(ts, requests[..|requests| - 1]);
      match q
      case Request(p, vaddr, _) => front + [Translated(ts[p].entries, ts[p].pageSize, vaddr, false)]
      case TlbFlush => front
  }

  /** The later tables map what the earlier ones map, and to the same frames. */
  ghost predicate Extends(ts: Tables, ts': Tables) {
    ts.Keys == ts'.Keys && forall p :: p in ts ==> ExtendsTable(ts[p], ts'[p])
  }

  ghost predicate ExtendsTable(t: Table, t': Table) {
    && t'.pageSize == t.pageSize && |t'.entries| == |t.entries|
    && (forall v :: 0 <= v < |t.entries| ==> t'.entries[v].valid == t.entries[v].valid)
    && (forall v :: 0 <= v < |t.entries| && t.entries[v].present ==>
          t'.entries[v].present && t'.entries[v].pfn == t.entries[v].pfn)
  }

  lemma StepExtends(w: WalkSystem, q: Request)
    requires Sound(w.mem, w.tables) && (q.Request? ==> q.pid in w.tables)
    ensures Extends(w.tables, WalkStepped(w, q).tables)
  {
    hide Walked;
  }

  /** An answer other than a page fault stands in every later table. */
  lemma {:induction false} AnswersStay(ts: Tables, ts': Tables, requests: seq<Request>)
    requires Extends(ts, ts') && Known(ts, requests) && forall p :: p in ts ==> ts[p].pageSize > 0
    requires Failed(PageFault) !in Answers(ts, requests)
    ensures Known(ts', requests) && (forall p :: p in ts' ==> ts'[p].pageSize > 0)
    ensures Answers(ts', requests) == Answers(ts, requests)
  {
    assert forall p :: p in ts' ==> ExtendsTable(ts[p], ts'[p]);
    if requests != [] {
      var n := |requests| - 1;
      var q := requests[n];
      AnswersStay(ts, ts', requests[..n]);
      if q.Request? {
        assert ExtendsTable(ts[q.pid], ts'[q.pid]);
        var a := Translated(ts[q.pid].entries, ts[q.pid].pageSize, q.vaddr, false);
        assert a == Answers(ts, requests)[|Answers(ts, requests)| - 1];
      }
    }
  }

  lemma {:induction false} WalksAnswer(w: WalkSystem, requests: seq<Request>)
    requires Sound(w.mem, w.tables) && Known(w.tables, requests) && w.outcomes == []
    ensures var r := WalkRun(w, requests);
            r.outcomes == Answers(r.tables, requests) && Failed(PageFault) !in r.outcomes
  {
    if requests != [] {
      var n := |requests| - 1;
      var q, before := requests[n], WalkRun(w, requests[..n]);
      WalksAnswer(w, requests[..n]);
      StepExtends(before, q);
      AnswersStay(before.tables, WalkStepped(before, q).tables, requests[..n]);
      if q.Request? {
        WalkAgrees(before.mem, q.pid, before.tables[q.pid], q.vaddr, q.isWrite);
        WalkEffect(before.mem, q.pid, before.tables[q.pid], q.vaddr, q.isWrite);
      }
    }
  }

  lemma {:induction false} TwinsAnswer(ts: Tables, ts': Tables, requests: seq<Request>)
    requires Twins(ts, ts') && Known(ts, requests) && Known(ts', requests)
    requires (forall p :: p in ts ==> ts[p].pageSize > 0) && (forall p :: p in ts' ==> ts'[p].pageSize > 0)
    ensures Answers(ts, requests) == Answers(ts', requests)
  {
    if requests != [] {
      var n := |requests| - 1;
      var q := requests[n];
      TwinsAnswer(ts, ts', requests[..n]);
      if q.Request? {
        var vpn := q.vaddr / ts[q.pid].pageSize;
        assert SameButDirty(ts[q.pid].entries, ts'[q.pid].entries);
        if vpn < |ts[q.pid].entries| {
          assert ts[q.pid].entries[vpn].(dirty := false) == ts'[q.pid].entries[vpn].(dirty := false);
        }
      }
    }
  }

  /** Every address and error that a trace has been answered, from the TLB or by a walk, at whatever
      time, is what the page tables at its end answer to a read. */
  lemma AnswersStand(mem: Memory, capacity: int, ts: Tables, requests: seq<Request>)
    requires Sound(mem, ts) && Known(ts, requests)
    ensures var r := Run(Start(mem, capacity, ts), requests);
            Known(r.tables, requests) && r.outcomes == Answers(r.tables, requests)
  {
    var w := WalkSystem(mem, ts, []);
    Transparent(mem, capacity, ts, requests);
    WalksAnswer(w, requests);
    TwinsAnswer(Run(Start(mem, capacity, ts), requests).tables, WalkRun(w, requests).tables, requests);
  }
}
