/** pkg/memory/page_replacement.go: what the record of a frame says about the accesses of a trace. */
module FrameHistory {
  import opened Collections
  import opened Paging
  import opened Tlb
  import opened PageReplacement
  import opened Translation
  import opened Residency

  // ---- A log of what requests did to frames ----

  /** One request: answered with a frame for a page, read or write, loading the page or not; or
      refused; or a flush of the TLB. */
  datatype Entry = Use(frame: nat, page: Key, write: bool, load: bool) | Refused | Flush

  /** Accesses so far: refused ones count, flushes do not. */
  function Accesses(log: seq<Entry>): nat {
    if log == [] then 0 else Accesses(log[..|log| - 1]) + if log[|log| - 1].Flush? then 0 else 1
  }

  predicate Touches(log: seq<Entry>, n: int, f: nat) {
    0 <= n < |log| && log[n].Use? && log[n].frame == f
  }

  predicate Loading(log: seq<Entry>, n: int, f: nat) {
    Touches(log, n, f) && log[n].load
  }

  ghost predicate Unused(log: seq<Entry>, f: nat) {
    forall n :: !Touches(log, n, f)
  }

  ghost predicate Unloaded(log: seq<Entry>, f: nat) {
    forall n :: !Loading(log, n, f)
  }

  /** The last access answered with the frame, and the last that loaded a page into it. */
  ghost predicate LastTouch(log: seq<Entry>, f: nat, n: int) {
    Touches(log, n, f) && forall m :: n < m ==> !Touches(log, m, f)
  }

  ghost predicate LastLoad(log: seq<Entry>, f: nat, n: int) {
    Loading(log, n, f) && forall m :: n < m ==> !Loading(log, m, f)
  }

  /** Access n wrote to the frame, and no page has been loaded into it since. */
  ghost predicate WroteAt(log: seq<Entry>, f: nat, n: int) {
    Touches(log, n, f) && log[n].write && forall m :: n < m ==> !Loading(log, m, f)
  }

  ghost predicate Written(log: seq<Entry>, f: nat) {
    exists n :: WroteAt(log, f, n)
  }

  ghost predicate DirtyBy(was: Frame, log: seq<Entry>, f: nat) {
    Written(log, f) || (was.dirty && Unloaded(log, f))
  }

  /** What frame f, which was `was` before the log began at tick t, is after it. */
  ghost predicate Recorded(was: Frame, x: Frame, log: seq<Entry>, f: nat, t: int) {
    && (x.dirty <==> DirtyBy(was, log, f))
    && (x.occupied <==> was.occupied || !Unloaded(log, f))
    && UseNoted(was, x, log, f, t) && LoadNoted(was, x, log, f, t)
  }

  ghost predicate UseNoted(was: Frame, x: Frame, log: seq<Entry>, f: nat, t: int) {
    && (forall n :: LastTouch(log, f, n) ==> x.lastUsedTick == t + Accesses(log[..n + 1]))
    && (Unused(log, f) ==> x.lastUsedTick == was.lastUsedTick)
  }

  ghost predicate LoadNoted(was: Frame, x: Frame, log: seq<Entry>, f: nat, t: int) {
    && (forall n :: LastLoad(log, f, n) ==>
          x.loadedTick == t + Accesses(log[..n + 1]) && x.pid == log[n].page.asid && x.vpn == log[n].page.vpn)
    && (Unloaded(log, f) ==> x.loadedTick == was.loadedTick && x.pid == was.pid && x.vpn == was.vpn)
    && x.pfn == (if Unloaded(log, f) then was.pfn else f)
  }

  /** What one more entry, at tick `now`, does to frame f. */
  ghost predicate Changes(x: Frame, y: Frame, e: Entry, f: nat, now: int) {
    if e.Use? && e.frame == f then
      && y.lastUsedTick == now
      && (if e.load
          then y == Frame(f, e.page.asid, e.page.vpn, true, now, now, y.useBit, e.write)
          else y == x.(lastUsedTick := now, useBit := y.useBit, dirty := x.dirty || e.write))
    else y == x.(useBit := y.useBit)
  }

  // ---- The law of the log ----

  lemma {:induction false} OldEntries(log: seq<Entry>, e: Entry, f: nat)
    ensures forall n :: n != |log| ==> Touches(log + [e], n, f) == Touches(log, n, f)
    ensures forall n :: n != |log| ==> Loading(log + [e], n, f) == Loading(log, n, f)
    ensures Touches(log + [e], |log|, f) <==> e.Use? && e.frame == f
    ensures Loading(log + [e], |log|, f) <==> e.Use? && e.frame == f && e.load
    ensures forall n :: n >= |log| ==> !Touches(log, n, f)
  {
  }

  lemma {:induction false} WrittenOn(log: seq<Entry>, e: Entry, f: nat)
    ensures Written(log + [e], f) <==>
            if e.Use? && e.frame == f then e.write || (!e.load && Written(log, f)) else Written(log, f)
  {
    OldEntries(log, e, f);
    var h := log + [e];
    if n :| WroteAt(h, f, n) {
      if n < |log| {
        assert h[n] == log[n];
        assert !Loading(h, |log|, f);
        assert WroteAt(log, f, n);
      }
    }
    if n :| WroteAt(log, f, n) {
      assert h[n] == log[n];
      assert !Loading(h, |log|, f) ==> WroteAt(h, f, n);
    }
    if e.Use? && e.frame == f && e.write {
      assert WroteAt(h, f, |log|);
    }
  }

  lemma {:induction false} UnloadedOn(log: seq<Entry>, e: Entry, f: nat)
    ensures Unloaded(log + [e], f) <==> Unloaded(log, f) && !(e.Use? && e.frame == f && e.load)
    ensures Unused(log + [e], f) <==> Unused(log, f) && !(e.Use? && e.frame == f)
  {
    OldEntries(log, e, f);
  }

  lemma {:induction false} UseNotedOn(was: Frame, x: Frame, y: Frame, log: seq<Entry>, e: Entry, f: nat, t: int)
    requires UseNoted(was, x, log, f, t) && Changes(x, y, e, f, t + Accesses(log + [e]))
    ensures UseNoted(was, y, log + [e], f, t)
  {
    var h := log + [e];
    OldEntries(log, e, f);
    UnloadedOn(log, e, f);
    forall n | LastTouch(h, f, n)
      ensures y.lastUsedTick == t + Accesses(h[..n + 1])
    {
      if n == |log| {
        assert h[..n + 1] == h;
      } else {
        assert LastTouch(log, f, n) && h[..n + 1] == log[..n + 1];
        assert !Touches(h, |log|, f);
      }
    }
  }

  lemma {:induction false} LoadNotedOn(was: Frame, x: Frame, y: Frame, log: seq<Entry>, e: Entry, f: nat, t: int)
    requires LoadNoted(was, x, log, f, t) && Changes(x, y, e, f, t + Accesses(log + [e]))
    ensures LoadNoted(was, y, log + [e], f, t)
  {
    var h := log + [e];
    OldEntries(log, e, f);
    UnloadedOn(log, e, f);
    forall n | LastLoad(h, f, n)
      ensures y.loadedTick == t + Accesses(h[..n + 1]) && y.pid == h[n].page.asid && y.vpn == h[n].page.vpn
    {
      if n == |log| {
        assert h[..n + 1] == h;
      } else {
        assert LastLoad(log, f, n) && h[..n + 1] == log[..n + 1] && h[n] == log[n];
        assert !Loading(h, |log|, f);
      }
    }
  }

  lemma {:induction false} RecordedOn(was: Frame, x: Frame, y: Frame, log: seq<Entry>, e: Entry, f: nat, t: int)
    requires Recorded(was, x, log, f, t) && Changes(x, y, e, f, t + Accesses(log + [e]))
    ensures Recorded(was, y, log + [e], f, t)
  {
    hide UseNoted, LoadNoted, Written, Unloaded;
    WrittenOn(log, e, f);
    UnloadedOn(log, e, f);
    UseNotedOn(was, x, y, log, e, f, t);
    LoadNotedOn(was, x, y, log, e, f, t);
  }

  // ---- The log of a trace ----

  /** A page that was absent at the start is loaded by the first request for it. */
  predicate IsFirst(ts: Tables, requests: seq<Request>, n: nat)
    requires Known(ts, requests) && (forall p :: p in ts ==> ts[p].pageSize > 0) && n < |requests|
    requires requests[n].Request?
  {
    var q := requests[n];
    var k := Key(q.pid, q.vaddr / ts[q.pid].pageSize);
    Absent(ts[q.pid], k.vpn) && k !in Demanded(ts, requests[..n])
  }

  /** The entry of the last request: its frame is the one the page table then names. */
  ghost function LastEntry(w: WalkSystem, requests: seq<Request>): Entry
    requires Sound(w.mem, w.tables) && Known(w.tables, requests) && requests != []
  {
    var n := |requests| - 1;
    var q := requests[n];
    match q
    case TlbFlush => Flush
    case Request(p, vaddr, isWrite) =>
      var after := WalkRun(w, requests).tables[p];
      var vpn := vaddr / w.tables[p].pageSize;
      if Resolves(w.tables[p].entries, vpn) && vpn < |after.entries|
      then Use(after.entries[vpn].pfn, Key(p, vpn), isWrite, IsFirst(w.tables, requests, n))
      else Refused
  }

  ghost function Log(w: WalkSystem, requests: seq<Request>): (log: seq<Entry>)
    requires Sound(w.mem, w.tables) && Known(w.tables, requests)
    ensures |log| == |requests|
  {
    if requests == [] then []
    else Log(w, requests[..|requests| - 1]) + [LastEntry(w, requests)]
  }

  // ---- Every trace keeps it ----

  lemma {:induction false} AllocatedChanges(m: Memory, pid: int, vpn: nat, f: nat)
    requires m.Valid() && f < |m.frames|
    ensures var (m', v) := Allocated(m, pid, vpn);
            && (f != v ==> m'.frames[f] == m.frames[f].(useBit := m'.frames[f].useBit))
            && m'.frames[v] == NewFrame(v, pid, vpn, m.tick) && m'.tick == m.tick
            && m'.swapWrites == m.swapWrites + (if m.frames[v].occupied && m.frames[v].dirty then 1 else 0)
  {
    if forall i :: 0 <= i < |m.frames| ==> m.frames[i].occupied {
      EvictsByPolicy(m, pid, vpn);
      var m' := Allocated(m, pid, vpn).0;
      assert m'.frames[f].(useBit := false) == m.frames[f].(useBit := false) || f == Allocated(m, pid, vpn).1;
    } else {
      FreeFrameFirst(m, pid, vpn);
    }
  }

  /** What a walk does to frame f. */
  lemma {:induction false} WalkChanges(m: Memory, pid: int, t: Table, vaddr: nat, isWrite: bool, f: nat)
    requires m.Valid() && t.pageSize > 0 && Backed(t.entries, |m.frames|) && f < |m.frames|
    ensures var r, vpn := Walked(m, pid, t, vaddr, isWrite), vaddr / t.pageSize;
            && r.mem.tick == m.tick + 1
            && (!Resolves(t.entries, vpn) ==> r.mem.frames == m.frames && r.mem.swapWrites == m.swapWrites)
            && (Resolves(t.entries, vpn) ==>
                  var v := r.entries[vpn].pfn;
                  && Changes(m.frames[f], r.mem.frames[f],
                             Use(v, Key(pid, vpn), isWrite, !t.entries[vpn].present), f, m.tick + 1)
                  && r.mem.swapWrites == m.swapWrites +
                     (if !t.entries[vpn].present && m.frames[v].occupied && m.frames[v].dirty then 1 else 0))
  {
    hide Allocated;
    AllocatedChanges(Ticked(m), pid, vaddr / t.pageSize, f);
  }

  /** Page evictions that had to write the page back, by the log. */
  ghost function WriteBacks(was: seq<Frame>, log: seq<Entry>): nat {
    if log == [] then 0
    else
      var front, e := log[..|log| - 1], log[|log| - 1];
      WriteBacks(was, front) +
      if e.Use? && e.load && e.frame < |was| && (was[e.frame].occupied || !Unloaded(front, e.frame)) &&
         DirtyBy(was[e.frame], front, e.frame)
      then 1 else 0
  }

  ghost predicate Kept(w: WalkSystem, requests: seq<Request>)
    requires Sound(w.mem, w.tables) && Known(w.tables, requests)
  {
    var m, log := WalkRun(w, requests).mem, Log(w, requests);
    && |m.frames| == |w.mem.frames| && m.tick == w.mem.tick + Accesses(log)
    && m.swapWrites == w.mem.swapWrites + WriteBacks(w.mem.frames, log)
    && forall f: nat :: f < |m.frames| ==> Recorded(w.mem.frames[f], m.frames[f], log, f, w.mem.tick)
  }

  /** The first request for an absent page finds it absent. */
  lemma {:induction false} FirstIsAbsent(w: WalkSystem, requests: seq<Request>)
    requires Sound(w.mem, w.tables) && Known(w.tables, requests) && requests != []
    requires requests[|requests| - 1].Request?
    ensures var n := |requests| - 1;
            var q, before := requests[n], WalkRun(w, requests[..n]).tables;
            var vpn := q.vaddr / w.tables[q.pid].pageSize;
            && before[q.pid].pageSize == w.tables[q.pid].pageSize
            && |before[q.pid].entries| == |w.tables[q.pid].entries|
            && (Resolves(before[q.pid].entries, vpn) <==> Resolves(w.tables[q.pid].entries, vpn))
            && (Resolves(before[q.pid].entries, vpn) ==>
                  (IsFirst(w.tables, requests, n) <==> !before[q.pid].entries[vpn].present))
  {
    hide WalkRun, Demanded, Counted;
    var n := |requests| - 1;
    RunCounted(w, requests[..n]);
    var p := requests[n].pid;
    assert FilledTable(w.tables[p], WalkRun(w, requests[..n]).tables[p], p, Demanded(w.tables, requests[..n]));
  }

  /** The entry of the last request says what it did to the memory. */
  lemma {:induction false} EntryNoted(w: WalkSystem, requests: seq<Request>, f: nat)
    requires Sound(w.mem, w.tables) && Known(w.tables, requests) && requests != [] && f < |w.mem.frames|
    requires |WalkRun(w, requests[..|requests| - 1]).mem.frames| == |w.mem.frames|
    ensures var m, m' := WalkRun(w, requests[..|requests| - 1]).mem, WalkRun(w, requests).mem;
            var e := LastEntry(w, requests);
            && |m'.frames| == |m.frames| && m'.tick == m.tick + (if e.Flush? then 0 else 1)
            && (e.Use? ==> e.frame < |m.frames|)
            && Changes(m.frames[f], m'.frames[f], e, f, m'.tick)
            && m'.swapWrites == m.swapWrites +
               (if e.Use? && e.load && m.frames[e.frame].occupied && m.frames[e.frame].dirty then 1 else 0)
  {
    hide Walked, Demanded;
    var n := |requests| - 1;
    var q, before := requests[n], WalkRun(w, requests[..n]);
    if q.Request? {
      FirstIsAbsent(w, requests);
      WalkChanges(before.mem, q.pid, before.tables[q.pid], q.vaddr, q.isWrite, f);
      WalkEffect(before.mem, q.pid, before.tables[q.pid], q.vaddr, q.isWrite);
    }
  }

  lemma {:induction false} WriteBacksOn(was: seq<Frame>, log: seq<Entry>, e: Entry)
    ensures WriteBacks(was, log + [e]) == WriteBacks(was, log) +
            if e.Use? && e.load && e.frame < |was| && (was[e.frame].occupied || !Unloaded(log, e.frame)) &&
               DirtyBy(was[e.frame], log, e.frame)
            then 1 else 0
    ensures Accesses(log + [e]) == Accesses(log) + if e.Flush? then 0 else 1
  {
    assert (log + [e])[..|log|] == log && (log + [e])[|log|] == e;
  }

  lemma {:induction false} StepKept(w: WalkSystem, requests: seq<Request>)
    requires Sound(w.mem, w.tables) && Known(w.tables, requests) && requests != []
    requires Kept(w, requests[..|requests| - 1])
    ensures Kept(w, requests)
  {
    hide Changes, WalkRun, WriteBacks, Accesses, LastEntry, UseNoted, LoadNoted, DirtyBy, Unloaded;
    var n := |requests| - 1;
    var front := requests[..n];
    var before, after, log := WalkRun(w, front).mem, WalkRun(w, requests).mem, Log(w, front);
    var e := LastEntry(w, requests);
    assert Log(w, requests) == log + [e];
    WriteBacksOn(w.mem.frames, log, e);
    forall f: nat | f < |w.mem.frames|
      ensures |after.frames| == |w.mem.frames| && Recorded(w.mem.frames[f], after.frames[f], log + [e], f, w.mem.tick)
    {
      EntryNoted(w, requests, f);
      assert Recorded(w.mem.frames[f], before.frames[f], log, f, w.mem.tick);
      RecordedOn(w.mem.frames[f], before.frames[f], after.frames[f], log, e, f, w.mem.tick);
    }
    EntryNoted(w, requests, 0);
    if e.Use? {
      assert Recorded(w.mem.frames[e.frame], before.frames[e.frame], log, e.frame, w.mem.tick);
    }
  }

  lemma {:induction false} TraceKept(w: WalkSystem, requests: seq<Request>)
    requires Sound(w.mem, w.tables) && Known(w.tables, requests)
    ensures Kept(w, requests)
  {
    if requests == [] {
      forall f: nat | f < |w.mem.frames|
        ensures Recorded(w.mem.frames[f], w.mem.frames[f], [], f, w.mem.tick)
      {
      }
    } else {
      TraceKept(w, requests[..|requests| - 1]);
      StepKept(w, requests);
    }
  }

  /** After any trace, under every policy and TLB size: a frame is dirty if and only if some write
      since its page was loaded was answered with it; it is stamped with the last access answered
      with it and with its last load; and the pages written back are the evicted ones that had been
      written to since they were loaded. */
  lemma {:induction false} FrameLaw(mem: Memory, capacity: int, ts: Tables, requests: seq<Request>)
    requires Sound(mem, ts) && Known(ts, requests)
    ensures var m, log := Run(Start(mem, capacity, ts), requests).mem, Log(WalkSystem(mem, ts, []), requests);
            && |m.frames| == |mem.frames|
            && m.swapWrites == mem.swapWrites + WriteBacks(mem.frames, log)
            && forall f: nat :: f < |m.frames| ==> Recorded(mem.frames[f], m.frames[f], log, f, mem.tick)
  {
    hide Recorded;
    Transparent(mem, capacity, ts, requests);
    TraceKept(WalkSystem(mem, ts, []), requests);
  }

  // ---- The policies over a trace ----

  lemma {:induction false} PolicyStays(w: WalkSystem, requests: seq<Request>)
    requires Sound(w.mem, w.tables) && Known(w.tables, requests)
    ensures WalkRun(w, requests).mem.policy == w.mem.policy
  {
    if requests != [] {
      PolicyStays(w, requests[..|requests| - 1]);
    }
  }

  lemma {:induction false} AccessesGrow(log: seq<Entry>, a: nat, b: nat)
    requires a <= b < |log| && !log[b].Flush?
    ensures Accesses(log[..b + 1]) >= Accesses(log[..a + 1]) + if a < b then 1 else 0
  {
    if a < b {
      assert log[..b + 1][..b] == log[..b];
      AccessesRise(log[..b], a + 1);
      assert log[..b][..a + 1] == log[..a + 1];
    }
  }

  lemma {:induction false} AccessesRise(log: seq<Entry>, a: nat)
    requires a <= |log|
    ensures Accesses(log[..a]) <= Accesses(log)
  {
    if a == |log| {
      assert log[..a] == log;
    } else {
      AccessesRise(log[..|log| - 1], a);
      assert log[..|log| - 1][..a] == log[..a];
    }
  }

  /** The victim in a full memory. */
  lemma {:induction false} WalkEvicts(m: Memory, pid: int, t: Table, vaddr: nat, isWrite: bool, f: nat)
    requires m.Valid() && t.pageSize > 0 && Backed(t.entries, |m.frames|) && f < |m.frames|
    requires Absent(t, vaddr / t.pageSize) && Walked(m, pid, t, vaddr, isWrite).mem.evictions > m.evictions
    ensures var v := Walked(m, pid, t, vaddr, isWrite).entries[vaddr / t.pageSize].pfn;
            && v < |m.frames|
            && (m.policy.Fifo? ==> m.frames[v].loadedTick <= m.frames[f].loadedTick)
            && (m.policy.Lru? ==> m.frames[v].lastUsedTick <= m.frames[f].lastUsedTick)
  {
    hide Allocated;
    var m1 := Ticked(m);
    AllocatedLoads(m1, pid, vaddr / t.pageSize);
    EvictsByPolicy(m1, pid, vaddr / t.pageSize);
  }

  /** What an eviction says of the frames before it. */
  lemma {:induction false} EvictionChooses(w: WalkSystem, requests: seq<Request>, f: nat)
    requires Sound(w.mem, w.tables) && Known(w.tables, requests) && requests != [] && f < |w.mem.frames|
    requires var m := WalkRun(w, requests[..|requests| - 1]).mem;
             |m.frames| == |w.mem.frames| && WalkRun(w, requests).mem.evictions > m.evictions
    ensures var m, e := WalkRun(w, requests[..|requests| - 1]).mem, LastEntry(w, requests);
            && e.Use? && e.load && e.frame < |m.frames|
            && (w.mem.policy.Fifo? ==> m.frames[e.frame].loadedTick <= m.frames[f].loadedTick)
            && (w.mem.policy.Lru? ==> m.frames[e.frame].lastUsedTick <= m.frames[f].lastUsedTick)
  {
    hide Walked, Demanded;
    var n := |requests| - 1;
    var q, before := requests[n], WalkRun(w, requests[..n]);
    PolicyStays(w, requests[..n]);
    FirstIsAbsent(w, requests);
    WalkEffect(before.mem, q.pid, before.tables[q.pid], q.vaddr, q.isWrite);
    WalkEvicts(before.mem, q.pid, before.tables[q.pid], q.vaddr, q.isWrite, f);
  }

  /** Ticks are in the order of the log. */
  lemma {:induction false} LoadsInOrder(v: Frame, x: Frame, f: nat, g: nat, was: Frame, was': Frame,
                                             log: seq<Entry>, t: int, a: nat, b: nat)
    requires LoadNoted(was, v, log, f, t) && LoadNoted(was', x, log, g, t) && f != g
    requires v.loadedTick <= x.loadedTick && LastLoad(log, f, a) && LastLoad(log, g, b)
    ensures a < b
  {
    hide Accesses;
    if b < a {
      AccessesGrow(log, b, a);
    }
  }

  lemma {:induction false} UsesInOrder(v: Frame, x: Frame, f: nat, g: nat, was: Frame, was': Frame,
                                             log: seq<Entry>, t: int, a: nat, b: nat)
    requires UseNoted(was, v, log, f, t) && UseNoted(was', x, log, g, t) && f != g
    requires v.lastUsedTick <= x.lastUsedTick && LastTouch(log, f, a) && LastTouch(log, g, b)
    ensures a < b
  {
    hide Accesses;
    if b < a {
      AccessesGrow(log, b, a);
    }
  }

  /** Whenever a page is evicted, FIFO has taken the frame that was loaded longest ago, and LRU the one
      whose last access was longest ago. */
  lemma {:induction false} EvictsOldest(w: WalkSystem, requests: seq<Request>, f: nat, a: nat, b: nat)
    requires Sound(w.mem, w.tables) && Known(w.tables, requests) && requests != [] && f < |w.mem.frames|
    requires var front := requests[..|requests| - 1];
             WalkRun(w, requests).mem.evictions > WalkRun(w, front).mem.evictions
    ensures var log, e := Log(w, requests[..|requests| - 1]), LastEntry(w, requests);
            && e.Use? && e.load
            && (w.mem.policy.Fifo? && f != e.frame && LastLoad(log, e.frame, a) && LastLoad(log, f, b) ==> a < b)
            && (w.mem.policy.Lru? && f != e.frame && LastTouch(log, e.frame, a) && LastTouch(log, f, b) ==> a < b)
  {
    hide WalkRun, LastEntry, Log, WriteBacks, DirtyBy, LoadNoted, UseNoted, LastLoad, LastTouch, Accesses;
    var front := requests[..|requests| - 1];
    TraceKept(w, front);
    EvictionChooses(w, requests, f);
    var m, log, v := WalkRun(w, front).mem, Log(w, front), LastEntry(w, requests).frame;
    assert Recorded(w.mem.frames[f], m.frames[f], log, f, w.mem.tick);
    assert Recorded(w.mem.frames[v], m.frames[v], log, v, w.mem.tick);
    if w.mem.policy.Fifo? && f != v && LastLoad(log, v, a) && LastLoad(log, f, b) {
      LoadsInOrder(m.frames[v], m.frames[f], v, f, w.mem.frames[v], w.mem.frames[f], log, w.mem.tick, a, b);
    }
    if w.mem.policy.Lru? && f != v && LastTouch(log, v, a) && LastTouch(log, f, b) {
      UsesInOrder(m.frames[v], m.frames[f], v, f, w.mem.frames[v], w.mem.frames[f], log, w.mem.tick, a, b);
    }
  }
}
