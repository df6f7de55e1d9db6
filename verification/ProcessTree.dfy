/** pkg/kernel/process_lifecycle.go: fork, exit and wait on the process table. */
module ProcessTree {
  import opened Collections

  const INIT: nat := 1

  /** One process control block. */
  datatype Proc = Proc(ppid: nat, zombie: bool, exitCode: int, children: seq<nat>)

  datatype Kernel = Kernel(procs: map<nat, Proc>, nextPid: nat)

  datatype Error = NoSuchProcess | InitMustLive | NoChild | WouldBlock

  datatype ForkReply = Child(pid: nat) | ForkFailed(error: Error)
  datatype ExitReply = Gone | ExitFailed(error: Error)
  datatype WaitReply = Reaped(pid: nat, exitCode: int) | WaitFailed(error: Error)

  function Boot(): (k: Kernel)
    ensures Tree(k)
  {
    Kernel(map[INIT := Proc(0, false, 0, [])], 2)
  }

  // ---- The operations ----

  function Fork(k: Kernel, parent: nat): (Kernel, ForkReply) {
    if parent !in k.procs then (k, ForkFailed(NoSuchProcess))
    else
      var p := k.procs[parent];
      (Kernel(k.procs[parent := p.(children := p.children + [k.nextPid])][k.nextPid := Proc(parent, false, 0, [])],
              k.nextPid + 1),
       Child(k.nextPid))
  }

  /** The table after the children in cs have been adopted by init. */
  function Adopted(procs: map<nat, Proc>, cs: seq<nat>): (r: map<nat, Proc>)
    requires INIT in procs
    ensures r.Keys == procs.Keys
  {
    map q | q in procs ::
      if q == INIT then procs[q].(children := procs[q].children + cs)
      else if q in cs then procs[q].(ppid := INIT)
      else procs[q]
  }

  function Exit(k: Kernel, pid: nat, code: int): (Kernel, ExitReply)
    requires INIT in k.procs
  {
    if pid !in k.procs then (k, ExitFailed(NoSuchProcess))
    else if pid == INIT then (k, ExitFailed(InitMustLive))
    else
      var p := k.procs[pid];
      (k.(procs := Adopted(k.procs, p.children)[pid := p.(zombie := true, exitCode := code, children := [])]), Gone)
  }

  /** Position of the first zombie in a list of children, or its length. */
  function FirstZombie(procs: map<nat, Proc>, cs: seq<nat>): (i: nat)
    ensures i <= |cs|
    ensures i < |cs| ==> cs[i] in procs && procs[cs[i]].zombie
    ensures forall j :: 0 <= j < i ==> !(cs[j] in procs && procs[cs[j]].zombie)
  {
    if cs == [] || (cs[0] in procs && procs[cs[0]].zombie) then 0 else 1 + FirstZombie(procs, cs[1..])
  }

  function Wait(k: Kernel, parent: nat): (Kernel, WaitReply) {
    if parent !in k.procs then (k, WaitFailed(NoSuchProcess))
    else
      var p := k.procs[parent];
      var i := FirstZombie(k.procs, p.children);
      if p.children == [] then (k, WaitFailed(NoChild))
      else if i == |p.children| then (k, WaitFailed(WouldBlock))
      else
        var c := p.children[i];
        (k.(procs := k.procs[parent := p.(children := Dropped(p.children, i))] - {c}),
         Reaped(c, k.procs[c].exitCode))
  }

  // ---- The tree invariant ----

  /** A process other than init is listed by its parent, which is older, present and alive. */
  ghost predicate HasParent(k: Kernel, p: nat)
    requires p in k.procs
  {
    var parent := k.procs[p].ppid;
    p != INIT ==> parent in k.procs && !k.procs[parent].zombie && p in k.procs[parent].children && parent < p
  }

  /** A process lists only its own children, each once; a zombie lists none. */
  ghost predicate ListsOwn(k: Kernel, q: nat)
    requires q in k.procs
  {
    var cs := k.procs[q].children;
    && Distinct(cs)
    && (forall c :: c in cs ==> c in k.procs && c != INIT && k.procs[c].ppid == q)
    && (k.procs[q].zombie ==> cs == [])
  }

  ghost predicate Tree(k: Kernel) {
    && INIT in k.procs && !k.procs[INIT].zombie
    && (forall p :: p in k.procs ==> 1 <= p < k.nextPid)
    && (forall p {:trigger HasParent(k, p)} :: p in k.procs ==> HasParent(k, p))
    && (forall q {:trigger ListsOwn(k, q)} :: q in k.procs ==> ListsOwn(k, q))
  }

  // ---- Fork ----

  ghost predicate MayFork(k: Kernel, parent: nat) {
    parent in k.procs ==> !k.procs[parent].zombie
  }

  lemma ForkParent(k: Kernel, parent: nat, p: nat)
    requires Tree(k) && parent in k.procs && !k.procs[parent].zombie && p in Fork(k, parent).0.procs
    ensures HasParent(Fork(k, parent).0, p)
  {
    if p != k.nextPid {
      assert HasParent(k, p);
    }
  }

  lemma ForkLists(k: Kernel, parent: nat, q: nat)
    requires Tree(k) && parent in k.procs && !k.procs[parent].zombie && q in Fork(k, parent).0.procs
    ensures ListsOwn(Fork(k, parent).0, q)
  {
    if q != k.nextPid {
      assert ListsOwn(k, q);
      if q == parent {
        DistinctJoin(k.procs[q].children, [k.nextPid]);
      }
    }
  }

  lemma ForkKeeps(k: Kernel, parent: nat)
    requires Tree(k) && MayFork(k, parent)
    ensures Tree(Fork(k, parent).0)
  {
    var k' := Fork(k, parent).0;
    if parent in k.procs {
      forall p | p in k'.procs
        ensures HasParent(k', p) && ListsOwn(k', p)
      {
        ForkParent(k, parent, p);
        ForkLists(k, parent, p);
      }
    }
  }

  // ---- Exit ----

  lemma ExitParent(k: Kernel, pid: nat, code: int, p: nat)
    requires Tree(k) && pid in k.procs && pid != INIT && p in k.procs
    ensures HasParent(Exit(k, pid, code).0, p)
  {
    assert HasParent(k, p) && ListsOwn(k, pid);
  }

  lemma ExitLists(k: Kernel, pid: nat, code: int, q: nat)
    requires Tree(k) && pid in k.procs && pid != INIT && q in k.procs
    ensures ListsOwn(Exit(k, pid, code).0, q)
  {
    assert ListsOwn(k, q) && ListsOwn(k, pid);
    forall c | c in k.procs[pid].children
      ensures c != pid
    {
      assert HasParent(k, c);
    }
    if q == INIT {
      DistinctJoin(k.procs[INIT].children, k.procs[pid].children);
    }
  }

  lemma ExitKeeps(k: Kernel, pid: nat, code: int)
    requires Tree(k)
    ensures Tree(Exit(k, pid, code).0)
  {
    var k' := Exit(k, pid, code).0;
    if pid in k.procs && pid != INIT {
      forall p | p in k'.procs
        ensures HasParent(k', p) && ListsOwn(k', p)
      {
        ExitParent(k, pid, code, p);
        ExitLists(k, pid, code, p);
      }
    }
  }

  // ---- Wait ----

  /** What a reaping Wait takes out: a childless zombie listed by the caller. */
  lemma ReapsLeaf(k: Kernel, parent: nat)
    requires Tree(k) && Wait(k, parent).1.Reaped?
    ensures var c := Wait(k, parent).1.pid;
            && c in k.procs && k.procs[c].zombie && k.procs[c].children == [] && k.procs[c].ppid == parent
            && c != INIT && c != parent && c in k.procs[parent].children
            && Wait(k, parent).1.exitCode == k.procs[c].exitCode
            && Wait(k, parent).0.procs.Keys == k.procs.Keys - {c}
  {
    var c := Wait(k, parent).1.pid;
    assert ListsOwn(k, parent) && ListsOwn(k, c) && HasParent(k, c);
  }

  lemma WaitParent(k: Kernel, parent: nat, p: nat)
    requires Tree(k) && Wait(k, parent).1.Reaped? && p in Wait(k, parent).0.procs
    ensures HasParent(Wait(k, parent).0, p)
  {
    ReapsLeaf(k, parent);
    assert HasParent(k, p) && ListsOwn(k, parent);
    DistinctDropped(k.procs[parent].children, FirstZombie(k.procs, k.procs[parent].children));
  }

  lemma WaitLists(k: Kernel, parent: nat, q: nat)
    requires Tree(k) && Wait(k, parent).1.Reaped? && q in Wait(k, parent).0.procs
    ensures ListsOwn(Wait(k, parent).0, q)
  {
    ReapsLeaf(k, parent);
    assert ListsOwn(k, q) && ListsOwn(k, parent);
    DistinctDropped(k.procs[parent].children, FirstZombie(k.procs, k.procs[parent].children));
  }

  lemma WaitKeeps(k: Kernel, parent: nat)
    requires Tree(k)
    ensures Tree(Wait(k, parent).0)
  {
    var k' := Wait(k, parent).0;
    if Wait(k, parent).1.Reaped? {
      ReapsLeaf(k, parent);
      forall p | p in k'.procs
        ensures HasParent(k', p) && ListsOwn(k', p)
      {
        WaitParent(k, parent, p);
        WaitLists(k, parent, p);
      }
    }
  }

  // ---- When the calls succeed ----

  /** Some process of the table has this parent; a zombie among them if only zombies count. */
  ghost predicate HasChild(k: Kernel, parent: nat, zombie: bool) {
    exists c :: c in k.procs && c != INIT && k.procs[c].ppid == parent && (zombie ==> k.procs[c].zombie)
  }

  /** Wait reaps exactly when the caller exists and has a zombie child, and then the first one on its
      list; it reports that there is no
      child exactly when it exists and nobody has it as parent, and that it would block exactly when
      it has children but no zombie among them. */
  lemma WaitIff(k: Kernel, parent: nat)
    requires Tree(k)
    ensures var r := Wait(k, parent).1;
            && (r.Reaped? <==> parent in k.procs && HasChild(k, parent, true))
            && (r == WaitFailed(NoSuchProcess) <==> parent !in k.procs)
            && (r == WaitFailed(NoChild) <==> parent in k.procs && !HasChild(k, parent, false))
            && (r == WaitFailed(WouldBlock) <==>
                  parent in k.procs && HasChild(k, parent, false) && !HasChild(k, parent, true))
            && (!r.Reaped? ==> Wait(k, parent).0 == k)
            && (r.Reaped? ==>
                  exists i :: 0 <= i < |k.procs[parent].children| && k.procs[parent].children[i] == r.pid &&
                    forall j :: 0 <= j < i ==>
                      k.procs[parent].children[j] in k.procs && !k.procs[k.procs[parent].children[j]].zombie)
  {
    if parent in k.procs {
      var cs := k.procs[parent].children;
      assert ListsOwn(k, parent);
      forall c | c in k.procs && c != INIT
        ensures c in cs <==> k.procs[c].ppid == parent
      {
        OneParent(k, c, parent);
      }
      assert cs != [] ==> cs[0] in cs;
      if HasChild(k, parent, true) {
        var c :| c in k.procs && c != INIT && k.procs[c].ppid == parent && k.procs[c].zombie;
        var j :| 0 <= j < |cs| && cs[j] == c;
        assert FirstZombie(k.procs, cs) <= j;
      }
      var i := FirstZombie(k.procs, cs);
      assert i < |cs| ==> cs[i] in cs;
      assert forall j :: 0 <= j < |cs| ==> cs[j] in cs;
    }
  }

  /** Fork succeeds exactly when the parent exists; the child is new, alive and childless. */
  lemma ForkIff(k: Kernel, parent: nat)
    requires Tree(k) && MayFork(k, parent)
    ensures var (k', r) := Fork(k, parent);
            && (r.Child? <==> parent in k.procs)
            && (r.ForkFailed? ==> r.error == NoSuchProcess && k' == k)
            && (r.Child? ==>
                  && r.pid !in k.procs && k'.procs.Keys == k.procs.Keys + {r.pid}
                  && k'.procs[r.pid] == Proc(parent, false, 0, [])
                  && k'.procs[parent] == k.procs[parent].(children := k.procs[parent].children + [r.pid])
                  && forall p :: p in k.procs && p != parent ==> k'.procs[p] == k.procs[p])
  {
  }

  /** Exit succeeds exactly when the process exists and is not init; it then is a zombie with the
      code and without children, which are init's, and nobody else is touched. */
  lemma ExitIff(k: Kernel, pid: nat, code: int)
    requires Tree(k)
    ensures var (k', r) := Exit(k, pid, code);
            && (r.Gone? <==> pid in k.procs && pid != INIT)
            && (r == ExitFailed(NoSuchProcess) <==> pid !in k.procs)
            && (r == ExitFailed(InitMustLive) <==> pid == INIT)
            && (r.ExitFailed? ==> k' == k)
            && (r.Gone? ==>
                  && k'.procs.Keys == k.procs.Keys
                  && k'.procs[pid] == k.procs[pid].(zombie := true, exitCode := code, children := [])
                  && (forall p :: p in k.procs && p != INIT && k.procs[p].ppid == pid ==> k'.procs[p].ppid == INIT)
                  && (forall p :: p in k.procs && p != pid ==>
                        k'.procs[p].zombie == k.procs[p].zombie && k'.procs[p].exitCode == k.procs[p].exitCode)
                  && (forall p :: p in k.procs && k.procs[p].ppid != pid ==> k'.procs[p].ppid == k.procs[p].ppid)
                  && k'.procs[INIT].children == k.procs[INIT].children + k.procs[pid].children
                  && (forall p :: p in k.procs && p != pid && p != INIT ==>
                        k'.procs[p].children == k.procs[p].children))
  {
    if pid in k.procs && pid != INIT {
      assert ListsOwn(k, pid) && HasParent(k, pid) && ListsOwn(k, INIT);
      forall p | p in k.procs && p != INIT
        ensures p in k.procs[pid].children <==> k.procs[p].ppid == pid
      {
        OneParent(k, p, pid);
      }
    }
  }

  // ---- Consequences in every reachable table ----

  /** A process is in exactly one list of children: its parent's. */
  lemma OneParent(k: Kernel, p: nat, q: nat)
    requires Tree(k) && p in k.procs && q in k.procs && p != INIT
    ensures p in k.procs[q].children <==> q == k.procs[p].ppid
  {
    assert HasParent(k, p) && ListsOwn(k, q);
  }

  /** Following parents reaches init: ancestry has no cycle. */
  lemma {:induction false} ReachesInit(k: Kernel, p: nat) returns (path: seq<nat>)
    requires Tree(k) && p in k.procs
    ensures |path| > 0 && path[0] == p && path[|path| - 1] == INIT
    ensures forall i :: 0 <= i < |path| ==> path[i] in k.procs
    ensures forall i :: 0 <= i < |path| - 1 ==> k.procs[path[i]].ppid == path[i + 1] < path[i]
    decreases p
  {
    if p == INIT {
      path := [p];
    } else {
      assert HasParent(k, p);
      var rest := ReachesInit(k, k.procs[p].ppid);
      path := [p] + rest;
    }
  }

  // ---- Runs ----

  datatype Call = ForkCall(parent: nat) | ExitCall(pid: nat, code: int) | WaitCall(parent: nat)

  predicate Allowed(k: Kernel, call: Call) {
    call.ForkCall? && call.parent in k.procs ==> !k.procs[call.parent].zombie
  }

  function Applied(k: Kernel, call: Call): (r: Kernel)
    requires Tree(k) && Allowed(k, call)
    ensures Tree(r)
  {
    match call
    case ForkCall(p) => ForkKeeps(k, p); Fork(k, p).0
    case ExitCall(p, code) => ExitKeeps(k, p, code); Exit(k, p, code).0
    case WaitCall(p) => WaitKeeps(k, p); Wait(k, p).0
  }

  /** Process identifiers handed out, and exit codes delivered, by one call. */
  function Issued(k: Kernel, call: Call): seq<nat> {
    if call.ForkCall? && Fork(k, call.parent).1.Child? then [Fork(k, call.parent).1.pid] else []
  }

  function Delivered(k: Kernel, call: Call): seq<nat> {
    if call.WaitCall? && Wait(k, call.parent).1.Reaped? then [Wait(k, call.parent).1.pid] else []
  }

  ghost predicate IsRun(k: Kernel, calls: seq<Call>)
    requires Tree(k)
    decreases |calls|
  {
    calls == [] || (Allowed(k, calls[0]) && IsRun(Applied(k, calls[0]), calls[1..]))
  }

  function AllIssued(k: Kernel, calls: seq<Call>): seq<nat>
    requires Tree(k) && IsRun(k, calls)
    decreases |calls|
  {
    if calls == [] then [] else Issued(k, calls[0]) + AllIssued(Applied(k, calls[0]), calls[1..])
  }

  function AllDelivered(k: Kernel, calls: seq<Call>): seq<nat>
    requires Tree(k) && IsRun(k, calls)
    decreases |calls|
  {
    if calls == [] then [] else Delivered(k, calls[0]) + AllDelivered(Applied(k, calls[0]), calls[1..])
  }

  /** A call keeps the table, except that Fork adds the next identifier and Wait removes the process
      whose exit code it delivers. */
  lemma CallEffect(k: Kernel, call: Call)
    requires Tree(k) && Allowed(k, call)
    ensures var k' := Applied(k, call);
            && k'.nextPid == k.nextPid + |Issued(k, call)|
            && (forall p :: p in k'.procs <==> (p in k.procs && p !in Delivered(k, call)) || p in Issued(k, call))
            && (forall p :: p in Issued(k, call) ==> p == k.nextPid)
            && (forall p :: p in Delivered(k, call) ==> p in k.procs)
  {
    if call.WaitCall? && Wait(k, call.parent).1.Reaped? {
      ReapsLeaf(k, call.parent);
    }
  }

  /** Over any run no identifier is issued twice. */
  lemma {:induction false} NeverReused(k: Kernel, calls: seq<Call>)
    requires Tree(k) && IsRun(k, calls)
    ensures Distinct(AllIssued(k, calls))
    ensures forall p :: p in AllIssued(k, calls) ==> p >= k.nextPid
    decreases |calls|
  {
    if calls != [] {
      CallEffect(k, calls[0]);
      NeverReused(Applied(k, calls[0]), calls[1..]);
      DistinctJoin(Issued(k, calls[0]), AllIssued(Applied(k, calls[0]), calls[1..]));
    }
  }

  /** Over any run each process's exit code is delivered at most once. */
  lemma {:induction false} DeliveredOnce(k: Kernel, calls: seq<Call>)
    requires Tree(k) && IsRun(k, calls)
    ensures Distinct(AllDelivered(k, calls))
    ensures forall p :: p in AllDelivered(k, calls) ==> p in k.procs || p >= k.nextPid
    decreases |calls|
  {
    if calls != [] {
      CallEffect(k, calls[0]);
      var k' := Applied(k, calls[0]);
      DeliveredOnce(k', calls[1..]);
      DistinctJoin(Delivered(k, calls[0]), AllDelivered(k', calls[1..]));
    }
  }

  // ---- Which exit code is delivered ----

  function After(k: Kernel, calls: seq<Call>): (r: Kernel)
    requires Tree(k) && IsRun(k, calls)
    ensures Tree(r)
    decreases |calls|
  {
    if calls == [] then k else After(Applied(k, calls[0]), calls[1..])
  }

  /** The code of the last Exit of the process. */
  function LastExit(calls: seq<Call>, pid: nat): Option<int> {
    if calls == [] then None
    else
      var later := LastExit(calls[1..], pid);
      if later.None? && calls[0].ExitCall? && calls[0].pid == pid then Some(calls[0].code) else later
  }

  /** A call leaves the exit record of a process alone, unless it is its own Exit. */
  lemma RecordStays(k: Kernel, call: Call, p: nat)
    requires Tree(k) && Allowed(k, call) && p in Applied(k, call).procs && Applied(k, call).procs[p].zombie
    ensures var r := Applied(k, call).procs[p];
            if call.ExitCall? && call.pid == p then r.exitCode == call.code
            else p in k.procs && k.procs[p].zombie && r.exitCode == k.procs[p].exitCode
  {
  }

  lemma {:induction false} RecordIsLastExit(k: Kernel, calls: seq<Call>, p: nat)
    requires Tree(k) && IsRun(k, calls) && p in After(k, calls).procs && After(k, calls).procs[p].zombie
    ensures var r := After(k, calls).procs[p];
            if LastExit(calls, p).Some? then r.exitCode == LastExit(calls, p).value
            else p in k.procs && k.procs[p].zombie && r.exitCode == k.procs[p].exitCode
    decreases |calls|
  {
    if calls != [] {
      RecordIsLastExit(Applied(k, calls[0]), calls[1..], p);
      if LastExit(calls[1..], p).None? {
        RecordStays(k, calls[0], p);
      }
    }
  }

  /** After any run since boot, the code that Wait delivers is that of the last Exit of the process. */
  lemma DeliversLastExit(calls: seq<Call>, parent: nat)
    requires IsRun(Boot(), calls) && Wait(After(Boot(), calls), parent).1.Reaped?
    ensures var r := Wait(After(Boot(), calls), parent).1; LastExit(calls, r.pid) == Some(r.exitCode)
  {
    RecordIsLastExit(Boot(), calls, Wait(After(Boot(), calls), parent).1.pid);
  }

  // ---- Reaping everything ----

  ghost predicate AllExited(k: Kernel) {
    forall p :: p in k.procs && p != INIT ==> k.procs[p].zombie
  }

  function Reap(k: Kernel, n: nat): Kernel
    decreases n
  {
    if n == 0 then k else Reap(Wait(k, INIT).0, n - 1)
  }

  /** With everyone else a zombie, every other process is a child of init. */
  lemma OnlyInitsChildren(k: Kernel)
    requires Tree(k) && AllExited(k)
    ensures forall p :: p in k.procs && p != INIT ==> p in k.procs[INIT].children
  {
    forall p | p in k.procs && p != INIT
      ensures p in k.procs[INIT].children
    {
      assert HasParent(k, p);
    }
  }

  /** One Wait by init takes its first child and leaves the rest as they were. */
  lemma ReapStep(k: Kernel)
    requires Tree(k) && AllExited(k) && k.procs[INIT].children != []
    ensures var cs := k.procs[INIT].children; var (k', r) := Wait(k, INIT);
            && Tree(k') && AllExited(k')
            && cs[0] in k.procs && r == Reaped(cs[0], k.procs[cs[0]].exitCode)
            && k'.procs[INIT] == k.procs[INIT].(children := cs[1..])
            && forall p :: p in cs[1..] ==> p in k.procs && p in k'.procs && k'.procs[p] == k.procs[p]
  {
    var cs := k.procs[INIT].children;
    assert ListsOwn(k, INIT);
    assert cs[0] in k.procs && k.procs[cs[0]].zombie;
    assert FirstZombie(k.procs, cs) == 0;
    assert Dropped(cs, 0) == cs[1..];
    WaitKeeps(k, INIT);
    ReapsLeaf(k, INIT);
    DistinctDropped(cs, 0);
  }

  /** The replies to n successive calls of Wait by init. */
  function Replies(k: Kernel, n: nat): (r: seq<WaitReply>)
    ensures |r| == n
    decreases n
  {
    if n == 0 then [] else [Wait(k, INIT).1] + Replies(Wait(k, INIT).0, n - 1)
  }

  lemma EmptyIsInitOnly(k: Kernel)
    requires Tree(k) && AllExited(k) && k.procs[INIT].children == []
    ensures k.procs == map[INIT := k.procs[INIT]]
    ensures Wait(k, INIT).1 == WaitFailed(NoChild)
  {
    OnlyInitsChildren(k);
    assert k.procs.Keys == {INIT};
  }

  lemma {:induction false} ReapTable(k: Kernel, n: nat)
    requires Tree(k) && AllExited(k) && n == |k.procs[INIT].children|
    ensures Reap(k, n).procs == map[INIT := k.procs[INIT].(children := [])]
    decreases n
  {
    if n == 0 {
      EmptyIsInitOnly(k);
    } else {
      var k' := Wait(k, INIT).0;
      ReapStep(k);
      assert k'.procs[INIT].(children := []) == k.procs[INIT].(children := []);
      ReapTable(k', n - 1);
    }
  }

  lemma {:induction false} ReplyAt(k: Kernel, n: nat, i: nat)
    requires Tree(k) && AllExited(k) && i < n == |k.procs[INIT].children|
    ensures var c := k.procs[INIT].children[i];
            c in k.procs && Replies(k, n)[i] == Reaped(c, k.procs[c].exitCode)
    decreases i
  {
    ReapStep(k);
    if i > 0 {
      var cs := k.procs[INIT].children;
      assert cs[i] == cs[1..][i - 1] && cs[i] in cs[1..];
      ReplyAt(Wait(k, INIT).0, n - 1, i - 1);
    }
  }

  /** Once all processes but init have exited, they are all children of init, and one Wait(1) each
      delivers every exit code, empties the table down to init and leaves no child to wait for. */
  lemma ReapEmpties(k: Kernel)
    requires Tree(k) && AllExited(k)
    ensures var cs := k.procs[INIT].children; var n := |cs|;
            && (forall p :: p in k.procs && p != INIT ==> p in cs)
            && (forall i :: 0 <= i < n ==> cs[i] in k.procs && Replies(k, n)[i] == Reaped(cs[i], k.procs[cs[i]].exitCode))
            && Reap(k, n).procs == map[INIT := k.procs[INIT].(children := [])]
            && Wait(Reap(k, n), INIT).1 == WaitFailed(NoChild)
  {
    var n := |k.procs[INIT].children|;
    OnlyInitsChildren(k);
    ReapTable(k, n);
    forall i | 0 <= i < n
      ensures var c := k.procs[INIT].children[i];
              c in k.procs && Replies(k, n)[i] == Reaped(c, k.procs[c].exitCode)
    {
      ReplyAt(k, n, i);
    }
  }
}
