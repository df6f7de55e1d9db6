/** pkg/kernel/process_lifecycle.go: the process manager object. */
module ProcessManagers {
  import opened Collections
  import opened ProcessTree

  lemma AdoptedOneMore(procs: map<nat, Proc>, cs: seq<nat>, c: nat)
    requires INIT in procs && c in procs && c != INIT
    ensures Adopted(procs, []) == procs
    ensures var a := Adopted(procs, cs);
            Adopted(procs, cs + [c]) ==
            a[c := a[c].(ppid := INIT)][INIT := a[INIT].(children := a[INIT].children + [c])]
  {
    var a, b := Adopted(procs, cs), Adopted(procs, cs + [c]);
    assert procs[INIT].children + (cs + [c]) == procs[INIT].children + cs + [c];
    assert procs[INIT].children + [] == procs[INIT].children;
    forall q | q in procs
      ensures b[q] == a[c := a[c].(ppid := INIT)][INIT := a[INIT].(children := a[INIT].children + [c])][q]
    {
    }
  }

  /** Adopting does not look at the exiting process itself. */
  lemma AdoptedApart(procs: map<nat, Proc>, cs: seq<nat>, pid: nat, p: Proc, p': Proc)
    requires INIT in procs && pid in procs && pid != INIT && pid !in cs
    ensures Adopted(procs[pid := p], cs)[pid := p'] == Adopted(procs, cs)[pid := p']
    ensures Adopted(procs[pid := p], cs)[pid] == p
  {
  }

  class ProcessManager {
    var processes: map<nat, Proc>
    var nextPid: nat

    ghost function View(): Kernel
      reads this
    {
      Kernel(processes, nextPid)
    }

    ghost predicate Valid()
      reads this
    {
      Tree(View())
    }

    constructor ()
      ensures Valid() && View() == Boot()
    {
      processes, nextPid := map[INIT := Proc(0, false, 0, [])], 2;
    }

    method Fork(parent: nat) returns (r: ForkReply)
      requires Valid() && MayFork(View(), parent)
      modifies this
      ensures Valid() && (View(), r) == ProcessTree.Fork(old(View()), parent)
    {
      ForkKeeps(View(), parent);
      if parent !in processes {
        return ForkFailed(NoSuchProcess);
      }
      var childPid := nextPid;
      nextPid := nextPid + 1;
      var p := processes[parent];
      processes := processes[parent := p.(children := p.children + [childPid])];
      processes := processes[childPid := Proc(parent, false, 0, [])];
      return Child(childPid);
    }

    method Exit(pid: nat, code: int) returns (r: ExitReply)
      requires Valid()
      modifies this
      ensures Valid() && (View(), r) == ProcessTree.Exit(old(View()), pid, code)
    {
      ExitKeeps(View(), pid, code);
      if pid !in processes {
        return ExitFailed(NoSuchProcess);
      }
      if pid == INIT {
        return ExitFailed(InitMustLive);
      }
      ghost var k := View();
      var cs := processes[pid].children;
      assert ListsOwn(k, pid);
      assert pid !in cs by {
        assert HasParent(k, pid);
      }
      AdoptedApart(processes, cs, pid, processes[pid].(zombie := true, exitCode := code),
                   processes[pid].(zombie := true, exitCode := code, children := []));
      processes := processes[pid := processes[pid].(zombie := true, exitCode := code)];
      Reparent(cs, pid);
      processes := processes[pid := processes[pid].(children := [])];
      return Gone;
    }

    /** The orphan loop. */
    method Reparent(cs: seq<nat>, pid: nat)
      requires INIT in processes && pid in processes && pid !in cs && pid != INIT
      requires Distinct(cs) && forall c :: c in cs ==> c in processes && c != INIT
      modifies this`processes
      ensures processes == Adopted(old(processes), cs)
    {
      AdoptedOneMore(processes, [], pid);
      for i := 0 to |cs|
        invariant INIT in processes && processes == Adopted(old(processes), cs[..i])
      {
        var c := cs[i];
        if c in processes {
          processes := processes[c := processes[c].(ppid := INIT)];
          processes := processes[INIT := processes[INIT].(children := processes[INIT].children + [c])];
        }
        AdoptedOneMore(old(processes), cs[..i], c);
        assert cs[..i + 1] == cs[..i] + [c];
      }
      assert cs[..|cs|] == cs;
    }

    method Wait(parent: nat) returns (r: WaitReply)
      requires Valid()
      modifies this
      ensures Valid() && (View(), r) == ProcessTree.Wait(old(View()), parent)
    {
      WaitKeeps(View(), parent);
      if parent !in processes {
        return WaitFailed(NoSuchProcess);
      }
      var cs := processes[parent].children;
      if |cs| == 0 {
        return WaitFailed(NoChild);
      }
      for i := 0 to |cs|
        invariant View() == old(View())
        invariant forall j :: 0 <= j < i ==> !(cs[j] in processes && processes[cs[j]].zombie)
      {
        var c := cs[i];
        if c in processes && processes[c].zombie {
          assert FirstZombie(processes, cs) == i;
          assert ListsOwn(View(), parent) && HasParent(View(), c);
          r := Reaped(c, processes[c].exitCode);
          processes := processes - {c};
          processes := processes[parent := processes[parent].(children := cs[..i] + cs[i + 1..])];
          assert processes == ProcessTree.Wait(old(View()), parent).0.procs;
          return r;
        }
      }
      return WaitFailed(WouldBlock);
    }
  }
}
