/** The scans over the process table of part2/proc.c, entry by entry, with ptable.lock held. */
module ProcDevice {
  import opened ProcTable

  class Ptable {
    const proc: array<Proc>
    var nextpid: int

    constructor (n: nat)
      ensures fresh(proc) && proc.Length == n && nextpid == 1
    {
      proc := new Proc[n](_ => Proc(UNUSED, 0, -1, NoChan, false, 0, 0, 0, 0, Anywhere));
      nextpid := 1;
    }

    method Wakeup1(chan: Chan)
      modifies proc
      ensures proc[..] == ProcTable.Wakeup1(old(proc[..]), chan)
    {
      for i := 0 to proc.Length
        invariant forall k | 0 <= k < proc.Length ::
                    proc[k] == if k < i then Roused(old(proc[k]), chan) else old(proc[k])
      {
        if proc[i].status == SLEEPING && proc[i].chan == chan {
          proc[i] := proc[i].(status := RUNNABLE);
        }
      }
    }

    /** The first loop of scheduler(). */
    method SearchPri() returns (searchPri: int)
      ensures searchPri == if RunnableHigh(proc[..]) then HIGH else LOW
    {
      searchPri := LOW;
      for i := 0 to proc.Length
        invariant searchPri == LOW && forall k | 0 <= k < i :: !(proc[k].status == RUNNABLE && proc[k].pri == HIGH)
      {
        if proc[i].status != RUNNABLE || proc[i].pri < searchPri {
          continue;
        }
        if proc[i].pri > searchPri && proc[i].pri == HIGH {
          searchPri := proc[i].pri;
          assert proc[..][i].status == RUNNABLE && proc[..][i].pri == HIGH;
          break;
        }
      }
    }

    /** The second loop's search for the next process at `searchPri`. */
    method NextToRun(searchPri: int, from: nat) returns (i: nat)
      requires from <= proc.Length
      ensures from <= i <= proc.Length
      ensures forall k | from <= k < i :: !(proc[k].status == RUNNABLE && proc[k].pri == searchPri)
      ensures i < proc.Length ==> proc[i].status == RUNNABLE && proc[i].pri == searchPri
    {
      i := from;
      while i < proc.Length
        invariant from <= i <= proc.Length
        invariant forall k | from <= k < i :: !(proc[k].status == RUNNABLE && proc[k].pri == searchPri)
      {
        if proc[i].status == RUNNABLE && proc[i].pri == searchPri {
          return;
        }
        i := i + 1;
      }
    }

    /** The critical section of allocproc; proc.Length if the table is full. */
    method Allocproc() returns (u: nat)
      modifies this, proc
      ensures u == FirstWith(old(proc[..]), UNUSED, 0)
      ensures u == proc.Length ==> proc[..] == old(proc[..]) && nextpid == old(nextpid)
      ensures u < proc.Length ==>
                nextpid == old(nextpid) + 1 &&
                proc[..] == old(proc[..])[u :=
                  old(proc[..])[u].(status := EMBRYO, pid := old(nextpid), pri := LOW, low := 0, high := 0)]
    {
      u := 0;
      while u < proc.Length
        invariant u <= proc.Length && FirstWith(proc[..], UNUSED, 0) == FirstWith(proc[..], UNUSED, u)
        invariant proc[..] == old(proc[..]) && nextpid == old(nextpid)
      {
        if proc[u].status == UNUSED {
          proc[u] := proc[u].(status := EMBRYO, pid := nextpid, pri := LOW, low := 0, high := 0);
          nextpid := nextpid + 1;
          return;
        }
        u := u + 1;
      }
    }

    /** exit of `p` under the lock. */
    method Exit(p: nat, init: nat)
      requires p < proc.Length && p != init && proc[p].parent >= 0
      modifies proc
      ensures proc[..] == AfterExit(old(proc[..]), p, init)
    {
      ghost var t := proc[..];
      Wakeup1(OfProc(proc[p].parent));
      ghost var t1 := proc[..];
      ghost var woken := false;
      for i := 0 to proc.Length
        invariant woken <==> exists j :: 0 <= j < i && ZombieChild(t, p, j)
        invariant forall k | 0 <= k < proc.Length ::
                    proc[k] == if k < i then Adopted(Rested(t1[k], woken, init), p, init)
                      else Rested(t1[k], woken, init)
      {
        assert ZombieChild(t, p, i) <==> proc[i].parent == p && proc[i].status == ZOMBIE;
        if proc[i].parent == p {
          proc[i] := proc[i].(parent := init);
          if proc[i].status == ZOMBIE {
            Wakeup1(OfProc(init));
            woken := true;
          }
        }
      }
      proc[p] := proc[p].(status := ZOMBIE);
      assert woken <==> exists j :: ZombieChild(t, p, j);
    }

    /** One turn of wait's loop for process `p`: reap a child, report that there is none, or go to sleep. */
    method WaitTurn(p: nat) returns (r: Found)
      requires p < proc.Length
      modifies proc
      ensures WaitTurned(old(proc[..]), proc[..], p, r)
    {
      var havekids := false;
      for i := 0 to proc.Length
        invariant proc[..] == old(proc[..]) && forall k :: 0 <= k < i ==> !ZombieChild(proc[..], p, k)
        invariant havekids <==> exists j :: 0 <= j < i && proc[..][j].parent == p
      {
        if proc[i].parent != p {
          continue;
        }
        havekids := true;
        if proc[i].status == ZOMBIE {
          assert ZombieChild(old(proc[..]), p, i);
          r := Pid(proc[i].pid);
          proc[i] := Emptied(proc[i]);
          return;
        }
      }
      if !havekids || proc[p].killed {
        return NoChildren;
      }
      proc[p] := proc[p].(status := SLEEPING, chan := OfProc(p), place := Waiting);
      return MustSleep;
    }

    /** kill: true if some entry has the pid. */
    method Kill(pid: int) returns (found: bool)
      modifies proc
      ensures Killed(old(proc[..]), proc[..], pid)
      ensures proc[..] == AfterKill(old(proc[..]), pid, 0)
      ensures found <==> exists i :: 0 <= i < proc.Length && old(proc[..])[i].pid == pid
    {
      KillKills(proc[..], pid, 0);
      for i := 0 to proc.Length
        invariant proc[..] == old(proc[..]) && AfterKill(proc[..], pid, 0) == AfterKill(proc[..], pid, i)
        invariant forall k | 0 <= k < i :: proc[k].pid != pid
      {
        if proc[i].pid == pid {
          assert old(proc[..])[i].pid == pid;
          var status := if proc[i].status == SLEEPING then RUNNABLE else proc[i].status;
          proc[i] := proc[i].(killed := true, status := status);
          return true;
        }
      }
      return false;
    }
  }

  /** An entry after init was woken, if it was. */
  function Rested(e: Proc, woken: bool, init: nat): (r: Proc) {
    if woken then Roused(e, OfProc(init)) else e
  }
}
