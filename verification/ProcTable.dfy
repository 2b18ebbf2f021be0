/** The process table of part2/proc.c and what each scan over it computes. */
module ProcTable {
  const LOW := 1
  const HIGH := 2
  const LIMIT: nat := 0x1_0000_0000        // uint

  datatype Status = UNUSED | EMBRYO | SLEEPING | RUNNABLE | RUNNING | ZOMBIE

  /** A sleep channel: the address of a table entry (wait) or any other one. */
  datatype Chan = NoChan | OfProc(p: nat) | Other(k: int)

  /** Where in the kernel a process is, as far as the table is concerned. */
  datatype Place = Anywhere | Forking(child: nat, linked: bool) | Waiting

  datatype Proc = Proc(status: Status, pid: int, parent: int, chan: Chan, killed: bool, pri: int,
                       low: nat, high: nat, schedTime: nat, place: Place)
  {
    predicate Alive() {
      status == SLEEPING || status == RUNNABLE || status == RUNNING
    }
  }

  type Table = seq<Proc>

  function Roused(p: Proc, chan: Chan): (r: Proc) {
    if p.status == SLEEPING && p.chan == chan then p.(status := RUNNABLE) else p
  }

  /** wakeup1. */
  function Wakeup1(t: Table, chan: Chan): (r: Table)
    ensures |r| == |t| && forall j | 0 <= j < |t| :: r[j] == Roused(t[j], chan)
  {
    seq(|t|, j requires 0 <= j < |t| => Roused(t[j], chan))
  }

  function Adopted(p: Proc, from: nat, to: nat): (r: Proc) {
    if p.parent == from then p.(parent := to) else p
  }

  /** Children of `from` become children of `to`. */
  function Adopt(t: Table, from: nat, to: nat): (r: Table)
    ensures |r| == |t| && forall j | 0 <= j < |t| :: r[j] == Adopted(t[j], from, to)
  {
    seq(|t|, j requires 0 <= j < |t| => Adopted(t[j], from, to))
  }

  predicate ZombieChild(t: Table, q: nat, j: int) {
    0 <= j < |t| && t[j].parent == q && t[j].status == ZOMBIE
  }

  /** The table after exit of `p`: parent woken, children given to init, init woken if one of them is a zombie. */
  ghost function AfterExit(t: Table, p: nat, init: nat): (r: Table)
    requires p < |t| && p != init && t[p].parent >= 0
    ensures |r| == |t|
  {
    var t1 := Wakeup1(t, OfProc(t[p].parent));
    var t2 := if exists j :: ZombieChild(t, p, j) then Wakeup1(t1, OfProc(init)) else t1;
    var t3 := Adopt(t2, p, init);
    t3[p := t3[p].(status := ZOMBIE)]
  }

  ghost predicate WokenByExit(t: Table, p: nat, init: nat, chan: Chan)
    requires p < |t|
  {
    t[p].parent >= 0 && (chan == OfProc(t[p].parent) || (chan == OfProc(init) && exists j :: ZombieChild(t, p, j)))
  }

  /** What exit of `p` does to entry `j`. */
  lemma ExitEntry(t: Table, p: nat, init: nat, j: nat)
    requires p < |t| && p != init && t[p].parent >= 0 && j < |t|
    ensures AfterExit(t, p, init)[j] ==
            t[j].(parent := if t[j].parent == p then init else t[j].parent,
                  status := if j == p then ZOMBIE
                            else if t[j].status == SLEEPING && WokenByExit(t, p, init, t[j].chan) then RUNNABLE
                            else t[j].status)
  {
  }

  /** The first entry from `i` on with that status; |t| if there is none. */
  function FirstWith(t: Table, status: Status, i: nat): (j: nat)
    requires i <= |t|
    ensures i <= j <= |t| && (j < |t| ==> t[j].status == status) && forall k | i <= k < j :: t[k].status != status
    decreases |t| - i
  {
    if i == |t| || t[i].status == status then i else FirstWith(t, status, i + 1)
  }

  /** The first zombie child of `q` from `i` on. */
  function FirstZombie(t: Table, q: nat, i: nat): (j: nat)
    requires i <= |t|
    ensures i <= j <= |t| && (j < |t| ==> ZombieChild(t, q, j)) && forall k | i <= k < j :: !ZombieChild(t, q, k)
    decreases |t| - i
  {
    if i == |t| || ZombieChild(t, q, i) then i else FirstZombie(t, q, i + 1)
  }

  ghost predicate HasKids(t: Table, q: nat) {
    exists j :: 0 <= j < |t| && t[j].parent == q
  }

  ghost predicate ZombieKid(t: Table, q: nat) {
    exists j :: ZombieChild(t, q, j)
  }

  /** What one turn of wait's loop comes to. */
  datatype Found = Pid(pid: int) | NoChildren | MustSleep

  function Emptied(e: Proc): Proc {
    e.(status := UNUSED, pid := 0, parent := -1, killed := false)
  }

  /**
   One turn of wait by `p` that came to `r`: a zombie child gives its pid, once; without children, or killed, `p`
   returns; otherwise it sleeps on its own entry.
   */
  ghost predicate WaitTurned(t: Table, t': Table, p: nat, r: Found)
    requires p < |t|
  {
    && (r.Pid? <==> ZombieKid(t, p))
    && (r == NoChildren <==> !ZombieKid(t, p) && (!HasKids(t, p) || t[p].killed))
    && match r
       case Pid(x) =>
         exists z :: ZombieChild(t, p, z) && (forall k :: 0 <= k < z ==> !ZombieChild(t, p, k)) && t[z].pid == x
                     && t' == t[z := Emptied(t[z])]
       case NoChildren => t' == t
       case MustSleep => t' == t[p := t[p].(status := SLEEPING, chan := OfProc(p), place := Waiting)]
  }

  ghost predicate RunnableHigh(t: Table) {
    exists j :: 0 <= j < |t| && t[j].status == RUNNABLE && t[j].pri == HIGH
  }

  /** kill: the first entry with that pid is marked and, if asleep, woken. */
  ghost function AfterKill(t: Table, pid: int, i: nat): (r: Table)
    requires i <= |t|
    ensures |r| == |t|
    decreases |t| - i
  {
    if i == |t| then t
    else if t[i].pid == pid then
      t[i := t[i].(killed := true, status := if t[i].status == SLEEPING then RUNNABLE else t[i].status)]
    else AfterKill(t, pid, i + 1)
  }

  ghost predicate FirstOf(t: Table, pid: int, i: int) {
    0 <= i < |t| && t[i].pid == pid && forall k | 0 <= k < i :: t[k].pid != pid
  }

  /** From `t` to `t'` the first entry with that pid was killed, and woken if it slept; nothing else changed. */
  ghost predicate Killed(t: Table, t': Table, pid: int) {
    && |t'| == |t|
    && (forall i | 0 <= i < |t| && !FirstOf(t, pid, i) :: t'[i] == t[i])
    && (forall i | 0 <= i < |t| && FirstOf(t, pid, i) ::
          && t'[i].killed && t'[i].status != SLEEPING
          && (if t[i].status == SLEEPING then t'[i].status == RUNNABLE else t'[i].status == t[i].status)
          && t'[i] == t[i].(killed := true, status := t'[i].status))
  }

  lemma {:induction false} KillKills(t: Table, pid: int, i: nat)
    requires i <= |t| && forall k | 0 <= k < i :: t[k].pid != pid
    ensures Killed(t, AfterKill(t, pid, i), pid)
    decreases |t| - i
  {
    if i < |t| && t[i].pid != pid {
      KillKills(t, pid, i + 1);
    }
  }

  lemma {:induction false} KillTouchesOne(t: Table, pid: int, i: nat, j: nat)
    requires i <= |t| && j < |t|
    ensures var p, q := t[j], AfterKill(t, pid, i)[j];
            q == p || q == p.(killed := true, status := if p.status == SLEEPING then RUNNABLE else p.status)
    decreases |t| - i
  {
    if i < |t| && t[i].pid != pid {
      KillTouchesOne(t, pid, i + 1, j);
    }
  }

  /** uint subtraction. */
  function Elapsed(now: nat, since: nat): (d: nat) {
    (now % LIMIT - since) % LIMIT
  }
}
