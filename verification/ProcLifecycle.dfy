/** For every step of the process table: which fields of which entry it changes, and only then. */
module ProcLifecycle {
  import opened ProcTable
  import opened ProcProtocol
  import opened ProcInvariants

  /** Entry `j` is the process that takes the step. */
  ghost predicate Own(s: State, a: Action, j: nat) {
    0 <= Actor(a) < |s.cpus| && s.cpus[Actor(a)].mode.Has() && s.cpus[Actor(a)].mode.p == j
  }

  /** The process that takes the step is forking entry `j`. */
  ghost predicate Forks(s: State, a: Action, j: nat) {
    0 <= Actor(a) && At(s, Actor(a)) && InFork(s, s.cpus[a.c].mode.p) && s.t[s.cpus[a.c].mode.p].place.child == j
  }

  ghost predicate Takes(s: State, a: Action, j: nat) {
    a.Alloc? && j < |s.t| && s.t[j].status == UNUSED && forall k | 0 <= k < j :: s.t[k].status != UNUSED
  }

  ghost predicate Dispatches(s: State, a: Action, j: nat) {
    && a.Scan? && j < |s.t| && a.c < |s.cpus| && s.cpus[a.c].mode == Scanning(j)
    && s.t[j].status == RUNNABLE && s.t[j].pri == s.cpus[a.c].pri
  }

  /** The step is a wait by the parent of `j`, its first zombie child. */
  ghost predicate Collects(s: State, a: Action, j: nat) {
    && a.Wait? && 0 <= Actor(a) < |s.cpus| && s.cpus[a.c].mode.Has() && ZombieChild(s.t, s.cpus[a.c].mode.p, j)
    && forall k | 0 <= k < j :: !ZombieChild(s.t, s.cpus[a.c].mode.p, k)
  }

  /** The step is a wait by `j`, which has children, none of them a zombie, and was not killed. */
  ghost predicate MustWait(s: State, a: Action, j: nat) {
    a.Wait? && Own(s, a, j) && j < |s.t| && HasKids(s.t, j) && !ZombieKid(s.t, j) && !s.t[j].killed
  }

  ghost predicate Exits(s: State, a: Action, j: nat) {
    a.Exit? && Own(s, a, j) && j != s.init
  }

  /** The step wakes the sleeping entry `j`. */
  ghost predicate Rouses(s: State, a: Action, j: nat)
    requires j < |s.t|
  {
    || (a.Wakeup? && s.t[j].chan == Other(a.k))
    || (a.Kill? && FirstOf(s.t, a.pid, j))
    || (a.Exit? && exists p: nat :: p < |s.t| && Exits(s, a, p) && WokenByExit(s.t, p, s.init, s.t[j].chan))
  }

  /** The status of entry `j` after the step: every change, with the one kind of step that makes it. */
  ghost predicate StatusMoves(s: State, s': State, a: Action, j: nat)
    requires j < |s.t| == |s'.t|
  {
    var to := s'.t[j].status;
    match s.t[j].status
    case UNUSED => to == if Takes(s, a, j) then EMBRYO else UNUSED
    case EMBRYO =>
      to == (if a.ForkRuns? && Forks(s, a, j) then RUNNABLE
             else if a.ForkFails? && Forks(s, a, j) then UNUSED
             else EMBRYO)
    case RUNNABLE => to == if Dispatches(s, a, j) then RUNNING else RUNNABLE
    case RUNNING =>
      to == (if a.Yield? && Own(s, a, j) then RUNNABLE
             else if (a.Sleep? && Own(s, a, j)) || MustWait(s, a, j) then SLEEPING
             else if Exits(s, a, j) then ZOMBIE
             else RUNNING)
    case SLEEPING => to == if Rouses(s, a, j) then RUNNABLE else SLEEPING
    case ZOMBIE => to == if Collects(s, a, j) then UNUSED else ZOMBIE
  }

  /** The other fields: pid, parent, kill flag, priority and, for a process that goes to sleep, its channel. */
  ghost predicate FieldsMove(s: State, s': State, a: Action, j: nat)
    requires j < |s.t| == |s'.t|
  {
    var e, e' := s.t[j], s'.t[j];
    && e'.pid == (if Takes(s, a, j) then s.nextpid else if Collects(s, a, j) then 0 else e.pid)
    && e'.parent == (if a.ForkLinks? && Forks(s, a, j) then s.cpus[a.c].mode.p
                     else if Collects(s, a, j) then -1
                     else if a.Exit? && 0 <= e.parent && Exits(s, a, e.parent) then s.init
                     else e.parent)
    && e'.killed == ((e.killed || (a.Kill? && FirstOf(s.t, a.pid, j))) && !Collects(s, a, j))
    && e'.pri == (if Takes(s, a, j) || (a.ForkRuns? && Forks(s, a, j)) then LOW
                  else if a.SetPri? && Own(s, a, j) && LOW <= a.v <= HIGH then a.v
                  else e.pri)
    && (a.Sleep? && Own(s, a, j) ==> e'.chan == Other(a.k))
    && (MustWait(s, a, j) ==> e'.chan == OfProc(j))
    && ((a.Resume? || (a.Wait? && !MustWait(s, a, j))) && Own(s, a, j) ==> e'.chan == NoChan)
    && (e.status == e'.status == SLEEPING ==> e'.chan == e.chan)
    && (a.Alloc? && Own(s, a, j) ==> forall u: nat | Takes(s, a, u) :: e'.place == Forking(u, false))
    && (e.place.Forking? ==>
          e'.place == if !Own(s, a, j) || !InForkCall(a) then e.place
                      else if a.ForkLinks? then Forking(e.place.child, true) else Anywhere)
  }

  lemma ScanMoves(s: State, a: Action, j: nat)
    requires Control(s) && Family(s) && Enabled(s, a) && a.Scan? && j < |s.t|
    ensures |Do(s, a).t| == |s.t| && StatusMoves(s, Do(s, a), a, j) && FieldsMove(s, Do(s, a), a, j)
  {
    assert CpuOk(s, a.c);
    hide Control, Family, WokenByExit, HasKids, ZombieKid, FirstOf;
  }

  lemma SchedulingMoves(s: State, a: Action, j: nat)
    requires Control(s) && Family(s) && Enabled(s, a) && (a.StartPass? || a.Charge? || a.Resume?) && j < |s.t|
    ensures |Do(s, a).t| == |s.t| && StatusMoves(s, Do(s, a), a, j) && FieldsMove(s, Do(s, a), a, j)
  {
    assert CpuOk(s, a.c) && ForkOk(s, j);
    hide Control, Family, RunnableHigh, Served, Elapsed, WokenByExit, HasKids, ZombieKid, FirstOf;
  }

  lemma LeavingMoves(s: State, a: Action, j: nat)
    requires Control(s) && Family(s) && Enabled(s, a) && (a.Yield? || a.Sleep?) && j < |s.t|
    ensures |Do(s, a).t| == |s.t| && StatusMoves(s, Do(s, a), a, j) && FieldsMove(s, Do(s, a), a, j)
  {
    assert CpuOk(s, a.c) && ForkOk(s, j);
    hide Control, Family;
  }

  lemma ExitMoves(s: State, a: Action, j: nat)
    requires Control(s) && Family(s) && Enabled(s, a) && a.Exit? && j < |s.t|
    ensures |Do(s, a).t| == |s.t| && StatusMoves(s, Do(s, a), a, j) && FieldsMove(s, Do(s, a), a, j)
  {
    assert CpuOk(s, a.c);
    var p := s.cpus[a.c].mode.p;
    assert ParentOk(s, p) && ParentOk(s, j);
    hide Control, Family, AfterExit, WokenByExit, HasKids, ZombieKid, FirstOf;
    if p != s.init {
      ExitEntry(s.t, p, s.init, j);
    }
  }

  /** The step Wait is a turn of wait's loop; a process that does not go to sleep leaves sleep() behind. */
  lemma WaitIsTurn(s: State, a: Action) returns (t: Table, r: Found)
    requires Control(s) && Enabled(s, a) && a.Wait?
    ensures a.c < |s.cpus| && s.cpus[a.c].mode.Has() && s.cpus[a.c].mode.p < |s.t| == |t|
    ensures var p := s.cpus[a.c].mode.p;
            && s.t[p].status == RUNNING && WaitTurned(s.t, t, p, r)
            && Do(s, a).t == if r.MustSleep? then t else t[p := t[p].(chan := NoChan, place := Anywhere)]
  {
    assert CpuOk(s, a.c);
    var p := s.cpus[a.c].mode.p;
    hide Control, HasKids;
    var z := FirstZombie(s.t, p, 0);
    r := if z < |s.t| then Pid(s.t[z].pid) else if !HasKids(s.t, p) || s.t[p].killed then NoChildren else MustSleep;
    t := if z < |s.t| then s.t[z := Emptied(s.t[z])]
         else if !HasKids(s.t, p) || s.t[p].killed then s.t
         else s.t[p := s.t[p].(status := SLEEPING, chan := OfProc(p), place := Waiting)];
  }

  lemma WaitMoves(s: State, a: Action, j: nat)
    requires Control(s) && Family(s) && Enabled(s, a) && a.Wait? && j < |s.t|
    ensures |Do(s, a).t| == |s.t| && StatusMoves(s, Do(s, a), a, j) && FieldsMove(s, Do(s, a), a, j)
  {
    var t, r := WaitIsTurn(s, a);
    assert CpuOk(s, a.c) && ForkOk(s, j) && ForkOk(s, s.cpus[a.c].mode.p);
    hide Control, Family, HasKids, WokenByExit, FirstOf, Do, Enabled;
  }

  lemma AllocMoves(s: State, a: Action, j: nat)
    requires Control(s) && Family(s) && Enabled(s, a) && a.Alloc? && j < |s.t|
    ensures |Do(s, a).t| == |s.t| && StatusMoves(s, Do(s, a), a, j) && FieldsMove(s, Do(s, a), a, j)
  {
    assert CpuOk(s, a.c) && ForkOk(s, j) && ParentOk(s, j);
    hide Control, Family, WokenByExit, HasKids, ZombieKid, FirstOf;
  }

  lemma ForkMoves(s: State, a: Action, j: nat)
    requires Control(s) && Family(s) && Enabled(s, a) && (a.ForkFails? || a.ForkLinks? || a.ForkRuns?) && j < |s.t|
    ensures |Do(s, a).t| == |s.t| && StatusMoves(s, Do(s, a), a, j) && FieldsMove(s, Do(s, a), a, j)
  {
    assert CpuOk(s, a.c);
    assert ForkOk(s, s.cpus[a.c].mode.p) && ForkOk(s, j) && ParentOk(s, j);
    hide Control, Family, WokenByExit, HasKids, ZombieKid, FirstOf;
  }

  lemma OtherMoves(s: State, a: Action, j: nat)
    requires Control(s) && Family(s) && Enabled(s, a) && j < |s.t|
    requires a.Tick? || a.Wakeup? || a.Kill? || a.SetPri?
    ensures |Do(s, a).t| == |s.t| && StatusMoves(s, Do(s, a), a, j) && FieldsMove(s, Do(s, a), a, j)
  {
    if a.Kill? {
      KillKills(s.t, a.pid, 0);
    } else if a.SetPri? {
      assert CpuOk(s, a.c);
    }
    hide Control, Family, AfterKill;
  }

  /** Every step changes exactly what `StatusMoves` and `FieldsMove` say, of every entry. */
  lemma EntryMoves(s: State, a: Action, j: nat)
    requires Control(s) && Family(s) && Enabled(s, a) && j < |s.t|
    ensures |Do(s, a).t| == |s.t| && StatusMoves(s, Do(s, a), a, j) && FieldsMove(s, Do(s, a), a, j)
  {
    hide Control, Family, Do, StatusMoves, FieldsMove, Enabled;
    if a.Scan? {
      ScanMoves(s, a, j);
    } else if Scheduling(a) {
      SchedulingMoves(s, a, j);
    } else if a.Yield? || a.Sleep? {
      LeavingMoves(s, a, j);
    } else if a.Exit? {
      ExitMoves(s, a, j);
    } else if a.Wait? {
      WaitMoves(s, a, j);
    } else if a.Alloc? {
      AllocMoves(s, a, j);
    } else if InForkCall(a) {
      ForkMoves(s, a, j);
    } else {
      OtherMoves(s, a, j);
    }
  }
}
