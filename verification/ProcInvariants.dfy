/** What every step of the process table keeps. */
module ProcInvariants {
  import opened ProcTable
  import opened ProcProtocol

  // ---- Lock and CPUs ----

  ghost predicate CpuOk(s: State, c: nat)
    requires c < |s.cpus|
  {
    var m := s.cpus[c].mode;
    && CpuShaped(s, c) && (m.Holds() <==> s.lock == c)
    && (m.Has() ==> s.t[m.p].status == RUNNING)
    && (m.Back? ==> s.t[m.p].status == SLEEPING || s.t[m.p].status == RUNNABLE || s.t[m.p].status == ZOMBIE)
    && (m.Running? ==> s.t[m.p].place != Waiting)
  }

  ghost predicate Apart(s: State, c: nat, d: nat)
    requires c < |s.cpus| && d < |s.cpus|
  {
    c != d && s.cpus[c].mode.Has() && s.cpus[d].mode.Has() ==> s.cpus[c].mode.p != s.cpus[d].mode.p
  }

  /** One CPU at most holds the lock; a process runs on one CPU at most and is marked RUNNING while it does. */
  ghost predicate Control(s: State) {
    && Shaped(s)
    && (forall c: nat | c < |s.cpus| :: CpuOk(s, c))
    && (forall c: nat, d: nat | c < |s.cpus| && d < |s.cpus| :: Apart(s, c, d))
  }

  // ---- Parents and children ----

  ghost predicate ParentOk(s: State, p: nat)
    requires p < |s.t|
  {
    var e := s.t[p];
    && -1 <= e.parent < |s.t| && e.parent != p && (e.parent >= 0 ==> s.t[e.parent].Alive())
    && (e.status == UNUSED ==> e.parent == -1)
    && ((e.Alive() || e.status == ZOMBIE) && p != s.init ==> e.parent >= 0)
    && (e.status == EMBRYO && e.parent >= 0 ==> s.t[e.parent].place == Forking(p, true))
    && (!e.Alive() ==> e.place == Anywhere)
  }

  ghost predicate ForkOk(s: State, p: nat)
    requires p < |s.t|
  {
    s.t[p].place.Forking? ==>
      var u := s.t[p].place.child;
      && u < |s.t| && s.t[u].status == EMBRYO && s.t[u].parent == (if s.t[p].place.linked then p else -1)
      && (s.t[p].status != SLEEPING)
  }

  ghost predicate ForksApart(s: State, p: nat, q: nat)
    requires p < |s.t| && q < |s.t|
  {
    p != q && s.t[p].place.Forking? && s.t[q].place.Forking? ==> s.t[p].place.child != s.t[q].place.child
  }

  /** A process asleep in wait sleeps on its own entry and has no zombie child. */
  ghost predicate WaitOk(s: State, p: nat)
    requires p < |s.t|
  {
    s.t[p].status == SLEEPING && s.t[p].place == Waiting ==>
      s.t[p].chan == OfProc(p) && forall j: nat | j < |s.t| :: !ZombieChild(s.t, p, j)
  }

  ghost predicate Family(s: State) {
    && s.init < |s.t| && s.t[s.init].Alive() && s.t[s.init].parent == -1
    && (forall p: nat | p < |s.t| :: ParentOk(s, p))
    && (forall p: nat | p < |s.t| :: ForkOk(s, p))
    && (forall p: nat, q: nat | p < |s.t| && q < |s.t| :: ForksApart(s, p, q))
    && (forall p: nat | p < |s.t| :: WaitOk(s, p))
  }

  // ---- Pids ----

  ghost predicate PidOk(s: State, p: nat)
    requires p < |s.t|
  {
    s.t[p].status != UNUSED ==> 1 <= s.t[p].pid < s.nextpid
  }

  ghost predicate PidsApart(s: State, p: nat, q: nat)
    requires p < |s.t| && q < |s.t|
  {
    p != q && s.t[p].status != UNUSED && s.t[q].status != UNUSED ==> s.t[p].pid != s.t[q].pid
  }

  ghost predicate Pids(s: State) {
    && s.nextpid >= 1
    && (forall p: nat | p < |s.t| :: PidOk(s, p))
    && (forall p: nat, q: nat | p < |s.t| && q < |s.t| :: PidsApart(s, p, q))
  }

  /** A process's pid has exited exactly if it is a zombie; none in the table has been reaped. */
  ghost predicate Accounted(s: State, p: nat)
    requires p < |s.t|
  {
    s.t[p].status != UNUSED ==> (s.t[p].status == ZOMBIE <==> s.t[p].pid in s.h.exited) && s.t[p].pid !in s.h.reaped
  }

  /** Exited pids are reaped or still zombies; nothing is reaped twice. */
  ghost predicate Reaping(s: State) {
    && (forall p: nat | p < |s.t| :: Accounted(s, p))
    && (forall x | x in s.h.exited :: 1 <= x < s.nextpid && (x in s.h.reaped || IsZombie(s, x)))
    && (forall x | x in s.h.reaped :: x in s.h.exited)
    && (forall i, j | 0 <= i < j < |s.h.reaped| :: s.h.reaped[i] != s.h.reaped[j])
  }

  ghost predicate IsZombie(s: State, x: int) {
    exists p: nat :: p < |s.t| && s.t[p].status == ZOMBIE && s.t[p].pid == x
  }

  // ---- Priorities ----

  ghost predicate PriOk(s: State, p: nat)
    requires p < |s.t|
  {
    s.t[p].status != UNUSED ==> LOW <= s.t[p].pri <= HIGH
  }

  ghost predicate PassOk(s: State, c: nat)
    requires c < |s.cpus|
  {
    LOW <= s.cpus[c].pri <= HIGH && (s.cpus[c].seen ==> s.cpus[c].pri == HIGH)
  }

  ghost predicate RunOk(s: State, i: nat)
    requires i < |s.h.runs|
  {
    var d := s.h.runs[i];
    && (d.seen ==> d.pri == HIGH)
    && d.cpu < |s.cpus| && d.pass <= s.cpus[d.cpu].pass && (d.pass == s.cpus[d.cpu].pass ==> d.pri <= s.cpus[d.cpu].pri)
  }

  /** Dispatches of one pass, in order, never fall in priority. */
  ghost predicate Rising(s: State, i: nat, j: nat)
    requires i < |s.h.runs| && j < |s.h.runs|
  {
    i < j && s.h.runs[i].cpu == s.h.runs[j].cpu && s.h.runs[i].pass == s.h.runs[j].pass ==>
        s.h.runs[i].pri <= s.h.runs[j].pri
  }

  ghost predicate Priorities(s: State) {
    && s.halt != BadPriority
    && (forall p: nat | p < |s.t| :: PriOk(s, p))
    && (forall c: nat | c < |s.cpus| :: PassOk(s, c))
    && (forall i: nat | i < |s.h.runs| :: RunOk(s, i))
    && (forall i: nat, j: nat | i < |s.h.runs| && j < |s.h.runs| :: Rising(s, i, j))
  }

  // ---- Ticks ----

  ghost predicate TicksOk(s: State, p: nat)
    requires p < |s.t| == |s.h.servedLow| == |s.h.servedHigh|
  {
    && (s.t[p].status != UNUSED ==>
          s.t[p].low == s.h.servedLow[p] % LIMIT && s.t[p].high == s.h.servedHigh[p] % LIMIT)
    && (s.t[p].status == EMBRYO ==> s.t[p].low == s.t[p].high == 0)
  }

  /** What a CPU has charged, plus what its current process is using up, fits in the time that has passed. */
  ghost predicate ChargeOk(s: State, c: nat)
    requires c < |s.cpus| == |s.h.charged| && |s.h.start| == |s.t|
  {
    var m := s.cpus[c].mode;
    && s.h.charged[c] <= s.now
    && (m.Has() || m.Back? ==>
          m.p < |s.t| && s.h.charged[c] <= s.h.start[m.p] <= s.now && s.t[m.p].schedTime == s.h.start[m.p] % LIMIT)
  }

  ghost predicate Ticks(s: State) {
    && |s.h.servedLow| == |s.h.servedHigh| == |s.h.start| == |s.t| && |s.h.charged| == |s.cpus|
    && (forall p: nat | p < |s.t| :: TicksOk(s, p))
    && (forall c: nat | c < |s.cpus| :: ChargeOk(s, c))
  }

  ghost predicate Inv(s: State) {
    Control(s) && Family(s) && Pids(s) && Reaping(s) && Priorities(s) && Ticks(s)
  }

  lemma StartIsInv(s: State)
    requires Start(s)
    ensures Inv(s)
  {
  }

  /** The CPU that takes the step, if there is one. */
  ghost function Actor(a: Action): int {
    if a.Tick? || a.Wakeup? || a.Kill? then -1 else a.c
  }

  ghost predicate Scheduling(a: Action) {
    a.StartPass? || a.Scan? || a.Charge? || a.Resume?
  }

  ghost predicate Leaving(a: Action) {
    a.Yield? || a.Sleep? || a.Wait? || a.Exit?
  }

  ghost predicate InForkCall(a: Action) {
    a.Alloc? || a.ForkFails? || a.ForkLinks? || a.ForkRuns?
  }

  lemma ControlKept(s: State, a: Action)
    requires Control(s) && Family(s) && Enabled(s, a)
    ensures Control(Do(s, a))
  {
    hide Do, Family, Apart, CpuOk;
    var s' := Do(s, a);
    forall c: nat | c < |s.cpus|
      ensures |s'.cpus| == |s.cpus| && CpuOk(s', c) && CpuShaped(s', c)
    {
      CpuKept(s, a, c);
    }
    ShapeKept(s, a);
    forall c: nat, d: nat | c < |s.cpus| && d < |s.cpus|
      ensures Apart(s', c, d)
    {
      assert Apart(s, c, d) && CpuOk(s, c) && CpuOk(s, d);
      ApartKept(s, a, c, d);
    }
  }

  lemma ShapeKept(s: State, a: Action)
    requires Enabled(s, a)
    ensures var s' := Do(s, a);
            && |s'.cpus| == |s.cpus| && |s'.t| == |s.t| && s'.init == s.init && FREE <= s'.lock < |s.cpus|
            && |s'.h.servedLow| == |s'.h.servedHigh| == |s'.h.start| == |s.t| && |s'.h.charged| == |s.cpus|
  {
    hide RunnableHigh, Served, Elapsed, AfterExit, AfterKill, FirstWith, FirstZombie, HasKids;
  }

  lemma OtherCpus(s: State, a: Action, d: nat)
    requires Enabled(s, a) && d < |s.cpus| && d != Actor(a)
    ensures |Do(s, a).cpus| == |s.cpus| && Do(s, a).cpus[d] == s.cpus[d]
  {
  }

  /** A CPU gets a process only by dispatching a runnable one. */
  lemma ActorGets(s: State, a: Action)
    requires Enabled(s, a) && Actor(a) >= 0
    ensures |Do(s, a).cpus| == |s.cpus| && 0 <= Actor(a) < |s.cpus|
    ensures var m, m' := s.cpus[a.c].mode, Do(s, a).cpus[a.c].mode;
            m'.Has() ==> (m.Has() && m'.p == m.p) || (m'.p < |s.t| && s.t[m'.p].status == RUNNABLE)
  {
  }

  lemma ApartKept(s: State, a: Action, c: nat, d: nat)
    requires Enabled(s, a) && c < |s.cpus| && d < |s.cpus| && Apart(s, c, d) && CpuOk(s, c) && CpuOk(s, d)
    ensures |Do(s, a).cpus| == |s.cpus| && Apart(Do(s, a), c, d)
  {
    hide Do, Enabled;
    ShapeKept(s, a);
    if Actor(a) >= 0 {
      ActorGets(s, a);
    }
    if c != Actor(a) {
      OtherCpus(s, a, c);
    }
    if d != Actor(a) {
      OtherCpus(s, a, d);
    }
  }

  lemma CpuKept(s: State, a: Action, c: nat)
    requires Control(s) && Family(s) && Enabled(s, a) && c < |s.cpus|
    ensures |Do(s, a).cpus| == |s.cpus| && |Do(s, a).t| == |s.t| && CpuOk(Do(s, a), c)
  {
    assert CpuOk(s, c);
    if Scheduling(a) {
      assert CpuOk(s, a.c) && Apart(s, c, a.c);
      SchedulerKeepsCpu(s, a, c);
    } else if Leaving(a) {
      assert CpuOk(s, a.c) && Apart(s, c, a.c);
      LeavingKeepsCpu(s, a, c);
    } else if InForkCall(a) {
      assert CpuOk(s, a.c) && Apart(s, c, a.c);
      assert ForkOk(s, s.cpus[a.c].mode.p);
      ForkKeepsCpu(s, a, c);
    } else if a.Kill? && (s.cpus[c].mode.Has() || s.cpus[c].mode.Back?) {
      KillTouchesOne(s.t, a.pid, 0, s.cpus[c].mode.p);
    } else if a.SetPri? {
      assert CpuOk(s, a.c);
    }
  }

  lemma SchedulerKeepsCpu(s: State, a: Action, c: nat)
    requires Enabled(s, a) && Scheduling(a) && c < |s.cpus| && CpuOk(s, c) && CpuOk(s, a.c) && Apart(s, c, a.c)
    ensures |Do(s, a).cpus| == |s.cpus| && |Do(s, a).t| == |s.t| && CpuOk(Do(s, a), c)
  {
    hide RunnableHigh, Served, Elapsed;
  }

  lemma LeavingKeepsCpu(s: State, a: Action, c: nat)
    requires Enabled(s, a) && Leaving(a) && c < |s.cpus| && CpuOk(s, c) && CpuOk(s, a.c) && Apart(s, c, a.c)
    ensures |Do(s, a).cpus| == |s.cpus| && |Do(s, a).t| == |s.t| && CpuOk(Do(s, a), c)
  {
    hide AfterExit, Wakeup1, HasKids, WokenByExit, RunnableHigh, Served, Elapsed;
    var m := s.cpus[c].mode;
    if a.Exit? && s.cpus[a.c].mode.p != s.init && s.t[s.cpus[a.c].mode.p].parent >= 0 {
      ExitEntry(s.t, s.cpus[a.c].mode.p, s.init, if m.Has() || m.Back? then m.p else 0);
    }
  }

  lemma ForkKeepsCpu(s: State, a: Action, c: nat)
    requires Enabled(s, a) && InForkCall(a) && c < |s.cpus| && CpuOk(s, c) && CpuOk(s, a.c) && Apart(s, c, a.c)
    requires ForkOk(s, s.cpus[a.c].mode.p)
    ensures |Do(s, a).cpus| == |s.cpus| && |Do(s, a).t| == |s.t| && CpuOk(Do(s, a), c)
  {
  }
}
