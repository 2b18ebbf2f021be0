/** What holds in every run of the process table. */
module ProcTheorems {
  import opened ProcTable
  import opened ProcProtocol
  import opened ProcInvariants
  import opened ProcFamily
  import opened ProcReaping
  import opened ProcScheduling
  import opened ProcLifecycle

  lemma {:induction false} RunKeepsInv(states: seq<State>, acts: seq<Action>, n: nat)
    requires IsRun(states, acts) && n <= |acts|
    ensures Inv(states[n])
  {
    hide Control, Family, Pids, Reaping, Priorities, Ticks, Do;
    if n == 0 {
      StartIsInv(states[0]);
    } else {
      RunKeepsInv(states, acts, n - 1);
      assert StepAt(states, acts, n - 1);
      var s, a := states[n - 1], acts[n - 1];
      ControlKept(s, a);
      FamilyKept(s, a);
      PidsKept(s, a);
      PrioritiesKept(s, a);
      TicksKept(s, a);
    }
  }

  /** Every zombie has a parent that can still wait for it, and no process asleep in wait has a zombie child. */
  lemma NoStrandedZombie(states: seq<State>, acts: seq<Action>, n: nat, z: nat)
    requires IsRun(states, acts) && n <= |acts| && z < |states[n].t| && states[n].t[z].status == ZOMBIE
    ensures var q := states[n].t[z].parent;
            && 0 <= q < |states[n].t| && states[n].t[q].Alive()
            && !(states[n].t[q].status == SLEEPING && states[n].t[q].place == Waiting)
  {
    RunKeepsInv(states, acts, n);
    var s := states[n];
    assert ParentOk(s, z);
    assert s.t[s.init].Alive();
    var q := s.t[z].parent;
    assert WaitOk(s, q) && ZombieChild(s.t, q, z);
  }

  /** Pids in use are distinct; what wait returned are pids that exited, each once, and the rest are still zombies. */
  lemma ReapedOnce(states: seq<State>, acts: seq<Action>, n: nat)
    requires IsRun(states, acts) && n <= |acts|
    ensures var s := states[n];
            && (forall p, q | 0 <= p < q < |s.t| && s.t[p].status != UNUSED && s.t[q].status != UNUSED ::
                 s.t[p].pid != s.t[q].pid)
            && (forall i, j | 0 <= i < j < |s.h.reaped| :: s.h.reaped[i] != s.h.reaped[j])
            && (forall x | x in s.h.exited :: x in s.h.reaped <==> !IsZombie(s, x))
            && (forall x | x in s.h.reaped :: x in s.h.exited)
  {
    RunKeepsInv(states, acts, n);
    var s := states[n];
    forall p, q | 0 <= p < q < |s.t| && s.t[p].status != UNUSED && s.t[q].status != UNUSED
      ensures s.t[p].pid != s.t[q].pid
    {
      assert PidsApart(s, p, q);
    }
    forall x | x in s.h.reaped
      ensures !IsZombie(s, x)
    {
      forall p: nat | p < |s.t|
        ensures !(s.t[p].status == ZOMBIE && s.t[p].pid == x)
      {
        assert Accounted(s, p);
      }
    }
  }

  /**
   panic("priority") is unreachable; a pass that saw a runnable HIGH process dispatches HIGH only, and no pass falls.
   */
  lemma PassesRise(states: seq<State>, acts: seq<Action>, n: nat)
    requires IsRun(states, acts) && n <= |acts|
    ensures states[n].halt != BadPriority
    ensures forall i | 0 <= i < |states[n].h.runs| :: states[n].h.runs[i].seen ==> states[n].h.runs[i].pri == HIGH
    ensures forall i, j | 0 <= i < j < |states[n].h.runs| ::
              && states[n].h.runs[i].cpu == states[n].h.runs[j].cpu
              && states[n].h.runs[i].pass == states[n].h.runs[j].pass ==>
                states[n].h.runs[i].pri <= states[n].h.runs[j].pri
  {
    RunKeepsInv(states, acts, n);
    var s := states[n];
    forall i | 0 <= i < |s.h.runs|
      ensures s.h.runs[i].seen ==> s.h.runs[i].pri == HIGH
    {
      assert RunOk(s, i);
    }
    forall i, j | 0 <= i < j < |s.h.runs|
      ensures s.h.runs[i].cpu == s.h.runs[j].cpu && s.h.runs[i].pass == s.h.runs[j].pass ==>
                s.h.runs[i].pri <= s.h.runs[j].pri
    {
      assert Rising(s, i, j);
    }
  }

  // ---- Ticks, told from the run alone ----

  /** When `p` was last dispatched. */
  ghost function LastStart(states: seq<State>, acts: seq<Action>, n: nat, p: nat): nat
    requires IsRun(states, acts) && n <= |acts|
  {
    if n == 0 then 0
    else
      assert StepAt(states, acts, n - 1);
      var a := acts[n - 1];
      if a.Scan? && a.c < |states[n].cpus| && states[n].cpus[a.c].mode == Dispatched(p) then states[n - 1].now
      else LastStart(states, acts, n - 1, p)
  }

  /** The length of all turns of `p`, since its entry was last taken, that ended while its priority was `pri`. */
  ghost function Turns(states: seq<State>, acts: seq<Action>, n: nat, p: nat, pri: int): int
    requires IsRun(states, acts) && n <= |acts| && p < |states[0].t|
  {
    if n == 0 then 0
    else
      assert StepAt(states, acts, n - 1);
      SizesStay(states, acts, n - 1);
      SizesStay(states, acts, n);
      var s, a := states[n - 1], acts[n - 1];
      if s.t[p].status == UNUSED && states[n].t[p].status == EMBRYO then 0
      else if a.Charge? && s.cpus[a.c].mode == Back(p) && s.t[p].pri == pri then
        Turns(states, acts, n - 1, p, pri) + (s.now - LastStart(states, acts, n - 1, p))
      else Turns(states, acts, n - 1, p, pri)
  }

  lemma {:induction false} SizesStay(states: seq<State>, acts: seq<Action>, n: nat)
    requires IsRun(states, acts) && n <= |acts|
    ensures |states[n].t| == |states[0].t| && |states[n].cpus| == |states[0].cpus|
  {
    if n > 0 {
      SizesStay(states, acts, n - 1);
      assert StepAt(states, acts, n - 1);
      ShapeKept(states[n - 1], acts[n - 1]);
    }
  }

  /** The history of the ticks is what the run shows. */
  lemma {:induction false} HistoryIsTold(states: seq<State>, acts: seq<Action>, n: nat, p: nat)
    requires IsRun(states, acts) && n <= |acts| && p < |states[0].t|
    ensures |states[n].t| == |states[0].t| == |states[n].h.start|
    ensures |states[n].h.servedLow| == |states[n].h.servedHigh| == |states[0].t|
    ensures states[n].h.start[p] == LastStart(states, acts, n, p)
    ensures states[n].h.servedLow[p] == Turns(states, acts, n, p, LOW)
    ensures states[n].h.servedHigh[p] == Turns(states, acts, n, p, HIGH)
  {
    SizesStay(states, acts, n);
    if n > 0 {
      var s, a := states[n - 1], acts[n - 1];
      assert StepAt(states, acts, n - 1);
      HistoryIsTold(states, acts, n - 1, p);
      RunKeepsInv(states, acts, n - 1);
      assert s.halt != BadPriority;
      HistoryStep(s, a, p);
      hide Do, Inv;
    }
  }

  /** What a step does to the history of entry `p`. */
  ghost predicate Told(s: State, s': State, a: Action, p: nat) {
    && p < |s.t| == |s'.t| == |s.h.start| == |s'.h.start| && |s'.cpus| == |s.cpus|
    && p < |s.h.servedLow| == |s.h.servedHigh| && p < |s'.h.servedLow| == |s'.h.servedHigh|
    && s'.h.start[p] ==
         (if a.Scan? && a.c < |s'.cpus| && s'.cpus[a.c].mode == Dispatched(p) then s.now else s.h.start[p])
    && var turn := a.Charge? && a.c < |s.cpus| && s.cpus[a.c].mode == Back(p);
       var taken := s.t[p].status == UNUSED && s'.t[p].status == EMBRYO;
       var d := if turn then s.now - s.h.start[p] else 0;
       && s'.h.servedLow[p] == (if taken then 0 else s.h.servedLow[p] + if s.t[p].pri == LOW then d else 0)
       && s'.h.servedHigh[p] == (if taken then 0 else s.h.servedHigh[p] + if s.t[p].pri == HIGH then d else 0)
  }

  lemma HistoryStep(s: State, a: Action, p: nat)
    requires Enabled(s, a) && Inv(s) && p < |s.t|
    ensures |Do(s, a).t| == |s.t| && |Do(s, a).h.servedLow| == |Do(s, a).h.servedHigh| == |s.t|
    ensures Told(s, Do(s, a), a, p)
  {
    hide RunnableHigh, AfterExit, AfterKill, FirstWith, FirstZombie, HasKids;
    ShapeKept(s, a);
    if a.Charge? {
      assert ChargeOk(s, a.c) && PriOk(s, s.cpus[a.c].mode.p) && CpuOk(s, a.c);
      hide Inv;
    } else if a.Alloc? {
      assert CpuOk(s, a.c);
      hide Inv;
    } else {
      OtherTold(s, a, p);
      hide Do, Inv, Told;
    }
  }

  lemma OtherTold(s: State, a: Action, p: nat)
    requires Enabled(s, a) && Inv(s) && p < |s.t| && !a.Charge? && !a.Alloc?
    ensures Told(s, Do(s, a), a, p)
  {
    ShapeKept(s, a);
    EntryMoves(s, a, p);
    StartMoves(s, a, p);
    ServedStays(s, a);
    hide Do, Inv, Enabled;
  }

  lemma StartMoves(s: State, a: Action, p: nat)
    requires Enabled(s, a) && Shaped(s) && p < |s.t|
    ensures |Do(s, a).h.start| == |s.t| && |Do(s, a).cpus| == |s.cpus|
    ensures Do(s, a).h.start[p] ==
            if a.Scan? && a.c < |s.cpus| && Do(s, a).cpus[a.c].mode == Dispatched(p) then s.now else s.h.start[p]
  {
    hide RunnableHigh, AfterExit, AfterKill, FirstWith, FirstZombie, HasKids;
  }

  /**
   lop_ticks and hip_ticks are the time served in turns that ended at LOW and at HIGH priority, modulo 2^32; no CPU
   charges more than has passed.
   */
  lemma TicksAreServed(states: seq<State>, acts: seq<Action>, n: nat, p: nat, c: nat)
    requires IsRun(states, acts) && n <= |acts| && p < |states[0].t| && c < |states[0].cpus|
    ensures var s := states[n];
            && |s.t| == |states[0].t| && |s.h.charged| == |states[0].cpus|
            && (s.t[p].status != UNUSED ==>
                  && s.t[p].low == Turns(states, acts, n, p, LOW) % LIMIT
                  && s.t[p].high == Turns(states, acts, n, p, HIGH) % LIMIT)
            && s.h.charged[c] <= s.now
  {
    RunKeepsInv(states, acts, n);
    SizesStay(states, acts, n);
    HistoryIsTold(states, acts, n, p);
    assert TicksOk(states[n], p) && ChargeOk(states[n], c);
  }

  /** At most one CPU holds ptable.lock and no process runs on two CPUs. */
  lemma OneLockHolder(states: seq<State>, acts: seq<Action>, n: nat, c: nat, d: nat)
    requires IsRun(states, acts) && n <= |acts| && c < d < |states[n].cpus|
    ensures !(states[n].cpus[c].mode.Holds() && states[n].cpus[d].mode.Holds())
    ensures states[n].cpus[c].mode.Has() && states[n].cpus[d].mode.Has() ==>
              states[n].cpus[c].mode.p != states[n].cpus[d].mode.p
  {
    RunKeepsInv(states, acts, n);
    assert CpuOk(states[n], c) && CpuOk(states[n], d) && Apart(states[n], c, d);
  }

  // ---- What a pass, a sleep and a fork come to ----

  lemma InvParts(s: State)
    requires Inv(s)
    ensures Control(s) && Family(s) && Pids(s) && Reaping(s) && Priorities(s) && Ticks(s)
  {
  }

  lemma StepInRun(states: seq<State>, acts: seq<Action>, m: nat)
    requires IsRun(states, acts) && m < |acts|
    ensures Control(states[m]) && Family(states[m]) && Enabled(states[m], acts[m])
    ensures states[m + 1] == Do(states[m], acts[m])
  {
    hide Do, Enabled, Inv;
    RunKeepsInv(states, acts, m);
    InvParts(states[m]);
    assert StepAt(states, acts, m);
  }

  /** A sleeping process is left alone, and stays on its channel, until a step that rouses it. */
  lemma {:induction false} SleepsUntilRoused(states: seq<State>, acts: seq<Action>, i: nat, n: nat, j: nat)
    requires IsRun(states, acts) && i <= n <= |acts| && j < |states[0].t|
    requires |states[i].t| == |states[0].t| && states[i].t[j].status == SLEEPING
    requires forall m: nat | i <= m < n && j < |states[m].t| :: !Rouses(states[m], acts[m], j)
    ensures |states[n].t| == |states[0].t|
    ensures states[n].t[j].status == SLEEPING && states[n].t[j].chan == states[i].t[j].chan
    decreases n
  {
    assert |states| == |acts| + 1;
    hide Do, Enabled, IsRun, Control, Family, Rouses;
    SizesStay(states, acts, n);
    if i < n {
      SleepsUntilRoused(states, acts, i, n - 1, j);
      StepInRun(states, acts, n - 1);
      EntryMoves(states[n - 1], acts[n - 1], j);
    }
  }

  ghost predicate Ready(t: Table, j: int, pri: int) {
    0 <= j < |t| && t[j].status == RUNNABLE && t[j].pri == pri
  }

  /** While a CPU scans the table, nobody becomes runnable, ceases to be or changes priority. */
  lemma ScanIsQuiet(s: State, a: Action, c: nat, j: nat, pri: int)
    requires Control(s) && Family(s) && Enabled(s, a) && c < |s.cpus| && s.cpus[c].mode.Scanning? && j < |s.t|
    requires |Do(s, a).cpus| == |s.cpus| && Do(s, a).cpus[c].mode.Scanning?
    ensures |Do(s, a).t| == |s.t| && (Ready(Do(s, a).t, j, pri) <==> Ready(s.t, j, pri))
  {
    EntryMoves(s, a, j);
    assert CpuOk(s, c);
    if 0 <= Actor(a) < |s.cpus| {
      assert CpuOk(s, a.c);
    }
    hide Control, Family;
    if a == Scan(c) {
    } else {
      hide Do;
    }
  }

  lemma ScanAdvances(s: State, a: Action, c: nat)
    requires Control(s) && Enabled(s, a) && c < |s.cpus| && s.cpus[c].mode.Scanning?
    requires |Do(s, a).cpus| == |s.cpus| && Do(s, a).cpus[c].mode.Scanning?
    ensures var u, u' := s.cpus[c], Do(s, a).cpus[c];
            && u'.pri == u.pri && u'.mode.i <= |s.t|
            && (u'.mode.i == u.mode.i || (u'.mode.i == u.mode.i + 1 && !Ready(s.t, u.mode.i, u.pri)))
  {
    assert CpuOk(s, c);
    if a != Scan(c) {
      if c != Actor(a) {
        OtherCpus(s, a, c);
        hide Do;
      }
    }
  }

  /**
   What search_pri must be: what the pass started with, and HIGH from the first turn in the pass on after which the
   process, not a zombie, had priority HIGH.
   */
  ghost function PassPri(states: seq<State>, acts: seq<Action>, n: nat, c: nat): int
    requires IsRun(states, acts) && n <= |acts| && c < |states[0].cpus|
  {
    if n == 0 then LOW
    else
      SizesStay(states, acts, n - 1);
      var s, a := states[n - 1], acts[n - 1];
      if a == StartPass(c) then if exists j :: Ready(s.t, j, HIGH) then HIGH else LOW
      else if a == Charge(c) && EndsHigh(s, c) then HIGH
      else PassPri(states, acts, n - 1, c)
  }

  ghost predicate EndsHigh(s: State, c: nat)
    requires c < |s.cpus|
  {
    var m := s.cpus[c].mode;
    m.Back? && m.p < |s.t| && s.t[m.p].status != ZOMBIE && s.t[m.p].pri == HIGH
  }

  /** In every run search_pri is that, and every dispatch is at it. */
  lemma {:induction false} SearchPriIs(states: seq<State>, acts: seq<Action>, n: nat, c: nat)
    requires IsRun(states, acts) && n <= |acts| && c < |states[0].cpus|
    ensures |states[n].cpus| == |states[0].cpus| && states[n].cpus[c].pri == PassPri(states, acts, n, c)
    ensures n < |acts| && acts[n] == Scan(c) && |states[n + 1].cpus| == |states[0].cpus|
            && states[n + 1].cpus[c].mode.Dispatched? ==>
              Ready(states[n].t, states[n + 1].cpus[c].mode.p, PassPri(states, acts, n, c))
    decreases n
  {
    assert |states| == |acts| + 1;
    SizesStay(states, acts, n);
    if n > 0 {
      SearchPriIs(states, acts, n - 1, c);
      StepInRun(states, acts, n - 1);
      RunPris(states, acts, n - 1);
      RunPass(states, acts, n - 1, c);
      PriMoves(states[n - 1], acts[n - 1], c);
    }
    if n < |acts| && acts[n] == Scan(c) {
      StepInRun(states, acts, n);
      ScanEnds(states[n], c);
    }
  }

  lemma PriMoves(s: State, a: Action, c: nat)
    requires Control(s) && Enabled(s, a) && c < |s.cpus| && PassOk(s, c)
    requires forall j: nat | j < |s.t| :: PriOk(s, j)
    ensures |Do(s, a).cpus| == |s.cpus|
    ensures Do(s, a).cpus[c].pri ==
            if a == StartPass(c) then if exists j :: Ready(s.t, j, HIGH) then HIGH else LOW
            else if a == Charge(c) && EndsHigh(s, c) then HIGH
            else s.cpus[c].pri
  {
    if c != Actor(a) {
      OtherCpus(s, a, c);
      hide Do;
    } else if a == StartPass(c) {
      PassStarts(s, c);
      hide Do;
    } else {
      assert CpuOk(s, c);
      if s.cpus[c].mode.Back? {
        assert PriOk(s, s.cpus[c].mode.p);
      }
    }
  }

  lemma RunPass(states: seq<State>, acts: seq<Action>, i: nat, c: nat)
    requires IsRun(states, acts) && i <= |acts| && c < |states[i].cpus|
    ensures PassOk(states[i], c)
  {
    hide Do, Enabled, Inv;
    RunKeepsInv(states, acts, i);
    InvParts(states[i]);
  }

  ghost predicate SameReady(t: Table, t': Table) {
    |t'| == |t| && forall j: nat, pri | j < |t| :: Ready(t', j, pri) <==> Ready(t, j, pri)
  }

  ghost predicate NoneReady(t: Table, from: int, to: int, pri: int) {
    forall j | from <= j < to :: !Ready(t, j, pri)
  }

  ghost predicate Scans(s: State, c: nat) {
    c < |s.cpus| && s.cpus[c].mode.Scanning?
  }

  /**
   CPU `c`, which was at `u` when the table was `t`, scans on at the same search_pri: nobody became runnable, ceased to
   be or changed priority, and the entries passed over were not runnable at search_pri.
   */
  ghost predicate ScannedOn(t: Table, u: Cpu, s: State, c: nat) {
    && Scans(s, c) && u.mode.Scanning? && s.cpus[c].pri == u.pri
    && u.mode.i <= s.cpus[c].mode.i <= |t| && SameReady(t, s.t) && NoneReady(t, u.mode.i, s.cpus[c].mode.i, u.pri)
  }

  lemma ScanStep(t: Table, u: Cpu, s: State, a: Action, c: nat)
    requires Control(s) && Family(s) && Enabled(s, a) && ScannedOn(t, u, s, c) && Scans(Do(s, a), c)
    ensures ScannedOn(t, u, Do(s, a), c)
  {
    hide Do, Enabled, Control, Family;
    ShapeKept(s, a);
    ScanAdvances(s, a, c);
    forall j: nat, pri | j < |t|
      ensures Ready(Do(s, a).t, j, pri) <==> Ready(t, j, pri)
    {
      ScanIsQuiet(s, a, c, j, pri);
      assert Ready(s.t, j, pri) <==> Ready(t, j, pri);
    }
  }

  /** While a CPU scans, it passes over entries that are not runnable at its search_pri, and only those. */
  lemma {:induction false} ScanSkips(states: seq<State>, acts: seq<Action>, i: nat, n: nat, c: nat)
    requires IsRun(states, acts) && i <= n <= |acts| && forall m: nat | i <= m <= n :: Scans(states[m], c)
    ensures c < |states[i].cpus| && ScannedOn(states[i].t, states[i].cpus[c], states[n], c)
    decreases n
  {
    assert |states| == |acts| + 1 && Scans(states[i], c) && c < |states[i].cpus|;
    if i < n {
      hide Do, Enabled, Control, Family, ScannedOn, IsRun, Scans;
      ScanSkips(states, acts, i, n - 1, c);
      StepInRun(states, acts, n - 1);
      ScanStep(states[i].t, states[i].cpus[c], states[n - 1], acts[n - 1], c);
    } else {
      hide IsRun;
      InBounds(states, acts, i, c);
    }
  }

  lemma InBounds(states: seq<State>, acts: seq<Action>, i: nat, c: nat)
    requires IsRun(states, acts) && i <= |acts| && c < |states[i].cpus| && states[i].cpus[c].mode.Scanning?
    ensures states[i].cpus[c].mode.i <= |states[i].t|
  {
    RunKeepsInv(states, acts, i);
    assert CpuOk(states[i], c);
  }

  /**
   A pass switches first to the first runnable process of HIGH priority, or to the first runnable one if none is HIGH;
   it comes to its end without a switch only if nobody was runnable.
   */
  lemma PassPicks(states: seq<State>, acts: seq<Action>, i: nat, n: nat, c: nat)
    requires IsRun(states, acts) && i < n < |acts| && acts[i] == StartPass(c) && acts[n] == Scan(c)
    requires forall m: nat | i < m <= n :: Scans(states[m], c)
    ensures |states[n + 1].cpus| == |states[0].cpus| && c < |states[0].cpus| && Scans(states[n], c)
    ensures var t, m := states[i].t, states[n + 1].cpus[c].mode;
            var pri := if exists j :: Ready(t, j, HIGH) then HIGH else LOW;
            && (m.Dispatched? ==> Ready(t, m.p, pri) && forall j | 0 <= j < m.p :: !Ready(t, j, pri))
            && (m.Out? ==> forall j | 0 <= j < |t| :: t[j].status != RUNNABLE)
            && (m.Dispatched? || m.Out? || m == Scanning(states[n].cpus[c].mode.i + 1))
  {
    assert |states| == |acts| + 1;
    hide Do, Enabled, Inv, Control, Family, IsRun;
    StepInRun(states, acts, i);
    PassStarts(states[i], c);
    SizesStay(states, acts, i);
    SizesStay(states, acts, n + 1);
    ScanSkips(states, acts, i + 1, n, c);
    StepInRun(states, acts, n);
    ScanEnds(states[n], c);
    RunPris(states, acts, i);
    var t := states[i].t;
    assert t == states[i + 1].t;
    var k, m := states[n].cpus[c].mode.i, states[n + 1].cpus[c].mode;
    var pri := if exists j :: Ready(t, j, HIGH) then HIGH else LOW;
    assert pri == states[n].cpus[c].pri;
    if m.Dispatched? {
      assert Ready(states[n].t, k, pri);
    }
    if m.Out? {
      forall j | 0 <= j < |t|
        ensures t[j].status != RUNNABLE
      {
        assert !Ready(t, j, pri);
        assert PriOk(states[i], j);
      }
    }
  }

  lemma RunPris(states: seq<State>, acts: seq<Action>, i: nat)
    requires IsRun(states, acts) && i <= |acts|
    ensures forall j: nat | j < |states[i].t| :: PriOk(states[i], j)
  {
    hide Do, Enabled, Inv;
    RunKeepsInv(states, acts, i);
    InvParts(states[i]);
  }

  lemma PassStarts(s: State, c: nat)
    requires Enabled(s, StartPass(c))
    ensures var s' := Do(s, StartPass(c));
            && s'.t == s.t && |s'.cpus| == |s.cpus| && c < |s.cpus| && s'.cpus[c].mode == Scanning(0)
            && s'.cpus[c].pri == if exists j :: Ready(s.t, j, HIGH) then HIGH else LOW
  {
    if RunnableHigh(s.t) {
      var j :| 0 <= j < |s.t| && s.t[j].status == RUNNABLE && s.t[j].pri == HIGH;
      assert Ready(s.t, j, HIGH);
    }
  }

  lemma ScanEnds(s: State, c: nat)
    requires Enabled(s, Scan(c))
    ensures var s' := Do(s, Scan(c));
            && |s'.cpus| == |s.cpus| && c < |s.cpus| && s.cpus[c].mode.Scanning?
            && var i := s.cpus[c].mode.i;
               s'.cpus[c].mode == if i == |s.t| then Out
                                  else if Ready(s.t, i, s.cpus[c].pri) then Dispatched(i)
                                  else Scanning(i + 1)
  {
  }

  /** Process `p` takes entry `u` for its child. */
  ghost predicate TakesFor(s: State, a: Action, p: nat, u: nat) {
    a.Alloc? && Own(s, a, p) && Takes(s, a, u)
  }

  ghost predicate Embryo(s: State, u: nat) {
    u < |s.t| && s.t[u].status == EMBRYO
  }

  /** While entry `u` is an embryo it keeps its pid, and the process `p` that took it stays in fork. */
  lemma {:induction false} EmbryoKeeps(states: seq<State>, acts: seq<Action>, i: nat, n: nat, p: nat, u: nat)
    requires IsRun(states, acts) && i < n <= |acts| && p < |states[0].t| && u < |states[0].t|
    requires TakesFor(states[i], acts[i], p, u)
    requires forall m: nat | i < m <= n :: Embryo(states[m], u)
    ensures |states[n].t| == |states[0].t| && states[n].t[u].pid == states[i].nextpid
    ensures states[n].t[p].place.Forking? && states[n].t[p].place.child == u
    decreases n
  {
    assert |states| == |acts| + 1;
    hide Do, IsRun, TakesFor, Enabled, Control, Family;
    StepInRun(states, acts, n - 1);
    SizesStay(states, acts, n - 1);
    SizesStay(states, acts, n);
    if i + 1 < n {
      EmbryoKeeps(states, acts, i, n - 1, p, u);
      EmbryoStays(states[n - 1], acts[n - 1], p, u);
    } else {
      EmbryoTaken(states[i], acts[i], p, u);
    }
  }

  lemma EmbryoTaken(s: State, a: Action, p: nat, u: nat)
    requires Control(s) && Family(s) && Enabled(s, a) && p < |s.t| && u < |s.t| && TakesFor(s, a, p, u)
    ensures |Do(s, a).t| == |s.t|
    ensures Do(s, a).t[u].pid == s.nextpid && Do(s, a).t[p].place.Forking? && Do(s, a).t[p].place.child == u
  {
    hide Do, Control, Family;
    EntryMoves(s, a, u);
    EntryMoves(s, a, p);
  }

  lemma EmbryoStays(s: State, a: Action, p: nat, u: nat)
    requires Control(s) && Family(s) && Enabled(s, a) && p < |s.t| && u < |s.t|
    requires |Do(s, a).t| == |s.t| && s.t[u].status == Do(s, a).t[u].status == EMBRYO
    requires s.t[p].place.Forking? && s.t[p].place.child == u
    ensures Do(s, a).t[u].pid == s.t[u].pid && Do(s, a).t[p].place.Forking? && Do(s, a).t[p].place.child == u
  {
    hide Do, Control, Family;
    EntryMoves(s, a, u);
    EntryMoves(s, a, p);
  }

  /**
   fork: the entry that `p` takes is handed on by `p` only, and becomes a runnable child of `p` with LOW priority, no
   ticks and a pid never used before.
   */
  lemma ForkDelivers(states: seq<State>, acts: seq<Action>, i: nat, n: nat, p: nat, u: nat)
    requires IsRun(states, acts) && i < n < |acts| && p < |states[0].t| && u < |states[0].t|
    requires TakesFor(states[i], acts[i], p, u)
    requires forall m: nat | i < m <= n :: Embryo(states[m], u)
    requires acts[n].ForkRuns? && Forks(states[n], acts[n], u)
    ensures Own(states[n], acts[n], p)
    ensures |states[n + 1].t| == |states[0].t|
    ensures var e := states[n + 1].t[u];
            && e.status == RUNNABLE && e.parent == p && e.pid == states[i].nextpid && e.pri == LOW
            && e.low == e.high == 0
    ensures forall m: nat, j: nat | m <= i && j < |states[m].t| && states[m].t[j].status != UNUSED ::
              states[m].t[j].pid < states[i].nextpid
  {
    assert |states| == |acts| + 1;
    hide Do, IsRun, Inv, Own, TakesFor, Forks, Enabled;
    EmbryoKeeps(states, acts, i, n, p, u);
    StepInRun(states, acts, n);
    RunKeepsInv(states, acts, n);
    SizesStay(states, acts, n + 1);
    ForkEnds(states[n], acts[n], p, u);
    forall m: nat, j: nat | m <= i && j < |states[m].t| && states[m].t[j].status != UNUSED
      ensures states[m].t[j].pid < states[i].nextpid
    {
      PidsBelow(states, acts, m, i, j);
    }
  }

  lemma ForkEnds(s: State, a: Action, p: nat, u: nat)
    requires Inv(s) && Enabled(s, a) && a.ForkRuns? && Forks(s, a, u) && p < |s.t|
    requires s.t[p].place.Forking? && s.t[p].place.child == u && Embryo(s, u)
    ensures Own(s, a, p) && |Do(s, a).t| == |s.t|
    ensures var e := Do(s, a).t[u];
            && e.status == RUNNABLE && e.parent == p && e.pid == s.t[u].pid && e.pri == LOW && e.low == e.high == 0
  {
    var q := s.cpus[a.c].mode.p;
    assert ForkOk(s, q) && ForksApart(s, p, q) && TicksOk(s, u);
    TicksStay(s, a, u);
    EntryMoves(s, a, u);
    hide Do, Control, Pids, Reaping, Priorities, Ticks;
  }

  lemma {:induction false} PidsBelow(states: seq<State>, acts: seq<Action>, m: nat, i: nat, j: nat)
    requires IsRun(states, acts) && m <= i <= |acts| && j < |states[m].t| && states[m].t[j].status != UNUSED
    ensures states[m].t[j].pid < states[i].nextpid
  {
    hide Do, Inv;
    if m < i {
      PidsBelow(states, acts, m, i - 1, j);
      StepInRun(states, acts, i - 1);
      PidsRise(states[i - 1], acts[i - 1]);
    } else {
      RunKeepsInv(states, acts, m);
      InvParts(states[m]);
      assert PidOk(states[m], j);
    }
  }

  lemma PidsRise(s: State, a: Action)
    requires Enabled(s, a)
    ensures s.nextpid <= Do(s, a).nextpid
  {
  }
}
