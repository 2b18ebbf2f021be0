/** Priorities within a scheduler pass, and who is charged for which ticks. */
module ProcScheduling {
  import opened ProcTable
  import opened ProcProtocol
  import opened ProcInvariants
  import opened ProcLifecycle

  // ---- The fields that only the scheduler changes ----

  lemma SchedTimeStays(s: State, a: Action, j: nat)
    requires Enabled(s, a) && !a.Scan? && j < |s.t|
    ensures |Do(s, a).t| == |s.t| && Do(s, a).t[j].schedTime == s.t[j].schedTime
  {
    if a.Kill? {
      KillTouchesOne(s.t, a.pid, 0, j);
    }
    if a.Exit? && s.cpus[a.c].mode.p != s.init && s.t[s.cpus[a.c].mode.p].parent >= 0 {
      ExitEntry(s.t, s.cpus[a.c].mode.p, s.init, j);
    }
    hide AfterKill, AfterExit, FirstWith, FirstZombie, HasKids, RunnableHigh;
  }

  lemma TicksStay(s: State, a: Action, j: nat)
    requires Control(s) && Family(s) && Enabled(s, a) && !a.Charge? && !a.Alloc? && !a.ForkLinks? && j < |s.t|
    ensures |Do(s, a).t| == |s.t|
    ensures var e, e' := s.t[j], Do(s, a).t[j];
            && e'.low == e.low && e'.high == e.high
            && (e'.status != UNUSED ==> e.status != UNUSED) && (e'.status == EMBRYO ==> e.status == EMBRYO)
  {
    if 0 <= Actor(a) < |s.cpus| {
      assert CpuOk(s, a.c);
    }
    if a.ForkFails? || a.ForkRuns? {
      assert ForkOk(s, s.cpus[a.c].mode.p);
    }
    hide Control, Family, AfterKill, AfterExit, FirstWith, HasKids, RunnableHigh, WokenByExit;
    if a.Kill? {
      KillTouchesOne(s.t, a.pid, 0, j);
    }
    if a.Exit? && s.cpus[a.c].mode.p != s.init && s.t[s.cpus[a.c].mode.p].parent >= 0 {
      ExitEntry(s.t, s.cpus[a.c].mode.p, s.init, j);
    }
  }

  // ---- Ticks ----

  lemma ChargeAdds(ticks: nat, served: nat, start: nat, now: nat)
    requires ticks == served % LIMIT && start <= now
    ensures var d := Elapsed(now, start % LIMIT);
            d <= now - start && (ticks + d) % LIMIT == (served + now - start) % LIMIT
  {
    var d := Elapsed(now, start % LIMIT);
    var a, b := now / LIMIT, start / LIMIT;
    assert now % LIMIT - start % LIMIT == now - start - LIMIT * (a - b);
    SameMod(now - start, now % LIMIT - start % LIMIT, a - b);
    var e, f := (now - start) / LIMIT, served / LIMIT;
    assert now - start == d + LIMIT * e && served == ticks + LIMIT * f;
    assert served + now - start == ticks + d + LIMIT * (e + f);
    SameMod(served + now - start, ticks + d, e + f);
  }

  lemma SameMod(a: int, b: int, k: int)
    requires a == b + LIMIT * k || b == a + LIMIT * k || b == a - LIMIT * k
    ensures a % LIMIT == b % LIMIT
  {
  }

  lemma ServedStays(s: State, a: Action)
    requires Enabled(s, a) && Shaped(s) && !a.Charge? && !a.Alloc?
    ensures Do(s, a).h.servedLow == s.h.servedLow && Do(s, a).h.servedHigh == s.h.servedHigh
  {
  }

  lemma TicksOkKept(s: State, a: Action, j: nat)
    requires Control(s) && Family(s) && Ticks(s) && Enabled(s, a) && j < |s.t|
    ensures |Do(s, a).h.servedLow| == |Do(s, a).h.servedHigh| == |Do(s, a).t| == |s.t| && TicksOk(Do(s, a), j)
  {
    hide Family;
    if a.Charge? {
      ChargeKeepsTicks(s, a, j);
    } else if a.Alloc? || a.ForkLinks? {
      NewEntryTicks(s, a, j);
    } else {
      ShapeKept(s, a);
      assert TicksOk(s, j);
      TicksStay(s, a, j);
      ServedStays(s, a);
      hide Do, Enabled;
    }
  }

  lemma ChargeKeepsTicks(s: State, a: Action, j: nat)
    requires Control(s) && Ticks(s) && Enabled(s, a) && a.Charge? && j < |s.t|
    ensures |Do(s, a).h.servedLow| == |Do(s, a).h.servedHigh| == |Do(s, a).t| == |s.t| && TicksOk(Do(s, a), j)
  {
    assert TicksOk(s, j) && CpuOk(s, a.c) && ChargeOk(s, a.c);
    var p := s.cpus[a.c].mode.p;
    if p == j {
      ChargeAdds(s.t[p].low, s.h.servedLow[p], s.h.start[p], s.now);
      ChargeAdds(s.t[p].high, s.h.servedHigh[p], s.h.start[p], s.now);
    }
  }

  /** An entry that is taken starts with no ticks, and fork hands on none. */
  lemma NewEntryTicks(s: State, a: Action, j: nat)
    requires Control(s) && Family(s) && Ticks(s) && Enabled(s, a) && (a.Alloc? || a.ForkLinks?) && j < |s.t|
    ensures |Do(s, a).h.servedLow| == |Do(s, a).h.servedHigh| == |Do(s, a).t| == |s.t| && TicksOk(Do(s, a), j)
  {
    hide Family;
    assert TicksOk(s, j) && CpuOk(s, a.c);
    if a.ForkLinks? {
      ForkChildIsEmbryo(s, a.c);
    }
  }

  lemma ForkChildIsEmbryo(s: State, c: nat)
    requires Family(s) && At(s, c) && InFork(s, s.cpus[c].mode.p)
    ensures Child(s, c).status == EMBRYO
  {
    assert ForkOk(s, s.cpus[c].mode.p);
  }

  lemma HistoryStays(s: State, a: Action)
    requires Enabled(s, a) && Shaped(s)
    ensures var s' := Do(s, a);
            && s.now <= s'.now && |s'.h.charged| == |s.cpus| && |s'.h.start| == |s.t|
            && (!a.Scan? ==> s'.h.start == s.h.start)
            && (!a.Charge? ==> s'.h.charged == s.h.charged)
  {
  }

  lemma ChargeOkKept(s: State, a: Action, c: nat)
    requires Control(s) && Ticks(s) && Enabled(s, a) && c < |s.cpus|
    ensures var s' := Do(s, a);
            |s'.cpus| == |s'.h.charged| == |s.cpus| && |s'.h.start| == |s'.t| == |s.t| && ChargeOk(s', c)
  {
    ShapeKept(s, a);
    HistoryStays(s, a);
    assert ChargeOk(s, c) && CpuOk(s, c);
    if c == Actor(a) {
      ActorCharge(s, a, c);
    } else {
      OtherCpus(s, a, c);
      if 0 <= Actor(a) < |s.cpus| {
        assert CpuOk(s, a.c);
      }
      var m := s.cpus[c].mode;
      if !a.Scan? && (m.Has() || m.Back?) {
        SchedTimeStays(s, a, m.p);
        hide Do;
      }
    }
  }

  lemma ActorCharge(s: State, a: Action, c: nat)
    requires Enabled(s, a) && Shaped(s) && c < |s.cpus| && c == Actor(a) && CpuOk(s, c) && ChargeOk(s, c)
             && |s.h.charged| == |s.cpus|
    ensures var s' := Do(s, a);
            |s'.cpus| == |s'.h.charged| == |s.cpus| && |s'.h.start| == |s'.t| == |s.t| && ChargeOk(s', c)
  {
    ShapeKept(s, a);
    HistoryStays(s, a);
    var m := s.cpus[c].mode;
    if a.Charge? {
      ChargeAdds(0, 0, s.h.start[m.p], s.now);
    } else if m.Has() {
      SchedTimeStays(s, a, m.p);
      ActorKeeps(s, a, c);
      hide Do;
    }
  }

  /** A process that runs stays with its CPU until it is charged. */
  lemma ActorKeeps(s: State, a: Action, c: nat)
    requires Enabled(s, a) && c < |s.cpus| && c == Actor(a) && s.cpus[c].mode.Has() && CpuOk(s, c)
    ensures c < |Do(s, a).cpus|
    ensures var m' := Do(s, a).cpus[c].mode; (m'.Has() || m'.Back?) && m'.p == s.cpus[c].mode.p
  {
  }

  lemma TicksKept(s: State, a: Action)
    requires Control(s) && Family(s) && Ticks(s) && Enabled(s, a)
    ensures Ticks(Do(s, a))
  {
    hide Control, Family, Do, TicksOk, ChargeOk;
    ShapeKept(s, a);
    forall j: nat | j < |s.t|
      ensures TicksOk(Do(s, a), j)
    {
      TicksOkKept(s, a, j);
    }
    forall c: nat | c < |s.cpus|
      ensures ChargeOk(Do(s, a), c)
    {
      ChargeOkKept(s, a, c);
    }
  }

  // ---- Priorities ----

  lemma PriKept(s: State, a: Action, j: nat)
    requires Control(s) && Family(s) && Enabled(s, a) && j < |s.t| && PriOk(s, j)
    ensures |Do(s, a).t| == |s.t| && PriOk(Do(s, a), j)
  {
    hide Control, Family, Do, Enabled;
    EntryMoves(s, a, j);
  }

  /** search_pri and the pass change only at the start of a pass and, upwards, after a process ran. */
  lemma PassStays(s: State, a: Action, c: nat)
    requires Control(s) && Enabled(s, a) && c < |s.cpus| && PassOk(s, c)
    requires forall p: nat | p < |s.t| :: PriOk(s, p)
    ensures |Do(s, a).cpus| == |s.cpus| && PassOk(Do(s, a), c)
    ensures var u, u' := s.cpus[c], Do(s, a).cpus[c];
            if a == StartPass(c) then u'.pass == u.pass + 1
            else u'.pass == u.pass && u'.seen == u.seen && u.pri <= u'.pri
  {
    if c == Actor(a) {
      assert CpuOk(s, c);
      if s.cpus[c].mode.Back? {
        assert PriOk(s, s.cpus[c].mode.p);
      }
      hide Control;
      ActorPass(s, a, c);
    } else {
      OtherCpus(s, a, c);
      hide Do, Control;
    }
  }

  lemma ActorPass(s: State, a: Action, c: nat)
    requires Enabled(s, a) && c < |s.cpus| && c == Actor(a) && CpuOk(s, c) && PassOk(s, c)
    requires s.cpus[c].mode.Back? ==> PriOk(s, s.cpus[c].mode.p)
    ensures |Do(s, a).cpus| == |s.cpus| && PassOk(Do(s, a), c)
    ensures var u, u' := s.cpus[c], Do(s, a).cpus[c];
            if a.StartPass? then u'.pass == u.pass + 1
            else u'.pass == u.pass && u'.seen == u.seen && u.pri <= u'.pri
  {
    hide RunnableHigh, FirstWith, FirstZombie, HasKids, AfterExit, AfterKill;
  }

  lemma NeverBadPriority(s: State, a: Action)
    requires Control(s) && Enabled(s, a) && s.halt != BadPriority && forall p: nat | p < |s.t| :: PriOk(s, p)
    ensures Do(s, a).halt != BadPriority
  {
    if a.Charge? {
      assert CpuOk(s, a.c) && PriOk(s, s.cpus[a.c].mode.p);
    }
  }

  /** Only Scan adds a dispatch: at the current search_pri, of the current pass. */
  lemma RunsGrow(s: State, a: Action)
    requires Enabled(s, a)
    ensures var s' := Do(s, a);
            || s'.h.runs == s.h.runs
            || (a.Scan? && s'.h.runs == s.h.runs + [Dispatch(a.c, s.cpus[a.c].pass, s.cpus[a.c].pri, s.cpus[a.c].seen)])
  {
  }

  lemma PrioritiesKept(s: State, a: Action)
    requires Control(s) && Family(s) && Priorities(s) && Enabled(s, a)
    ensures Priorities(Do(s, a))
  {
    hide Control, Family, Do, PriOk;
    var s' := Do(s, a);
    ShapeKept(s, a);
    NeverBadPriority(s, a);
    RunsGrow(s, a);
    forall j: nat | j < |s.t|
      ensures PriOk(s', j)
    {
      PriKept(s, a, j);
    }
    forall c: nat | c < |s.cpus|
      ensures PassOk(s', c)
    {
      PassStays(s, a, c);
    }
    forall i: nat | i < |s'.h.runs|
      ensures RunOk(s', i)
    {
      if i < |s.h.runs| {
        assert RunOk(s, i);
        PassStays(s, a, s.h.runs[i].cpu);
      } else {
        assert PassOk(s, a.c);
        PassStays(s, a, a.c);
      }
    }
    forall i: nat, j: nat | i < |s'.h.runs| && j < |s'.h.runs|
      ensures Rising(s', i, j)
    {
      if i < |s.h.runs| {
        assert RunOk(s, i);
        if j < |s.h.runs| {
          assert Rising(s, i, j);
        }
      }
    }
  }
}
