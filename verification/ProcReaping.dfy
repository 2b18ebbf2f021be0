/** Pids are unique, and every exited process is reaped at most once under its own pid. */
module ProcReaping {
  import opened ProcTable
  import opened ProcProtocol
  import opened ProcInvariants
  import opened ProcFamily

  /** Who is in the table under which pid: `u` is the entry that a step allocates, -1 if none. */
  ghost predicate SamePids(s: State, s': State, u: int) {
    && |s'.t| == |s.t| && u < |s.t| && s'.nextpid == s.nextpid + (if u >= 0 then 1 else 0)
    && (forall j: nat | j < |s.t| && j != u && s'.t[j].status != UNUSED ::
          s.t[j].status != UNUSED && s'.t[j].pid == s.t[j].pid)
    && (u >= 0 ==> s'.t[u].pid == s.nextpid && s.t[u].status == UNUSED && s'.t[u].status == EMBRYO)
  }

  lemma SamePidsKeepsPids(s: State, s': State, u: int)
    requires Pids(s) && SamePids(s, s', u)
    ensures Pids(s')
  {
    forall p: nat | p < |s.t|
      ensures PidOk(s', p)
    {
      assert PidOk(s, p);
    }
    forall p: nat, q: nat | p < |s.t| && q < |s.t|
      ensures PidsApart(s', p, q)
    {
      assert PidsApart(s, p, q) && PidOk(s, p) && PidOk(s, q);
    }
  }

  lemma SoftPids(s: State, s': State)
    requires |s'.t| == |s.t| && s'.nextpid == s.nextpid && forall j: nat | j < |s.t| :: Soft(s, s', j)
    ensures SamePids(s, s', -1)
  {
    forall j: nat | j < |s.t|
      ensures s'.t[j].pid == s.t[j].pid && (s'.t[j].status == UNUSED <==> s.t[j].status == UNUSED)
    {
      assert Soft(s, s', j);
    }
  }

  lemma SoftKeepsReaping(s: State, s': State)
    requires Reaping(s) && |s'.t| == |s.t| && s'.nextpid == s.nextpid && forall j: nat | j < |s.t| :: Soft(s, s', j)
    requires s'.h.exited == s.h.exited && s'.h.reaped == s.h.reaped
    ensures Reaping(s')
  {
    forall j: nat | j < |s.t|
      ensures Accounted(s', j) && s'.t[j].pid == s.t[j].pid && (s'.t[j].status == ZOMBIE <==> s.t[j].status == ZOMBIE)
    {
      assert Soft(s, s', j) && Accounted(s, j);
    }
    forall x | x in s.h.exited && IsZombie(s, x)
      ensures IsZombie(s', x)
    {
      var p: nat :| p < |s.t| && s.t[p].status == ZOMBIE && s.t[p].pid == x;
      assert s'.t[p].status == ZOMBIE;
    }
  }

  lemma ReapPids(s: State, s': State, p: nat, z: nat)
    requires Reaped(s, s', p, z) && s'.nextpid == s.nextpid
    ensures SamePids(s, s', -1)
  {
  }

  lemma ReapKeepsReaping(s: State, s': State, p: nat, z: nat)
    requires Pids(s) && Reaping(s) && Reaped(s, s', p, z) && s'.nextpid == s.nextpid
    requires s'.h == s.h.(reaped := s.h.reaped + [s.t[z].pid])
    ensures Reaping(s')
  {
    assert Accounted(s, z);
    forall j: nat | j < |s.t|
      ensures Accounted(s', j)
    {
      assert Accounted(s, j) && PidsApart(s, j, z);
    }
    forall x | x in s.h.exited
      ensures x in s'.h.reaped || IsZombie(s', x)
    {
      if x !in s.h.reaped && x != s.t[z].pid {
        var j: nat :| j < |s.t| && s.t[j].status == ZOMBIE && s.t[j].pid == x;
        assert s'.t[j] == s.t[j];
      }
    }
  }

  lemma ExitPids(s: State, s': State, p: nat)
    requires Exited(s, s', p) && s'.nextpid == s.nextpid
    ensures SamePids(s, s', -1)
  {
    forall j: nat | j < |s.t|
      ensures s'.t[j].pid == s.t[j].pid && (s'.t[j].status == UNUSED <==> s.t[j].status == UNUSED)
    {
      ExitEntry(s.t, p, s.init, j);
    }
  }

  lemma ExitKeepsReaping(s: State, s': State, p: nat)
    requires Pids(s) && Reaping(s) && Exited(s, s', p) && s'.nextpid == s.nextpid
    requires s'.h == s.h.(exited := s.h.exited + {s.t[p].pid})
    ensures Reaping(s')
  {
    hide AfterExit, WokenByExit;
    assert Accounted(s, p) && PidOk(s, p);
    forall j: nat | j < |s.t|
      ensures Accounted(s', j)
      ensures s'.t[j].pid == s.t[j].pid && (s.t[j].status == ZOMBIE || j == p <==> s'.t[j].status == ZOMBIE)
    {
      ExitEntry(s.t, p, s.init, j);
      assert Accounted(s, j) && PidsApart(s, j, p);
    }
    forall x | x in s'.h.exited
      ensures x in s'.h.reaped || IsZombie(s', x)
    {
      if x == s.t[p].pid {
        assert s'.t[p].status == ZOMBIE && s'.t[p].pid == x;
      } else if x !in s.h.reaped {
        var j: nat :| j < |s.t| && s.t[j].status == ZOMBIE && s.t[j].pid == x;
        assert s'.t[j].status == ZOMBIE;
      }
    }
  }

  lemma ForkKeepsReaping(s: State, s': State, p: nat, u: nat)
    requires Pids(s) && Reaping(s) && Forked(s, s', p, u) && s'.nextpid >= s.nextpid
    requires s'.h.exited == s.h.exited && s'.h.reaped == s.h.reaped
    requires s.t[u].status == UNUSED ==> s'.t[u].pid == s.nextpid
    ensures Reaping(s')
  {
    forall j: nat | j < |s.t|
      ensures Accounted(s', j)
    {
      assert Accounted(s, j);
    }
    forall x | x in s.h.exited && IsZombie(s, x)
      ensures IsZombie(s', x)
    {
      var j: nat :| j < |s.t| && s.t[j].status == ZOMBIE && s.t[j].pid == x;
      assert s'.t[j] == s.t[j];
    }
  }

  lemma HaltKeepsReaping(s: State, h: Halt)
    requires Pids(s) && Reaping(s)
    ensures Pids(s.(halt := h)) && Reaping(s.(halt := h))
  {
    var s' := s.(halt := h);
    forall j: nat | j < |s.t|
      ensures PidOk(s', j) && Accounted(s', j)
    {
      assert PidOk(s, j) && Accounted(s, j);
    }
    forall p: nat, q: nat | p < |s.t| && q < |s.t|
      ensures PidsApart(s', p, q)
    {
      assert PidsApart(s, p, q);
    }
    forall x | IsZombie(s, x)
      ensures IsZombie(s', x)
    {
      var j: nat :| j < |s.t| && s.t[j].status == ZOMBIE && s.t[j].pid == x;
      assert s'.t[j] == s.t[j];
    }
  }

  lemma PidsKept(s: State, a: Action)
    requires Control(s) && Family(s) && Pids(s) && Reaping(s) && Enabled(s, a)
    ensures Pids(Do(s, a)) && Reaping(Do(s, a))
  {
    hide Control, Family, Pids, Reaping, Do, Soft, Reaped, Exited, SamePids;
    var s' := Do(s, a);
    if InForkCall(a) {
      ForkIsForked(s, a);
      var p := s.cpus[a.c].mode.p;
      var u := if a.Alloc? then FirstWith(s.t, UNUSED, 0) else s.t[p].place.child;
      if u < |s.t| {
        ForkPids(s, s', p, u);
        SamePidsKeepsPids(s, s', if a.Alloc? then u else -1);
        ForkKeepsReaping(s, s', p, u);
      }
    } else if a.Exit? {
      FamilyInit(s);
      ExitIsExited(s, a);
      var p := s.cpus[a.c].mode.p;
      if p == s.init || s.t[p].parent < 0 {
        HaltKeepsReaping(s, InitExits);
      } else {
        ExitPids(s, s', p);
        SamePidsKeepsPids(s, s', -1);
        ExitKeepsReaping(s, s', p);
      }
    } else if Reaps(s, a) {
      ReapIsReaped(s, a);
      var p := s.cpus[a.c].mode.p;
      ReapPids(s, s', p, FirstZombie(s.t, p, 0));
      SamePidsKeepsPids(s, s', -1);
      ReapKeepsReaping(s, s', p, FirstZombie(s.t, p, 0));
    } else {
      ShapeKept(s, a);
      SoftStepAll(s, a);
      SoftPids(s, s');
      SamePidsKeepsPids(s, s', -1);
      SoftKeepsReaping(s, s');
    }
  }

  lemma FamilyInit(s: State)
    requires Family(s)
    ensures s.init < |s.t|
  {
  }

  lemma SoftStepAll(s: State, a: Action)
    requires Control(s) && Enabled(s, a) && IsSoft(s, a)
    ensures |Do(s, a).t| == |s.t| && Do(s, a).nextpid == s.nextpid
    ensures Do(s, a).h.exited == s.h.exited && Do(s, a).h.reaped == s.h.reaped
    ensures forall j: nat | j < |s.t| :: Soft(s, Do(s, a), j)
  {
    hide Control, Do, Soft;
    ShapeKept(s, a);
    assert |s.t| > 0;
    SoftStep(s, a, 0);
    forall j: nat | j < |s.t|
      ensures Soft(s, Do(s, a), j)
    {
      SoftStep(s, a, j);
    }
  }

  lemma ForkPids(s: State, s': State, p: nat, u: nat)
    requires Forked(s, s', p, u)
    requires s'.nextpid == s.nextpid + (if s.t[u].status == UNUSED then 1 else 0)
    requires s.t[u].status == UNUSED ==> s'.t[u].pid == s.nextpid
    ensures SamePids(s, s', if s.t[u].status == UNUSED then u else -1)
  {
  }
}
