/** Parents, children and pids: what exit, wait and fork keep. */
module ProcFamily {
  import opened ProcTable
  import opened ProcProtocol
  import opened ProcInvariants

  // ---- Steps that make and remove nobody ----

  /** Entry `j` keeps its parent, its pid and its life. */
  ghost predicate Soft(s: State, s': State, j: nat)
    requires j < |s.t| == |s'.t|
  {
    var e, e' := s.t[j], s'.t[j];
    && e'.parent == e.parent && e'.pid == e.pid && (e'.status == e.status || (e.Alive() && e'.Alive()))
    && (e'.place == e.place || (e.Alive() && !e.place.Forking? && !e'.place.Forking?))
    && (e.place.Forking? && e'.status == SLEEPING ==> e.status == SLEEPING)
    && (e'.status == SLEEPING && e'.place == Waiting ==>
          || (e.status == SLEEPING && e.place == Waiting && e'.chan == e.chan)
          || (e'.chan == OfProc(j) && forall k: nat | k < |s.t| :: !ZombieChild(s.t, j, k)))
  }

  ghost predicate Reaps(s: State, a: Action)
    requires Enabled(s, a)
  {
    a.Wait? && FirstZombie(s.t, s.cpus[a.c].mode.p, 0) < |s.t|
  }

  ghost predicate IsSoft(s: State, a: Action)
    requires Enabled(s, a)
  {
    !InForkCall(a) && !a.Exit? && !Reaps(s, a)
  }

  lemma SoftStep(s: State, a: Action, j: nat)
    requires Control(s) && Enabled(s, a) && IsSoft(s, a) && j < |s.t|
    ensures |Do(s, a).t| == |s.t| && Soft(s, Do(s, a), j) && Do(s, a).init == s.init && Do(s, a).nextpid == s.nextpid
    ensures Do(s, a).h.exited == s.h.exited && Do(s, a).h.reaped == s.h.reaped
  {
    if 0 <= Actor(a) < |s.cpus| {
      assert CpuOk(s, Actor(a));
    }
    hide Control, CpuOk, HasKids, RunnableHigh;
    if a.Kill? {
      KillTouchesOne(s.t, a.pid, 0, j);
    }
  }

  lemma SoftKeepsFamily(s: State, s': State)
    requires Family(s) && |s'.t| == |s.t| && s'.init == s.init && forall j: nat | j < |s.t| :: Soft(s, s', j)
    ensures Family(s')
  {
    hide Soft, ParentOk, ForkOk, ForksApart, WaitOk;
    assert s.init < |s.t| && Soft(s, s', s.init);
    forall p: nat | p < |s.t|
      ensures ParentOk(s', p) && ForkOk(s', p) && WaitOk(s', p)
    {
      assert ParentOk(s, p) && ForkOk(s, p) && WaitOk(s, p);
      SoftKeepsEntry(s, s', p);
    }
    forall p: nat, q: nat | p < |s.t| && q < |s.t|
      ensures ForksApart(s', p, q)
    {
      assert ForksApart(s, p, q) && Soft(s, s', p) && Soft(s, s', q);
      SoftKeepsForksApart(s, s', p, q);
    }
    SoftAlive(s, s', s.init);
  }

  lemma SoftAlive(s: State, s': State, j: nat)
    requires j < |s.t| == |s'.t| && Soft(s, s', j)
    ensures s'.t[j].Alive() == s.t[j].Alive() && s'.t[j].parent == s.t[j].parent
    ensures s'.t[j].status == ZOMBIE <==> s.t[j].status == ZOMBIE
  {
  }

  lemma SoftKeepsForksApart(s: State, s': State, p: nat, q: nat)
    requires p < |s.t| == |s'.t| && q < |s.t| && Soft(s, s', p) && Soft(s, s', q) && ForksApart(s, p, q)
    ensures ForksApart(s', p, q)
  {
  }

  lemma SoftKeepsEntry(s: State, s': State, p: nat)
    requires p < |s.t| == |s'.t| && s'.init == s.init && forall j: nat | j < |s.t| :: Soft(s, s', j)
    requires ParentOk(s, p) && ForkOk(s, p) && WaitOk(s, p)
    ensures ParentOk(s', p) && ForkOk(s', p) && WaitOk(s', p)
  {
    assert Soft(s, s', p);
    if s.t[p].parent >= 0 {
      assert Soft(s, s', s.t[p].parent);
    }
    if s.t[p].place.Forking? {
      assert Soft(s, s', s.t[p].place.child);
    }
    forall k: nat | k < |s.t|
      ensures ZombieChild(s'.t, p, k) <==> ZombieChild(s.t, p, k)
    {
      assert Soft(s, s', k);
    }
  }

  // ---- wait reaps a zombie ----

  ghost predicate Reaped(s: State, s': State, p: nat, z: nat) {
    && p < |s.t| && z < |s.t| && z != p && s'.init == s.init
    && s.t[p].status == RUNNING && !s.t[p].place.Forking? && s.t[z].status == ZOMBIE && s.t[z].parent == p
    && s'.t == s.t[p := s.t[p].(chan := NoChan, place := Anywhere)]
                  [z := s.t[z].(status := UNUSED, pid := 0, parent := -1, killed := false)]
  }

  lemma ReapIsReaped(s: State, a: Action)
    requires Control(s) && Family(s) && Enabled(s, a) && Reaps(s, a)
    ensures Reaped(s, Do(s, a), s.cpus[a.c].mode.p, FirstZombie(s.t, s.cpus[a.c].mode.p, 0))
    ensures var z := FirstZombie(s.t, s.cpus[a.c].mode.p, 0);
            Do(s, a).nextpid == s.nextpid && Do(s, a).h == s.h.(reaped := s.h.reaped + [s.t[z].pid])
  {
    assert CpuOk(s, a.c) && ParentOk(s, FirstZombie(s.t, s.cpus[a.c].mode.p, 0));
    hide Control, CpuOk, Family;
  }

  lemma ReapKeepsFamily(s: State, s': State, p: nat, z: nat)
    requires Family(s) && Reaped(s, s', p, z)
    ensures Family(s')
  {
    hide ParentOk, ForkOk, WaitOk, ForksApart;
    assert ParentOk(s, s.init);
    forall j: nat | j < |s.t|
      ensures ParentOk(s', j) && ForkOk(s', j) && WaitOk(s', j)
    {
      assert ParentOk(s, j) && ForkOk(s, j) && WaitOk(s, j) && ParentOk(s, z) && ParentOk(s, p);
      ReapKeepsEntry(s, s', p, z, j);
    }
    forall i: nat, j: nat | i < |s.t| && j < |s.t|
      ensures ForksApart(s', i, j)
    {
      assert ForksApart(s, i, j) && ParentOk(s, z);
      ReapKeepsForksApart(s, s', p, z, i, j);
    }
  }

  lemma ReapKeepsForksApart(s: State, s': State, p: nat, z: nat, i: nat, j: nat)
    requires Reaped(s, s', p, z) && i < |s.t| && j < |s.t| && ForksApart(s, i, j) && ParentOk(s, z)
    ensures ForksApart(s', i, j)
  {
  }

  lemma ReapKeepsEntry(s: State, s': State, p: nat, z: nat, j: nat)
    requires Reaped(s, s', p, z) && j < |s.t| && ParentOk(s, p) && ParentOk(s, z)
    requires ParentOk(s, j) && ForkOk(s, j) && WaitOk(s, j)
    ensures ParentOk(s', j) && ForkOk(s', j) && WaitOk(s', j)
  {
    forall k: nat | k < |s.t| && ZombieChild(s'.t, j, k)
      ensures ZombieChild(s.t, j, k)
    {
    }
  }

  // ---- exit ----

  ghost predicate Exited(s: State, s': State, p: nat) {
    && p < |s.t| == |s'.t| && s.init < |s.t| && s'.init == s.init && p != s.init && s.t[p].parent >= 0
    && s.t[p].status == RUNNING && s.t[p].place == Anywhere && s'.t == AfterExit(s.t, p, s.init)
  }

  lemma ExitIsExited(s: State, a: Action)
    requires Control(s) && Enabled(s, a) && a.Exit? && s.init < |s.t|
    ensures var p := s.cpus[a.c].mode.p;
            if p == s.init || s.t[p].parent < 0 then Do(s, a) == s.(halt := InitExits)
            else Exited(s, Do(s, a), p) && Do(s, a).nextpid == s.nextpid
                 && Do(s, a).h == s.h.(exited := s.h.exited + {s.t[p].pid})
  {
    assert CpuOk(s, a.c);
    hide Control, CpuOk, AfterExit;
  }

  lemma ExitKeepsFamily(s: State, s': State, p: nat)
    requires Family(s) && Exited(s, s', p)
    ensures Family(s')
  {
    hide ParentOk, ForkOk, WaitOk, ForksApart, AfterExit, WokenByExit;
    ExitEntry(s.t, p, s.init, s.init);
    forall j: nat | j < |s.t|
      ensures ParentOk(s', j) && ForkOk(s', j) && WaitOk(s', j)
    {
      assert ParentOk(s, j) && ForkOk(s, j) && WaitOk(s, j);
      ExitKeepsParent(s, s', p, j);
      ExitKeepsFork(s, s', p, j);
      ExitKeepsWait(s, s', p, j);
    }
    forall i: nat, j: nat | i < |s.t| && j < |s.t|
      ensures ForksApart(s', i, j)
    {
      assert ForksApart(s, i, j);
      ExitEntry(s.t, p, s.init, i);
      ExitEntry(s.t, p, s.init, j);
      ForksApartByPlace(s, s', i, j);
    }
  }

  lemma ForksApartByPlace(s: State, s': State, i: nat, j: nat)
    requires i < |s.t| == |s'.t| && j < |s.t| && ForksApart(s, i, j)
    requires s'.t[i].place == s.t[i].place && s'.t[j].place == s.t[j].place
    ensures ForksApart(s', i, j)
  {
  }

  lemma ExitKeepsParent(s: State, s': State, p: nat, j: nat)
    requires Family(s) && Exited(s, s', p) && j < |s.t|
    ensures ParentOk(s', j)
  {
    hide ForkOk, WaitOk, ForksApart, AfterExit, WokenByExit;
    assert ParentOk(s, j) && ParentOk(s, p);
    ExitEntry(s.t, p, s.init, j);
    ExitEntry(s.t, p, s.init, s.init);
    if s.t[j].parent >= 0 {
      ExitEntry(s.t, p, s.init, s.t[j].parent);
    }
  }

  lemma ExitKeepsFork(s: State, s': State, p: nat, j: nat)
    requires Family(s) && Exited(s, s', p) && j < |s.t|
    ensures ForkOk(s', j)
  {
    hide WaitOk, ForksApart, AfterExit, WokenByExit;
    assert ForkOk(s, j);
    ExitEntry(s.t, p, s.init, j);
    if s.t[j].place.Forking? {
      var u := s.t[j].place.child;
      assert ParentOk(s, u);
      ExitEntry(s.t, p, s.init, u);
    }
  }

  /** The parent of the zombie is not left asleep in wait, nor is init if it inherits one. */
  lemma ExitKeepsWait(s: State, s': State, p: nat, j: nat)
    requires Family(s) && Exited(s, s', p) && j < |s.t|
    ensures WaitOk(s', j)
  {
    hide ForkOk, ForksApart, AfterExit;
    ExitEntry(s.t, p, s.init, j);
    assert WaitOk(s, j) && ParentOk(s, p);
    if s'.t[j].status == SLEEPING && s'.t[j].place == Waiting {
      forall k: nat | k < |s.t|
        ensures !ZombieChild(s'.t, j, k)
      {
        ExitEntry(s.t, p, s.init, k);
        assert !ZombieChild(s.t, j, k);
        assert ZombieChild(s.t, p, k) ==> j != s.init;
      }
    }
  }

  // ---- fork ----

  /** A step of fork: the parent `p` moves on and the child's entry `u` changes. */
  ghost predicate Forked(s: State, s': State, p: nat, u: nat) {
    && p < |s.t| == |s'.t| && u < |s.t| && u != p && s'.init == s.init && s.t[p].status == RUNNING
    && s'.t == s.t[p := s.t[p].(place := s'.t[p].place)][u := s'.t[u]]
    && s'.t[u].place == Anywhere && s'.t[p].place != Waiting
    && if s.t[p].place.Forking? then
         && u == s.t[p].place.child && s.t[u].status == EMBRYO && s'.t[u].pid == s.t[u].pid
         && if s'.t[p].place.Forking? then
              s'.t[p].place == Forking(u, true) && s'.t[u].status == EMBRYO && s'.t[u].parent == p
            else if s.t[p].place.linked then s'.t[u].status == RUNNABLE && s'.t[u].parent == p
            else s'.t[u].status == UNUSED && s'.t[u].parent == -1
       else
         && s.t[p].place == Anywhere && s.t[u].status == UNUSED
         && s'.t[p].place == Forking(u, false) && s'.t[u].status == EMBRYO && s'.t[u].parent == -1
  }

  lemma ForkIsForked(s: State, a: Action)
    requires Control(s) && Family(s) && Enabled(s, a) && InForkCall(a)
    ensures var p := s.cpus[a.c].mode.p;
            var u := if a.Alloc? then FirstWith(s.t, UNUSED, 0) else s.t[p].place.child;
            if u == |s.t| then Do(s, a) == s
            else
              && Forked(s, Do(s, a), p, u)
              && Do(s, a).h.exited == s.h.exited && Do(s, a).h.reaped == s.h.reaped
              && Do(s, a).nextpid == s.nextpid + (if a.Alloc? then 1 else 0)
              && (a.Alloc? ==> Do(s, a).t[u].pid == s.nextpid)
  {
    var p := s.cpus[a.c].mode.p;
    assert CpuOk(s, a.c) && ForkOk(s, p) && ParentOk(s, p);
    if s.t[p].place.Forking? {
      assert ParentOk(s, s.t[p].place.child);
    }
    if a.Alloc? && FirstWith(s.t, UNUSED, 0) < |s.t| {
      assert ParentOk(s, FirstWith(s.t, UNUSED, 0));
    }
    hide Control, CpuOk, Family;
  }

  lemma ForkKeepsFamily(s: State, s': State, p: nat, u: nat)
    requires Family(s) && Forked(s, s', p, u)
    ensures Family(s')
  {
    hide ParentOk, ForkOk, WaitOk, ForksApart;
    assert ParentOk(s, u);
    forall j: nat | j < |s.t|
      ensures ParentOk(s', j) && ForkOk(s', j) && WaitOk(s', j)
    {
      ForkKeepsEntry(s, s', p, u, j);
    }
    forall i: nat, j: nat | i < |s.t| && j < |s.t|
      ensures ForksApart(s', i, j)
    {
      ForkKeepsForksApart(s, s', p, u, i, j);
    }
    InitLives(s, s', p, u);
  }

  lemma InitLives(s: State, s': State, p: nat, u: nat)
    requires Family(s) && Forked(s, s', p, u)
    ensures s'.t[s'.init].Alive() && s'.t[s'.init].parent == -1
  {
    assert ParentOk(s, u);
  }

  lemma ForkKeepsForksApart(s: State, s': State, p: nat, u: nat, i: nat, j: nat)
    requires Family(s) && Forked(s, s', p, u) && i < |s.t| && j < |s.t|
    ensures ForksApart(s', i, j)
  {
    hide WaitOk;
    assert ForksApart(s, i, j) && ForkOk(s, i) && ForkOk(s, j);
  }

  lemma ForkKeepsEntry(s: State, s': State, p: nat, u: nat, j: nat)
    requires Family(s) && Forked(s, s', p, u) && j < |s.t|
    ensures ParentOk(s', j) && ForkOk(s', j) && WaitOk(s', j)
  {
    hide Family, ParentOk, ForkOk, WaitOk, ForksApart;
    FamilyParts(s, p, u, j);
    ForkKeepsParent(s, s', p, u, j);
    ForkKeepsFork(s, s', p, u, j);
    ForkKeepsWait(s, s', p, u, j);
  }

  lemma FamilyParts(s: State, p: nat, u: nat, j: nat)
    requires Family(s) && p < |s.t| && u < |s.t| && j < |s.t|
    ensures ParentOk(s, j) && ForkOk(s, j) && WaitOk(s, j) && ParentOk(s, p) && ParentOk(s, u) && ForkOk(s, p)
            && ForksApart(s, j, p)
  {
  }

  lemma ForkKeepsParent(s: State, s': State, p: nat, u: nat, j: nat)
    requires Forked(s, s', p, u) && j < |s.t| && ParentOk(s, j) && ParentOk(s, u) && ParentOk(s, p) && ForkOk(s, p)
    ensures ParentOk(s', j)
  {
  }

  lemma ForkKeepsFork(s: State, s': State, p: nat, u: nat, j: nat)
    requires Forked(s, s', p, u) && j < |s.t| && ForkOk(s, j) && ForkOk(s, p) && ForksApart(s, j, p) && ParentOk(s, u)
    ensures ForkOk(s', j)
  {
  }

  lemma ForkKeepsWait(s: State, s': State, p: nat, u: nat, j: nat)
    requires Forked(s, s', p, u) && j < |s.t| && WaitOk(s, j)
    ensures WaitOk(s', j)
  {
    forall k: nat | k < |s.t| && ZombieChild(s'.t, j, k)
      ensures ZombieChild(s.t, j, k)
    {
    }
  }

  lemma FamilyKept(s: State, a: Action)
    requires Control(s) && Family(s) && Enabled(s, a)
    ensures Family(Do(s, a))
  {
    hide Control, Family, Do, Soft, Reaped, Exited, Forked, ParentOk, ForkOk, WaitOk, ForksApart;
    var s' := Do(s, a);
    if InForkCall(a) {
      ForkIsForked(s, a);
      var p := s.cpus[a.c].mode.p;
      var u := if a.Alloc? then FirstWith(s.t, UNUSED, 0) else s.t[p].place.child;
      if u < |s.t| {
        ForkKeepsFamily(s, s', p, u);
      }
    } else if a.Exit? {
      ExitIsExited(s, a);
      var p := s.cpus[a.c].mode.p;
      if p == s.init || s.t[p].parent < 0 {
        HaltKeepsFamily(s, s');
      } else {
        ExitKeepsFamily(s, s', p);
      }
    } else if Reaps(s, a) {
      ReapIsReaped(s, a);
      ReapKeepsFamily(s, s', s.cpus[a.c].mode.p, FirstZombie(s.t, s.cpus[a.c].mode.p, 0));
    } else {
      ShapeKept(s, a);
      forall j: nat | j < |s.t|
        ensures Soft(s, s', j)
      {
        SoftStep(s, a, j);
      }
      SoftKeepsFamily(s, s');
    }
  }

  lemma HaltKeepsFamily(s: State, s': State)
    requires Family(s) && s'.t == s.t && s'.init == s.init
    ensures Family(s')
  {
    forall p: nat | p < |s.t|
      ensures ParentOk(s', p) && ForkOk(s', p) && WaitOk(s', p)
    {
      assert ParentOk(s, p) && ForkOk(s, p) && WaitOk(s, p);
    }
    forall p: nat, q: nat | p < |s.t| && q < |s.t|
      ensures ForksApart(s', p, q)
    {
      assert ForksApart(s, p, q);
    }
  }
}
