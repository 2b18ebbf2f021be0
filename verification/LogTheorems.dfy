/** The log's guarantees over whole runs: crash atomicity of operations, durability, no lost wakeup, no panic. */
module LogTheorems {
  import opened Blocks
  import opened RedoLog
  import opened LogProtocol
  import opened LogControl
  import opened LogDurability

  /** The home blocks that recovery owes: the boot disk with every write up to the last commit. */
  ghost function Committed(c: Config, s: State): Disk
    requires Durable(s) <= |s.hist|
  {
    Apply(c.boot, Writes(s.hist[..Durable(s)]))
  }

  /** The home blocks with every write logged so far. */
  ghost function Latest(c: Config, s: State): Disk {
    Apply(c.boot, Writes(s.hist))
  }

  /** No operation has writes on both sides of position `k` of the history. */
  ghost predicate Unsplit(h: seq<Event>, k: nat) {
    forall i, j | 0 <= i < k <= j < |h| :: h[i].op != h[j].op
  }

  ghost predicate HistoryOk(c: Config, s: State) {
    && s.commits != []
    && (forall k | k in s.commits :: k <= Durable(s) <= |s.hist| && Unsplit(s.hist, k))
    && (forall e | e in s.hist :: e.write.target in c.boot && !c.layout.InLog(e.write.target) && e.op < s.nextOp)
  }

  /** Operations in progress are different ones, and none has a committed write. */
  ghost predicate OpsOk(s: State, procs: seq<Proc>) {
    && (forall i | 0 <= i < |procs| && procs[i].Busy() ::
          procs[i].op < s.nextOp && forall j | 0 <= j < Durable(s) && j < |s.hist| :: s.hist[j].op != procs[i].op)
    && (forall i, j | 0 <= i < j < |procs| && procs[i].Busy() && procs[j].Busy() :: procs[i].op != procs[j].op)
  }

  /** Everything logged is committed when the log is empty, and from the header write on. */
  ghost predicate Settled(s: State, m: Memory) {
    && (!m.committing && m.lh == [] ==> Durable(s) == |s.hist|)
    && (forall q | q in m.procs && q.Committing? && (q.batch == [] || |q.batch| < q.done) :: Durable(s) == |s.hist|)
  }

  /** The history variables agree with the state. */
  ghost predicate Ledger(c: Config, s: State) {
    && HistoryOk(c, s) && Durable(s) <= |s.hist|
    && (s.mode.Running? ==> OpsOk(s, s.mode.mem.procs) && Settled(s, s.mode.mem))
  }

  ghost predicate RecoveringInv(c: Config, s: State, base: Disk, done: nat)
    requires Durable(s) <= |s.hist|
  {
    && Durable(s) == |s.hist|
    && base.Keys == c.boot.Keys && RecoversTo(c, base, Committed(c, s)) && done <= |RecoveryWrites(c.layout, base)|
    && s.disk == Apply(base, RecoveryWrites(c.layout, base)[..done])
  }

  ghost predicate PanickedInv(c: Config, s: State)
    requires Durable(s) <= |s.hist|
  {
    && c.budget > 9
    && s.disk.Keys == c.boot.Keys && c.layout.Fits(s.disk) && WordAt(s.disk[c.layout.start], 0) == 0
    && SameHome(c.layout, s.disk, Committed(c, s))
  }

  ghost predicate Inv(c: Config, s: State) {
    && Ledger(c, s)
    && match s.mode
       case Running(m) => Control(c, m) && DiskOk(c, s.disk, m, Committed(c, s), Latest(c, s))
       case Recovering(base, done) => RecoveringInv(c, s, base, done)
       case Panicked => PanickedInv(c, s)
  }

  // ---- Each step keeps the invariant ----

  /** A step of process `p` that touches neither disk, cache, header nor history. */
  lemma InvLocal(c: Config, s: State, m: Memory, p: nat, q: Proc, nextOp: nat)
    requires c.Valid() && Inv(c, s) && s.mode.Running? && p < |s.mode.mem.procs|
    requires s.mode.mem.view == m.view && s.mode.mem.lh == m.lh && s.mode.mem.committing == m.committing
    requires m.procs == s.mode.mem.procs[p := q] && !q.Committing? && Control(c, m)
    requires s.nextOp <= nextOp
    requires q.Busy() ==> (s.mode.mem.procs[p].Busy() && q.op == s.mode.mem.procs[p].op)
                          || (q.op == s.nextOp < nextOp)
    ensures Inv(c, s.(mode := Running(m), nextOp := nextOp))
  {
    hide DiskOk, Control, HistoryOk, OpsOk, Settled;
    var s' := s.(mode := Running(m), nextOp := nextOp);
    assert Durable(s') == Durable(s);
    assert Committed(c, s') == Committed(c, s) && Latest(c, s') == Latest(c, s);
    OtherProcsKeepDisk(c, s.disk, s.mode.mem, m.procs, Committed(c, s), Latest(c, s));
    CounterIsNoDisk(c, s.disk, m, s.mode.mem.(procs := m.procs), Committed(c, s), Latest(c, s));
    LedgerLocal(c, s, m, p, q, nextOp);
  }

  lemma LedgerLocal(c: Config, s: State, m: Memory, p: nat, q: Proc, nextOp: nat)
    requires Ledger(c, s) && s.mode.Running? && p < |s.mode.mem.procs|
    requires s.mode.mem.lh == m.lh && s.mode.mem.committing == m.committing
    requires m.procs == s.mode.mem.procs[p := q] && !q.Committing? && s.nextOp <= nextOp
    requires q.Busy() ==> (s.mode.mem.procs[p].Busy() && q.op == s.mode.mem.procs[p].op)
                          || (q.op == s.nextOp < nextOp)
    ensures Ledger(c, s.(mode := Running(m), nextOp := nextOp))
  {
    var s', procs := s.(mode := Running(m), nextOp := nextOp), s.mode.mem.procs;
    assert Durable(s') == Durable(s);
    assert forall j | 0 <= j < |s.hist| :: s.hist[j] in s.hist;
    assert forall i | 0 <= i < |procs| && i != p :: m.procs[i] == procs[i];
    assert forall r | r in m.procs && r.Committing? :: r in procs;
  }

  lemma CounterIsNoDisk(c: Config, disk: Disk, m: Memory, m': Memory, committed: Disk, latest: Disk)
    requires DiskOk(c, disk, m', committed, latest) && m == m'.(outstanding := m.outstanding)
    ensures DiskOk(c, disk, m, committed, latest)
  {
  }

  lemma InvCall(c: Config, s: State, p: nat)
    requires c.Valid() && Inv(c, s) && Enabled(c, s, Call(p))
    ensures Inv(c, Do(c, s, Call(p)))
  {
    hide DiskOk, Control;
    ControlCall(c, s.mode.mem, p);
    InvLocal(c, s, s.mode.mem.(procs := s.mode.mem.procs[p := Waiting]), p, Waiting, s.nextOp);
  }

  lemma InvTry(c: Config, s: State, p: nat)
    requires c.Valid() && Inv(c, s) && Enabled(c, s, Try(p))
    ensures Inv(c, Do(c, s, Try(p)))
  {
    hide DiskOk, Control;
    ControlTry(c, s.mode.mem, p, s.nextOp);
    var m := DoTry(s.mode.mem, p, s.nextOp);
    InvLocal(c, s, m, p, m.procs[p], s.nextOp + 1);
  }

  lemma InvCheck(c: Config, s: State, p: nat, b: Word, data: Block)
    requires c.Valid() && c.Roomy() && Inv(c, s) && Enabled(c, s, Check(p, b, data))
    ensures Inv(c, Do(c, s, Check(p, b, data)))
  {
    hide Apply, Writes, HistoryOk, OpsOk, Settled;
    var m, q := s.mode.mem, s.mode.mem.procs[p];
    assert q in m.procs && ProcOk(c, m, q);
    BusyCounts(m.procs);
    if CheckPanics(c, m) {
      if c.budget <= 9 {
        CheckPasses(c, m, p);
      }
      assert Durable(Do(c, s, Check(p, b, data))) == Durable(s);
      HistoryKept(c, s, s.(mode := Panicked));
    } else {
      var q' := Checked(q.op, q.logged, b, data);
      assert ProcOk(c, m, q');
      ControlFrame(c, m, p, q');
      hide DiskOk, Control;
      InvLocal(c, s, m.(procs := m.procs[p := q']), p, q', s.nextOp);
    }
  }

  lemma HistoryKept(c: Config, s: State, s': State)
    requires HistoryOk(c, s) && s'.hist == s.hist && s'.commits == s.commits && s'.nextOp == s.nextOp
    ensures HistoryOk(c, s')
  {
    assert Durable(s') == Durable(s);
  }

  lemma HistoryGrows(c: Config, h: seq<Event>, e: Event, k: nat)
    requires k <= |h|
    ensures Apply(c.boot, Writes(h + [e])) == Apply(c.boot, Writes(h))[e.write.target := e.write.data]
    ensures (h + [e])[..k] == h[..k]
  {
    assert Writes(h + [e])[..|h|] == Writes(h);
  }

  lemma InvAppend(c: Config, s: State, p: nat)
    requires c.Valid() && c.Roomy() && Inv(c, s) && Enabled(c, s, Append(p))
    ensures Inv(c, Do(c, s, Append(p)))
  {
    hide HistoryOk, OpsOk, Settled, Quiet;
    var m, q := s.mode.mem, s.mode.mem.procs[p];
    var m', e := DoAppend(m, p), Event(q.op, Write(q.block, q.data));
    assert q in m.procs && ProcOk(c, m, q);
    BusyCounts(m.procs);
    ControlAppend(c, m, p);
    LogHasRoom(c, m', p);
    AppendKeepsDisk(c, s.disk, m, p, Committed(c, s), Latest(c, s));
    HistoryGrows(c, s.hist, e, Durable(s));
    var s' := Do(c, s, Append(p));
    assert Durable(s') == Durable(s);
    assert !m'.committing;
    LedgerAppend(c, s, p, m', e);
  }

  lemma LedgerAppend(c: Config, s: State, p: nat, m': Memory, e: Event)
    requires Ledger(c, s) && Runs(s, p) && s.mode.mem.procs[p].Busy()
    requires e.op == s.mode.mem.procs[p].op && e.write.target in c.boot && !c.layout.InLog(e.write.target)
    requires |m'.procs| == |s.mode.mem.procs| && m'.procs == s.mode.mem.procs[p := m'.procs[p]]
    requires m'.procs[p].Busy() && m'.procs[p].op == e.op && m'.lh != []
    requires forall q | q in s.mode.mem.procs :: !q.Committing?
    ensures Ledger(c, s.(mode := Running(m'), hist := s.hist + [e]))
  {
    var s', procs := s.(mode := Running(m'), hist := s.hist + [e]), s.mode.mem.procs;
    assert Durable(s') == Durable(s);
    assert forall i | 0 <= i < |s.hist| :: s'.hist[i] == s.hist[i];
    assert forall x | x in s'.hist :: x == e || x in s.hist;
    assert forall i | 0 <= i < |procs| && i != p :: m'.procs[i] == procs[i];
    assert forall r | r in m'.procs :: r == m'.procs[p] || r in procs;
    assert e.op < s.nextOp;
  }

  lemma InvEnd(c: Config, s: State, p: nat)
    requires c.Valid() && c.Roomy() && Inv(c, s) && Enabled(c, s, End(p))
    ensures Inv(c, Do(c, s, End(p)))
  {
    hide HistoryOk, OpsOk, Settled, Quiet, InCommit, Apply;
    var m := s.mode.mem;
    ControlEnd(c, m, p, s.disk);
    assert forall i | 0 <= i < |m.procs| :: m.procs[i] in m.procs && ProcOk(c, m, m.procs[i]);
    if m.outstanding == 1 {
      EndStartsCommit(c, s.disk, m, p, Committed(c, s), Latest(c, s));
      var m' := DoEnd(m, p, s.disk);
      assert Durable(s.(mode := Running(m'))) == Durable(s);
      assert forall r | r in m'.procs && r.Committing? :: r == m'.procs[p];
      LedgerEndLast(c, s, p, m');
    } else {
      hide DiskOk, Control;
      WakeKeepsRest(c, s, s.mode.mem.(outstanding := m.outstanding - 1), p);
    }
  }

  /** The only process that changes is `p`, which was busy and is now in commit(). */
  lemma LedgerEndLast(c: Config, s: State, p: nat, m': Memory)
    requires Ledger(c, s) && Runs(s, p) && !s.mode.mem.committing && m'.committing
    requires forall q | q in s.mode.mem.procs :: !q.Committing?
    requires |m'.procs| == |s.mode.mem.procs| && m'.procs == s.mode.mem.procs[p := m'.procs[p]]
    requires m'.procs[p].Committing? && m'.procs[p].batch == s.mode.mem.lh && m'.procs[p].done == 0
    ensures Ledger(c, s.(mode := Running(m')))
  {
    var s', procs := s.(mode := Running(m')), s.mode.mem.procs;
    assert Durable(s') == Durable(s);
    assert forall i | 0 <= i < |procs| && i != p :: m'.procs[i] == procs[i] && procs[i] in procs;
  }

  /** Waking every sleeper, with process `p` gone back outside. */
  lemma WakeKeepsRest(c: Config, s: State, m: Memory, p: nat)
    requires Inv(c, s) && Runs(s, p) && m == s.mode.mem.(outstanding := m.outstanding)
    requires Control(c, m.(procs := Wake(m.procs[p := Outside])))
    ensures Inv(c, s.(mode := Running(m.(procs := Wake(m.procs[p := Outside])))))
  {
    hide DiskOk, Control, HistoryOk, OpsOk, Settled;
    var m' := m.(procs := Wake(m.procs[p := Outside]));
    var s' := s.(mode := Running(m'));
    assert Durable(s') == Durable(s);
    WakeKeepsCommitters(m.procs, p);
    OtherProcsKeepDisk(c, s.disk, s.mode.mem, m'.procs, Committed(c, s), Latest(c, s));
    CounterIsNoDisk(c, s.disk, m', s.mode.mem.(procs := m'.procs), Committed(c, s), Latest(c, s));
    LedgerWake(c, s, m, p);
  }

  lemma WakeKeepsCommitters(procs: seq<Proc>, p: nat)
    requires p < |procs|
    ensures forall q | q in Wake(procs[p := Outside]) && (q.Committing? || q.Busy()) :: q in procs
  {
    var woken := Wake(procs[p := Outside]);
    forall q | q in woken && (q.Committing? || q.Busy())
      ensures q in procs
    {
      var i :| 0 <= i < |woken| && woken[i] == q;
      assert q == procs[i];
    }
  }

  lemma LedgerWake(c: Config, s: State, m: Memory, p: nat)
    requires Ledger(c, s) && Runs(s, p) && m == s.mode.mem.(outstanding := m.outstanding)
    ensures Ledger(c, s.(mode := Running(m.(procs := Wake(m.procs[p := Outside])))))
  {
    var m' := m.(procs := Wake(m.procs[p := Outside]));
    var s' := s.(mode := Running(m'));
    assert Durable(s') == Durable(s);
    WakeKeepsCommitters(m.procs, p);
    assert forall i | 0 <= i < |m'.procs| && m'.procs[i].Busy() :: m'.procs[i] == m.procs[i];
  }

  lemma InvCommitStep(c: Config, s: State, p: nat)
    requires c.Valid() && Inv(c, s) && Enabled(c, s, CommitStep(p))
    ensures Inv(c, Do(c, s, CommitStep(p)))
  {
    hide Plan, InCommit, HistoryOk, OpsOk, Settled, Apply, Writes, GoodBatch, CanCommit, CanWrite, NextWrite;
    var m, q := s.mode.mem, s.mode.mem.procs[p];
    assert q in m.procs && ProcOk(c, m, q);
    assert InCommit(c, s.disk, m, q, Committed(c, s), Latest(c, s));
    InCommitFits(c, s.disk, m, q, Committed(c, s), Latest(c, s));
    FittingWrite(c, m.view, q);
    ControlCommitStep(c, m, p);
    NobodyBusy(c, m);
    CommitStepKeepsDisk(c, s.disk, m, p, Committed(c, s), Latest(c, s));
    var s' := Do(c, s, CommitStep(p));
    var m' := s'.mode.mem;
    assert forall i | 0 <= i < |m'.procs| && i != p :: m'.procs[i] == m.procs[i] && m.procs[i] in m.procs;
    assert forall r | r in m'.procs && r.Committing? :: r == m'.procs[p];
    hide Control;
    LedgerCommitStep(c, s, p, m', s'.disk);
    CommitPoint(c, s, s', q.done == |q.batch|);
    assert InCommit(c, s'.disk, m', m'.procs[p], Committed(c, s'), Latest(c, s'));
    assert DiskOk(c, s'.disk, m', Committed(c, s'), Latest(c, s'));
  }

  lemma CommitPoint(c: Config, s: State, s': State, header: bool)
    requires Durable(s) <= |s.hist| && s'.hist == s.hist
    requires s'.commits == if header then s.commits + [|s.hist|] else s.commits
    ensures Committed(c, s') == (if header then Latest(c, s) else Committed(c, s)) && Latest(c, s') == Latest(c, s)
  {
    assert s.hist[..|s.hist|] == s.hist;
    assert Durable(s') == if header then |s.hist| else Durable(s);
  }

  /** The header write moves the commit point to the end of the history; every other write leaves it. */
  lemma LedgerCommitStep(c: Config, s: State, p: nat, m': Memory, disk: Disk)
    requires Ledger(c, s) && Runs(s, p) && s.mode.mem.procs[p].Committing? && m'.committing
    requires |m'.procs| == |s.mode.mem.procs| && m'.procs == s.mode.mem.procs[p := m'.procs[p]]
    requires m'.procs[p] == s.mode.mem.procs[p].(done := s.mode.mem.procs[p].done + 1)
    requires forall i | 0 <= i < |m'.procs| && i != p :: !m'.procs[i].Busy() && !m'.procs[i].Committing?
    ensures var q := s.mode.mem.procs[p];
            Ledger(c, s.(disk := disk, mode := Running(m'),
                         commits := if q.done == |q.batch| then s.commits + [|s.hist|] else s.commits))
  {
    var q := s.mode.mem.procs[p];
    var s' := s.(disk := disk, mode := Running(m'),
                 commits := if q.done == |q.batch| then s.commits + [|s.hist|] else s.commits);
    assert q in s.mode.mem.procs;
    assert forall r | r in m'.procs && r.Committing? :: r == m'.procs[p];
    if q.done == |q.batch| {
      assert Durable(s') == |s'.hist|;
    } else {
      assert Durable(s') == Durable(s);
    }
  }

  lemma InCommitFits(c: Config, disk: Disk, m: Memory, q: Proc, committed: Disk, latest: Disk)
    requires InCommit(c, disk, m, q, committed, latest)
    ensures CanCommit(c, q)
  {
  }

  lemma InvFinish(c: Config, s: State, p: nat)
    requires c.Valid() && Inv(c, s) && Enabled(c, s, Finish(p))
    ensures Inv(c, Do(c, s, Finish(p)))
  {
    hide Plan, Apply, Writes, HistoryOk, OpsOk, Settled, WordAt;
    var m, q := s.mode.mem, s.mode.mem.procs[p];
    assert q in m.procs && ProcOk(c, m, q);
    assert InCommit(c, s.disk, m, q, Committed(c, s), Latest(c, s));
    FittingWrite(c, m.view, q);
    ControlFinish(c, m, p);
    FinishKeepsDisk(c, s.disk, m, p, Committed(c, s), Latest(c, s));
    PlanShape(c, q);
    FinishRest(c, s, p);
  }

  lemma FinishRest(c: Config, s: State, p: nat)
    requires Inv(c, s) && Enabled(c, s, Finish(p))
    requires s.mode.mem.procs[p].batch == [] || |s.mode.mem.procs[p].batch| < s.mode.mem.procs[p].done
    requires s.mode.mem.committing && Control(c, s.mode.mem) && Control(c, DoFinish(s.mode.mem, p))
    requires Quiet(c, s.disk, DoFinish(s.mode.mem, p), Committed(c, s), Latest(c, s))
    ensures Inv(c, Do(c, s, Finish(p)))
  {
    hide Quiet, InCommit, Plan;
    var m, s' := s.mode.mem, Do(c, s, Finish(p));
    var m' := s'.mode.mem;
    assert m.procs[p] in m.procs && Durable(s') == Durable(s);
    NobodyBusy(c, m);
    forall i | 0 <= i < |m'.procs|
      ensures !m'.procs[i].Busy() && !m'.procs[i].Committing?
    {
      assert i != p ==> m.procs[i] in m.procs && !m.procs[i].Committing?;
    }
  }

  lemma CommitterExists(c: Config, m: Memory)
    requires Control(c, m) && m.committing
    ensures exists i: nat :: i < |m.procs| && m.procs[i].Committing?
  {
    var i :| 0 <= i < |m.procs| && m.procs[i].Committing?;
    assert i >= 0;
  }

  lemma CommittingRecovers(c: Config, s: State, m: Memory)
    requires c.Valid() && Inv(c, s) && s.mode == Running(m) && m.committing
    ensures s.disk.Keys == c.boot.Keys && RecoversTo(c, s.disk, Committed(c, s))
  {
    hide Recover, CommitWrites, Apply, InCommit, SameHome, Recoverable, WordAt, Installed;
    CommitterExists(c, m);
    var i: nat :| i < |m.procs| && m.procs[i].Committing?;
    var q, committed := m.procs[i], Committed(c, s);
    assert q in m.procs;
    InCommitKeys(c, s.disk, m, q, committed, Latest(c, s));
    InCommitCut(c, s.disk, m, q, committed, Latest(c, s));
    CommitIsAtomic(c.layout, q.batch, q.base, q.cache, q.done);
    var home := if q.done > |q.batch| then Installed(q.base, q.batch, q.cache) else q.base;
    SameHomeTrans(c.layout, Recover(c.layout, s.disk), home, committed);
  }

  /** Wherever the machine stands, the disk recovers to the committed home blocks. */
  lemma InvRecovers(c: Config, s: State)
    requires c.Valid() && Inv(c, s)
    ensures s.disk.Keys == c.boot.Keys && RecoversTo(c, s.disk, Committed(c, s))
  {
    match s.mode {
      case Running(m) =>
        if m.committing {
          hide RecoversTo;
          CommittingRecovers(c, s, m);
        } else {
          hide RecoversTo;
          QuietRecovers(c, s.disk, Committed(c, s));
        }
      case Recovering(base, done) =>
        RecoveryHasShape(c.layout, base);
        RecoveryPrefix(c.layout, GetHead(base[c.layout.start]), base, RecoveryWrites(c.layout, base), done);
        hide Recover, RecoveryWrites;
        RecoveryIsIdempotent(c.layout, base, done);
      case Panicked =>
        hide RecoversTo;
        QuietRecovers(c, s.disk, Committed(c, s));
    }
  }

  lemma InCommitKeys(c: Config, disk: Disk, m: Memory, q: Proc, committed: Disk, latest: Disk)
    requires InCommit(c, disk, m, q, committed, latest)
    ensures disk.Keys == c.boot.Keys
  {
    hide Plan;
    PlanShape(c, q);
    if q.batch == [] {
      assert Plan(c, q)[..q.done] == [];
      ApplyNone(q.base);
    } else {
      CommitPrefixFrame(c.layout, q.batch, q.base, q.cache, Plan(c, q), q.done);
    }
  }

  lemma InvCrash(c: Config, s: State)
    requires c.Valid() && Inv(c, s)
    ensures Inv(c, Do(c, s, Crash))
  {
    hide RecoversTo, RecoveryWrites;
    InvRecovers(c, s);
    var s' := Do(c, s, Crash);
    assert Durable(s') == Durable(s) == |s'.hist|;
    assert s'.hist[..|s'.hist|] == s'.hist;
    RecoversGivesWrites(c, s.disk, Committed(c, s));
    ApplyNone(s.disk);
    assert RecoveryWrites(c.layout, s.disk)[..0] == [];
  }

  lemma RecoversGivesWrites(c: Config, d: Disk, committed: Disk)
    requires RecoversTo(c, d, committed)
    ensures Recoverable(c.layout, d)
  {
  }

  lemma InvRecoverStep(c: Config, s: State)
    requires c.Valid() && Inv(c, s) && Enabled(c, s, RecoverStep)
    ensures Inv(c, Do(c, s, RecoverStep))
  {
    hide RecoversTo, RecoveryWrites, HistoryOk, Apply, Writes, WordAt, GetHead, GoodBatch;
    hide HasHead, CanRecover, RecoverWrite, Recoverable;
    RecoversGivesWrites(c, s.mode.base, Committed(c, s));
    FittingRecovery(c, s.disk, s.mode.base, s.mode.done);
    var s' := Do(c, s, RecoverStep);
    HistoryKept(c, s, s');
    assert Committed(c, s') == Committed(c, s);
    ApplyNext(s.mode.base, RecoveryWrites(c.layout, s.mode.base), s.mode.done);
    assert Durable(Do(c, s, RecoverStep)) == Durable(s);
  }

  lemma InvBoot(c: Config, s: State, nproc: nat)
    requires c.Valid() && Inv(c, s) && Enabled(c, s, Boot(nproc))
    ensures Inv(c, Do(c, s, Boot(nproc)))
  {
    hide HistoryOk, Recover, RecoveryWrites, RecoversTo, Quiet, Control, Apply;
    RecoversGivesWrites(c, s.mode.base, Committed(c, s));
    FittingRecovery(c, s.disk, s.mode.base, 0);
    ControlBoot(c, s.disk, nproc);
    var s' := Do(c, s, Boot(nproc));
    assert Durable(s') == Durable(s);
    assert s.hist[..|s.hist|] == s.hist;
    assert forall q | q in s'.mode.mem.procs :: q == Outside;
    HistoryKept(c, s, s');
    BootDisk(c, s.disk, s.mode.base, Committed(c, s), nproc);
  }

  lemma BootDisk(c: Config, disk: Disk, base: Disk, committed: Disk, nproc: nat)
    requires c.Valid() && base.Keys == c.boot.Keys && RecoversTo(c, base, committed)
    requires disk == Apply(base, RecoveryWrites(c.layout, base)[..|RecoveryWrites(c.layout, base)|])
    ensures Quiet(c, disk, Memory([], 0, false, disk, seq(nproc, _ => Outside)), committed, committed)
  {
    hide Recover, RecoveryWrites, Apply, GetHead;
    AllWritesRecover(c.layout, base);
    RecoverAt(c.layout, base);
  }

  lemma AllWritesRecover(l: Layout, d: Disk)
    requires Recoverable(l, d)
    ensures Apply(d, RecoveryWrites(l, d)[..|RecoveryWrites(l, d)|]) == Recover(l, d)
  {
    assert RecoveryWrites(l, d)[..|RecoveryWrites(l, d)|] == RecoveryWrites(l, d);
  }

  lemma StepKeepsInv(c: Config, s: State, a: Action)
    requires c.Valid() && c.Roomy() && Inv(c, s) && Enabled(c, s, a)
    ensures Inv(c, Do(c, s, a))
  {
    hide Inv, Do;
    match a {
      case Call(p) => InvCall(c, s, p);
      case Try(p) => InvTry(c, s, p);
      case Check(p, b, data) => InvCheck(c, s, p, b, data);
      case Append(p) => InvAppend(c, s, p);
      case End(p) => InvEnd(c, s, p);
      case CommitStep(p) => InvCommitStep(c, s, p);
      case Finish(p) => InvFinish(c, s, p);
      case Crash => InvCrash(c, s);
      case RecoverStep => InvRecoverStep(c, s);
      case Boot(nproc) => InvBoot(c, s, nproc);
    }
  }

  lemma InvStart(c: Config)
    requires c.Valid()
    ensures Inv(c, Start(c))
  {
    hide Recover, RecoveryWrites;
    RecoverEmpty(c.layout, c.boot);
    var s := Start(c);
    assert Writes(s.hist[..0]) == [];
    ApplyNone(c.boot);
    assert RecoveryWrites(c.layout, c.boot)[..0] == [];
  }

  lemma {:induction false} RunKeepsInv(c: Config, states: seq<State>, acts: seq<Action>, i: nat)
    requires c.Valid() && c.Roomy() && IsRun(c, states, acts) && i < |states|
    ensures Inv(c, states[i])
  {
    hide Inv, Do;
    if i == 0 {
      InvStart(c);
    } else {
      RunKeepsInv(c, states, acts, i - 1);
      StepKeepsInv(c, states[i - 1], acts[i - 1]);
    }
  }

  // ---- Guarantees over every run ----

  /**
   Crash atomicity of file-system operations. Take any run: any interleaving of any number of processes, with
   crashes and recoveries anywhere, stopped anywhere. Recovering the disk it leaves brings back the boot disk with
   a prefix of the logged writes, and no operation has writes on both sides of that prefix, nor on both sides of
   any earlier commit.
   */
  lemma OperationsAreAtomic(c: Config, states: seq<State>, acts: seq<Action>, i: nat)
    requires c.Valid() && c.Roomy() && IsRun(c, states, acts) && i < |states|
    ensures var s := states[i];
            && Durable(s) <= |s.hist| && Recoverable(c.layout, s.disk)
            && SameHome(c.layout, Recover(c.layout, s.disk), Apply(c.boot, Writes(s.hist[..Durable(s)])))
            && Unsplit(s.hist, Durable(s)) && forall k | k in s.commits :: Unsplit(s.hist, k)
  {
    hide Recover, Apply;
    RunKeepsInv(c, states, acts, i);
    InvRecovers(c, states[i]);
    assert Durable(states[i]) in states[i].commits;
  }

  /** A running system sees every write logged since boot that was not lost in a crash. */
  lemma CacheShowsLatest(c: Config, states: seq<State>, acts: seq<Action>, i: nat)
    requires c.Valid() && c.Roomy() && IsRun(c, states, acts) && i < |states|
    requires states[i].mode.Running? && !states[i].mode.mem.committing
    ensures SameHome(c.layout, states[i].mode.mem.view, Apply(c.boot, Writes(states[i].hist)))
  {
    hide Apply;
    RunKeepsInv(c, states, acts, i);
  }

  /** Committed writes stay: the committed history at one moment is a prefix of that at any later moment. */
  lemma {:induction false} CommitsAreDurable(c: Config, states: seq<State>, acts: seq<Action>, i: nat, j: nat)
    requires c.Valid() && c.Roomy() && IsRun(c, states, acts) && i <= j < |states|
    ensures Durable(states[i]) <= |states[i].hist| && Durable(states[i]) <= Durable(states[j]) <= |states[j].hist|
    ensures states[i].hist[..Durable(states[i])] == states[j].hist[..Durable(states[i])]
  {
    hide Do, Inv;
    RunKeepsInv(c, states, acts, i);
    InvLedger(c, states[i]);
    RunKeepsInv(c, states, acts, j);
    InvLedger(c, states[j]);
    if i < j {
      RunKeepsInv(c, states, acts, j - 1);
      InvLedger(c, states[j - 1]);
      CommitsAreDurable(c, states, acts, i, j - 1);
      StepKeepsCommitted(c, states[j - 1], acts[j - 1]);
    }
  }

  lemma InvLedger(c: Config, s: State)
    requires Inv(c, s)
    ensures HistoryOk(c, s) && Durable(s) <= |s.hist|
  {
  }

  lemma StepKeepsCommitted(c: Config, s: State, a: Action)
    requires Enabled(c, s, a) && HistoryOk(c, s) && Durable(s) <= |s.hist|
    ensures Durable(s) <= Durable(Do(c, s, a)) && Durable(s) <= |Do(c, s, a).hist|
    ensures Do(c, s, a).hist[..Durable(s)] == s.hist[..Durable(s)]
  {
  }

  /** With no operation and no commit in progress, everything logged is committed. */
  lemma IdleMeansCommitted(c: Config, states: seq<State>, acts: seq<Action>, i: nat)
    requires c.Valid() && c.Roomy() && IsRun(c, states, acts) && i < |states| && states[i].mode.Running?
    ensures var m := states[i].mode.mem; m.outstanding == 0 && !m.committing ==> Durable(states[i]) == |states[i].hist|
  {
    hide Apply, DiskOk;
    RunKeepsInv(c, states, acts, i);
  }

  /** Outside of a commit, the log area has a slot for every listed block. */
  lemma SlotsSuffice(c: Config, states: seq<State>, acts: seq<Action>, i: nat)
    requires c.Valid() && c.Roomy() && IsRun(c, states, acts) && i < |states| && states[i].mode.Running?
    ensures !states[i].mode.mem.committing ==> |states[i].mode.mem.lh| <= c.layout.size - 1
  {
    hide Apply;
    RunKeepsInv(c, states, acts, i);
  }

  /** If no operation logs more than 9 different blocks, neither log_write nor end_op ever panics. */
  lemma NeverPanics(c: Config, states: seq<State>, acts: seq<Action>, i: nat)
    requires c.Valid() && c.budget <= 9 && c.layout.size >= 30 && IsRun(c, states, acts) && i < |states|
    ensures !states[i].mode.Panicked?
  {
    hide Apply;
    RunKeepsInv(c, states, acts, i);
  }
}
