/**
 Admission control of the log: what begin_op's reservation, log_write's absorption and end_op's group commit keep
 true in every interleaving, and exactly when log_write's "too big a transaction" panic is unreachable.
 */
module LogControl {
  import opened Blocks
  import opened RedoLog
  import opened LogProtocol

  /** How many operations are between begin_op and end_op. */
  ghost function Count(procs: seq<Proc>): nat {
    if procs == [] then 0 else Count(procs[..|procs| - 1]) + if procs[|procs| - 1].Busy() then 1 else 0
  }

  /** How many block numbers those operations have logged, counting each operation separately. */
  ghost function Logged(procs: seq<Proc>): nat {
    if procs == [] then 0
    else Logged(procs[..|procs| - 1]) + if procs[|procs| - 1].Busy() then |procs[|procs| - 1].logged| else 0
  }

  /** The sum over active operations of what is left of their reservation. */
  ghost function Reserved(procs: seq<Proc>): int {
    if procs == [] then 0
    else Reserved(procs[..|procs| - 1])
         + if procs[|procs| - 1].Busy() then MAXOPBLOCKS - |procs[|procs| - 1].logged| else 0
  }

  ghost function Ones(q: Proc): nat { if q.Busy() then 1 else 0 }
  ghost function Sizes(q: Proc): nat { if q.Busy() then |q.logged| else 0 }

  lemma {:induction false} ReservedIs(procs: seq<Proc>)
    ensures Reserved(procs) == MAXOPBLOCKS * Count(procs) - Logged(procs)
  {
    if procs != [] {
      ReservedIs(procs[..|procs| - 1]);
    }
  }

  lemma {:induction false} SumsAfterUpdate(procs: seq<Proc>, p: nat, q: Proc)
    requires p < |procs|
    ensures Count(procs[p := q]) == Count(procs) - Ones(procs[p]) + Ones(q)
    ensures Logged(procs[p := q]) == Logged(procs) - Sizes(procs[p]) + Sizes(q)
  {
    var last := |procs| - 1;
    if p < last {
      SumsAfterUpdate(procs[..last], p, q);
      assert procs[p := q][..last] == procs[..last][p := q];
    } else {
      assert procs[p := q][..last] == procs[..last];
    }
  }

  lemma {:induction false} SumsAfterWake(procs: seq<Proc>)
    ensures Count(Wake(procs)) == Count(procs) && Logged(Wake(procs)) == Logged(procs)
  {
    if procs != [] {
      var last := |procs| - 1;
      SumsAfterWake(procs[..last]);
      assert Wake(procs)[..last] == Wake(procs[..last]);
    }
  }

  lemma {:induction false} SumsOfIdle(procs: seq<Proc>)
    requires forall q | q in procs :: !q.Busy()
    ensures Count(procs) == 0 && Logged(procs) == 0
  {
    if procs != [] {
      SumsOfIdle(procs[..|procs| - 1]);
    }
  }

  /** An active operation is counted. */
  lemma {:induction false} BusyCounts(procs: seq<Proc>)
    ensures forall q | q in procs && q.Busy() :: Count(procs) > 0
  {
    if procs != [] {
      BusyCounts(procs[..|procs| - 1]);
    }
  }

  lemma {:induction false} SumsBound(procs: seq<Proc>, budget: nat)
    requires forall q | q in procs && q.Busy() :: |q.logged| <= budget
    ensures Logged(procs) <= budget * Count(procs)
  {
    if procs != [] {
      SumsBound(procs[..|procs| - 1], budget);
    }
  }

  /** begin_op's guard. */
  ghost predicate Full(m: Memory) {
    m.committing || |m.lh| + (m.outstanding + 1) * MAXOPBLOCKS > LOGSIZE
  }

  ghost predicate ProcOk(c: Config, m: Memory, q: Proc) {
    && (q.Asleep? ==> Full(m))
    && (q.Committing? ==> m.committing)
    && (q.Busy() ==> (forall x | x in q.logged :: x in m.lh) && |q.logged| <= c.budget)
    && (q.Checked? ==> |q.logged + {q.block}| <= c.budget && q.block in c.boot && !c.layout.InLog(q.block))
  }

  /** Only one process is in commit(). */
  ghost predicate OneCommitter(procs: seq<Proc>) {
    forall i, j | 0 <= i < j < |procs| :: !(procs[i].Committing? && procs[j].Committing?)
  }

  /** The control state of a running system, between any two steps. */
  ghost predicate Control(c: Config, m: Memory) {
    && m.outstanding == Count(m.procs)
    && (m.committing ==> m.outstanding == 0 && exists i | 0 <= i < |m.procs| :: m.procs[i].Committing?)
    && (m.outstanding == 0 && !m.committing ==> m.lh == [])
    && (forall q | q in m.procs :: ProcOk(c, m, q))
    && OneCommitter(m.procs)
    && |m.lh| + Reserved(m.procs) <= LOGSIZE
    && (c.budget <= 9 && m.outstanding > 0 ==> |m.lh| + 9 * m.outstanding - Logged(m.procs) <= 28)
  }

  /** With at most 9 distinct blocks an operation, the size test of log_write fails for no active operation. */
  lemma CheckPasses(c: Config, m: Memory, p: nat)
    requires Control(c, m) && c.budget <= 9 && c.layout.size >= 30
    requires p < |m.procs| && m.procs[p].Busy()
    ensures !CheckPanics(c, m)
  {
    SumsBound(m.procs, 9);
    BusyCounts(m.procs);
    assert m.procs[p] in m.procs;
  }

  /** The log area has a slot for every block number in memory, even while operations are running. */
  lemma LogHasRoom(c: Config, m: Memory, p: nat)
    requires Control(c, m) && c.Roomy() && p < |m.procs| && m.procs[p].Busy()
    ensures |m.lh| <= c.layout.size - 1
  {
    assert m.procs[p] in m.procs;
    BusyCounts(m.procs);
    ReservedIs(m.procs);
    SumsBound(m.procs, if c.budget <= 9 then 9 else 10);
  }

  lemma ControlCall(c: Config, m: Memory, p: nat)
    requires Control(c, m) && p < |m.procs| && m.procs[p].Outside?
    ensures Control(c, m.(procs := m.procs[p := Waiting]))
  {
    ControlFrame(c, m, p, Waiting);
  }

  /** Replacing process `p` by one that is as busy and has logged as much. */
  lemma ControlFrame(c: Config, m: Memory, p: nat, q: Proc)
    requires Control(c, m) && p < |m.procs| && Ones(q) == Ones(m.procs[p]) && Sizes(q) == Sizes(m.procs[p])
    requires !m.procs[p].Committing? && !q.Committing? && ProcOk(c, m, q)
    ensures Control(c, m.(procs := m.procs[p := q]))
  {
    var m' := m.(procs := m.procs[p := q]);
    SumsAfterUpdate(m.procs, p, q);
    ReservedIs(m.procs);
    ReservedIs(m'.procs);
    if m.committing {
      var i :| 0 <= i < |m.procs| && m.procs[i].Committing?;
      assert m'.procs[i].Committing?;
    }
    forall r | r in m'.procs
      ensures ProcOk(c, m', r)
    {
      assert r == q || r in m.procs;
    }
  }

  lemma ControlTry(c: Config, m: Memory, p: nat, op: nat)
    requires Control(c, m) && p < |m.procs| && m.procs[p].Waiting?
    ensures Control(c, DoTry(m, p, op))
  {
    if Full(m) {
      ControlFrame(c, m, p, Asleep);
    } else {
      var m' := DoTry(m, p, op);
      SumsAfterUpdate(m.procs, p, Active(op, {}));
      ReservedIs(m.procs);
      ReservedIs(m'.procs);
      forall q | q in m'.procs
        ensures ProcOk(c, m', q)
      {
        assert q == Active(op, {}) || q in m.procs;
      }
    }
  }

  lemma ControlAppend(c: Config, m: Memory, p: nat)
    requires Control(c, m) && p < |m.procs| && m.procs[p].Checked?
    ensures Control(c, DoAppend(m, p))
  {
    var m', q := DoAppend(m, p), m.procs[p];
    var q' := Active(q.op, q.logged + {q.block});
    assert q in m.procs;
    SumsAfterUpdate(m.procs, p, q');
    BusyCounts(m.procs);
    ReservedIs(m.procs);
    ReservedIs(m'.procs);
    assert q.block in q.logged ==> q.logged + {q.block} == q.logged;
    forall r | r in m'.procs
      ensures ProcOk(c, m', r)
    {
      assert r == q' || r in m.procs;
    }
  }

  lemma ControlEnd(c: Config, m: Memory, p: nat, disk: Disk)
    requires Control(c, m) && p < |m.procs| && m.procs[p].Active? && c.budget <= MAXOPBLOCKS
    ensures !m.committing && Control(c, DoEnd(m, p, disk))
  {
    assert m.procs[p] in m.procs;
    BusyCounts(m.procs);
    if m.outstanding == 1 {
      ControlEndLast(c, m, p, Committing(m.lh, disk, m.view, 0));
    } else {
      ControlEndOther(c, m, p);
    }
  }

  lemma ControlEndLast(c: Config, m: Memory, p: nat, q: Proc)
    requires Control(c, m) && p < |m.procs| && m.procs[p].Active? && m.outstanding == 1 && q.Committing?
    requires c.budget <= MAXOPBLOCKS
    ensures Control(c, m.(outstanding := 0, committing := true, procs := m.procs[p := q]))
  {
    var m' := m.(outstanding := 0, committing := true, procs := m.procs[p := q]);
    SumsAfterUpdate(m.procs, p, q);
    BusyCounts(m.procs);
    ReservedIs(m.procs);
    ReservedIs(m'.procs);
    assert m'.procs[p].Committing? && m.procs[p] in m.procs;
    forall i | 0 <= i < |m.procs|
      ensures !m.procs[i].Committing?
    {
      assert m.procs[i] in m.procs && ProcOk(c, m, m.procs[i]);
    }
    BusyCounts(m'.procs);
    forall r | r in m'.procs
      ensures ProcOk(c, m', r)
    {
      assert r == q || r in m.procs;
    }
  }

  lemma ControlEndOther(c: Config, m: Memory, p: nat)
    requires Control(c, m) && p < |m.procs| && m.procs[p].Active? && c.budget <= MAXOPBLOCKS
    requires m.outstanding > 1
    ensures Control(c, m.(outstanding := m.outstanding - 1, procs := Wake(m.procs[p := Outside])))
  {
    var m' := m.(outstanding := m.outstanding - 1, procs := Wake(m.procs[p := Outside]));
    assert m.procs[p] in m.procs;
    SumsAfterUpdate(m.procs, p, Outside);
    SumsAfterWake(m.procs[p := Outside]);
    ReservedIs(m.procs);
    ReservedIs(m'.procs);
    forall r | r in m'.procs
      ensures ProcOk(c, m', r)
    {
      var i :| 0 <= i < |m'.procs| && m'.procs[i] == r;
      assert i != p ==> m.procs[i] in m.procs;
    }
  }

  lemma NobodyBusy(c: Config, m: Memory)
    requires Control(c, m) && m.committing
    ensures forall q | q in m.procs :: !q.Busy()
    ensures Logged(m.procs) == 0
  {
    BusyCounts(m.procs);
    SumsOfIdle(m.procs);
  }

  lemma ControlCommitStep(c: Config, m: Memory, p: nat)
    requires Control(c, m) && p < |m.procs| && m.procs[p].Committing? && m.procs[p].done < Length(m.procs[p])
    requires CanWrite(c, m.view, m.procs[p])
    ensures Control(c, DoCommitStep(c, m, p))
  {
    hide NextWrite, CanWrite;
    var m', q := DoCommitStep(c, m, p), m.procs[p];
    var q' := q.(done := q.done + 1);
    assert q in m.procs;
    NobodyBusy(c, m);
    SumsAfterUpdate(m.procs, p, q');
    ReservedIs(m.procs);
    ReservedIs(m'.procs);
    assert m'.procs[p].Committing?;
    forall r | r in m'.procs
      ensures ProcOk(c, m', r)
    {
      assert r == q' || r in m.procs;
    }
  }

  lemma ControlFinish(c: Config, m: Memory, p: nat)
    requires Control(c, m) && p < |m.procs| && m.procs[p].Committing? && m.lh == []
    ensures Control(c, DoFinish(m, p))
  {
    var m' := DoFinish(m, p);
    assert m.procs[p] in m.procs;
    NobodyBusy(c, m);
    SumsAfterUpdate(m.procs, p, Outside);
    SumsAfterWake(m.procs[p := Outside]);
    ReservedIs(m.procs);
    ReservedIs(m'.procs);
    forall r | r in m'.procs
      ensures ProcOk(c, m', r)
    {
      var i :| 0 <= i < |m'.procs| && m'.procs[i] == r;
      assert i != p ==> m.procs[i] in m.procs;
    }
  }

  lemma ControlBoot(c: Config, disk: Disk, nproc: nat)
    ensures Control(c, Memory([], 0, false, disk, seq(nproc, _ => Outside)))
  {
    var procs: seq<Proc> := seq(nproc, _ => Outside);
    SumsOfIdle(procs);
    ReservedIs(procs);
  }
}
