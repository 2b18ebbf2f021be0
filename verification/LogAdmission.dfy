/**
 Admission control over whole runs, whatever the size of the log: group commit, sleeping in begin_op and the space that
 operations have reserved. Operations keep to MAXOPBLOCKS different blocks. Nothing here depends on the disk, so it also
 holds where the log is too small for its batches, and after a commit has written behind the log.
 */
module LogAdmission {
  import opened Blocks
  import opened RedoLog
  import opened LogProtocol
  import opened LogControl

  /** A committer that has issued all its writes, or has none to issue, has emptied the list. */
  ghost predicate Emptied(c: Config, m: Memory) {
    forall q | q in m.procs && q.Committing? && q.done == Length(q) :: m.lh == []
  }

  ghost predicate Admitted(c: Config, s: State) {
    s.mode.Running? ==> Control(c, s.mode.mem) && Emptied(c, s.mode.mem)
  }

  /** Replacing process `p`, who is not and does not become a committer, with the list unchanged. */
  lemma EmptiedFrame(c: Config, m: Memory, m': Memory, p: nat)
    requires Emptied(c, m) && p < |m.procs| == |m'.procs| && !m'.procs[p].Committing? && m'.lh == m.lh
    requires m'.procs == m.procs[p := m'.procs[p]]
    ensures Emptied(c, m')
  {
    forall q | q in m'.procs && q.Committing? && q.done == Length(q)
      ensures m'.lh == []
    {
      var i :| 0 <= i < |m'.procs| && m'.procs[i] == q;
      assert m.procs[i] in m.procs;
    }
  }

  /** With nobody in commit(), nothing is to be shown. */
  lemma EmptiedNone(c: Config, m: Memory)
    requires forall q | q in m.procs :: !q.Committing?
    ensures Emptied(c, m)
  {
  }

  lemma NoCommitter(c: Config, m: Memory)
    requires Control(c, m) && !m.committing
    ensures forall q | q in m.procs :: !q.Committing?
  {
    forall q | q in m.procs
      ensures !q.Committing?
    {
      assert ProcOk(c, m, q);
    }
  }

  lemma WakeKeepsNone(procs: seq<Proc>)
    requires forall q | q in procs :: !q.Committing?
    ensures forall q | q in Wake(procs) :: !q.Committing?
  {
    forall q | q in Wake(procs)
      ensures !q.Committing?
    {
      var i :| 0 <= i < |procs| && Wake(procs)[i] == q;
      assert procs[i] in procs;
    }
  }

  lemma TryKeeps(c: Config, m: Memory, p: nat, op: nat)
    requires Control(c, m) && Emptied(c, m) && p < |m.procs| && m.procs[p].Waiting?
    ensures Control(c, DoTry(m, p, op)) && Emptied(c, DoTry(m, p, op))
  {
    hide Control, Emptied;
    ControlTry(c, m, p, op);
    EmptiedFrame(c, m, DoTry(m, p, op), p);
  }

  lemma AppendKeeps(c: Config, m: Memory, p: nat)
    requires Control(c, m) && p < |m.procs| && m.procs[p].Checked?
    ensures Control(c, DoAppend(m, p)) && Emptied(c, DoAppend(m, p))
  {
    hide Emptied;
    ControlAppend(c, m, p);
    assert m.procs[p] in m.procs;
    if m.committing {
      NobodyBusy(c, m);
    }
    NoCommitter(c, m);
    forall q | q in DoAppend(m, p).procs
      ensures !q.Committing?
    {
      var i :| 0 <= i < |m.procs| && DoAppend(m, p).procs[i] == q;
      assert m.procs[i] in m.procs;
    }
    EmptiedNone(c, DoAppend(m, p));
  }

  lemma EndKeeps(c: Config, m: Memory, p: nat, disk: Disk)
    requires Control(c, m) && p < |m.procs| && m.procs[p].Active? && c.budget <= MAXOPBLOCKS
    ensures !m.committing && Control(c, DoEnd(m, p, disk)) && Emptied(c, DoEnd(m, p, disk))
  {
    hide Control, Emptied;
    ControlEnd(c, m, p, disk);
    NoCommitter(c, m);
    var m' := DoEnd(m, p, disk);
    if m.outstanding == 1 {
      FreshCommitter(c, m, m', p, disk);
    } else {
      forall q | q in m.procs[p := Outside]
        ensures !q.Committing?
      {
        var i :| 0 <= i < |m.procs| && m.procs[p := Outside][i] == q;
        assert m.procs[i] in m.procs;
      }
      WakeKeepsNone(m.procs[p := Outside]);
      EmptiedNone(c, m');
    }
  }

  lemma FreshCommitter(c: Config, m: Memory, m': Memory, p: nat, disk: Disk)
    requires p < |m.procs| && (forall q | q in m.procs :: !q.Committing?) && m'.lh == m.lh
    requires m'.procs == m.procs[p := Committing(m.lh, disk, m.view, 0)]
    ensures Emptied(c, m')
  {
    var q0 := Committing(m.lh, disk, m.view, 0);
    forall i | 0 <= i < |m.procs| && i != p
      ensures !m'.procs[i].Committing?
    {
      assert m.procs[i] in m.procs;
    }
    forall q | q in m'.procs && q.Committing?
      ensures q == q0
    {
      var i :| 0 <= i < |m'.procs| && m'.procs[i] == q;
    }
  }

  lemma CommitStepKeeps(c: Config, m: Memory, p: nat)
    requires Control(c, m) && p < |m.procs| && m.procs[p].Committing? && m.procs[p].done < Length(m.procs[p])
    requires CanWrite(c, m.view, m.procs[p])
    ensures Control(c, DoCommitStep(c, m, p)) && Emptied(c, DoCommitStep(c, m, p))
  {
    ControlCommitStep(c, m, p);
    hide Control, NextWrite, CanWrite;
    var m', q := DoCommitStep(c, m, p), m.procs[p];
    forall r | r in m'.procs && r.Committing? && r.done == Length(r)
      ensures m'.lh == []
    {
      var i :| 0 <= i < |m'.procs| && m'.procs[i] == r;
      OneAtATime(c, m, p, i);
    }
  }

  lemma OneAtATime(c: Config, m: Memory, p: nat, i: nat)
    requires Control(c, m) && p < |m.procs| && i < |m.procs| && m.procs[p].Committing? && m.procs[i].Committing?
    ensures i == p
  {
  }

  lemma FinishKeeps(c: Config, m: Memory, p: nat)
    requires Control(c, m) && Emptied(c, m) && p < |m.procs| && m.procs[p].Committing?
    requires m.procs[p].done == Length(m.procs[p])
    ensures Control(c, DoFinish(m, p)) && Emptied(c, DoFinish(m, p))
  {
    assert m.procs[p] in m.procs && m.lh == [];
    ControlFinish(c, m, p);
    NoCommitter(c, DoFinish(m, p));
    EmptiedNone(c, DoFinish(m, p));
  }

  lemma StepKeepsAdmitted(c: Config, s: State, a: Action)
    requires c.budget <= MAXOPBLOCKS && Admitted(c, s) && Enabled(c, s, a)
    ensures Admitted(c, Do(c, s, a))
  {
    hide Control, Emptied, DoTry, DoAppend, DoEnd, DoCommitStep, DoFinish;
    hide CanWrite, NextWrite, CanRecover, RecoverWrite;
    match a {
      case Crash =>
      case RecoverStep =>
      case Boot(nproc) =>
        ControlBoot(c, s.disk, nproc);
        EmptiedNone(c, Do(c, s, a).mode.mem);
      case Call(p) =>
        ControlCall(c, s.mode.mem, p);
        EmptiedFrame(c, s.mode.mem, Do(c, s, a).mode.mem, p);
      case Check(p, b, data) =>
        CheckKeeps(c, s.mode.mem, p, b, data);
      case Try(p) => TryKeeps(c, s.mode.mem, p, s.nextOp);
      case Append(p) => AppendKeeps(c, s.mode.mem, p);
      case End(p) => EndKeeps(c, s.mode.mem, p, s.disk);
      case CommitStep(p) =>
        if CanWrite(c, s.mode.mem.view, s.mode.mem.procs[p]) {
          CommitStepKeeps(c, s.mode.mem, p);
        }
      case Finish(p) => FinishKeeps(c, s.mode.mem, p);
    }
  }

  lemma CheckKeeps(c: Config, m: Memory, p: nat, b: Word, data: Block)
    requires Control(c, m) && Emptied(c, m) && p < |m.procs| && m.procs[p].Active?
    requires b in c.boot && !c.layout.InLog(b) && |m.procs[p].logged + {b}| <= c.budget
    ensures var m' := m.(procs := m.procs[p := Checked(m.procs[p].op, m.procs[p].logged, b, data)]);
            Control(c, m') && Emptied(c, m')
  {
    hide Emptied;
    var q := Checked(m.procs[p].op, m.procs[p].logged, b, data);
    assert m.procs[p] in m.procs && ProcOk(c, m, m.procs[p]);
    ControlFrame(c, m, p, q);
    EmptiedFrame(c, m, m.(procs := m.procs[p := q]), p);
  }

  lemma {:induction false} RunKeepsAdmitted(c: Config, states: seq<State>, acts: seq<Action>, i: nat)
    requires c.budget <= MAXOPBLOCKS && IsRun(c, states, acts) && i < |states|
    ensures Admitted(c, states[i])
  {
    hide Do, Admitted;
    if i == 0 {
      StartIsAdmitted(c);
    } else {
      RunKeepsAdmitted(c, states, acts, i - 1);
      StepKeepsAdmitted(c, states[i - 1], acts[i - 1]);
    }
  }

  lemma StartIsAdmitted(c: Config)
    ensures Admitted(c, Start(c))
  {
  }

  // ---- Guarantees over every run ----

  /**
   Group commit and sleeping in begin_op. A commit runs only with no operation in progress; a process asleep in begin_op
   has a false guard; and with no operation and no commit in progress the log is empty and nobody is asleep.
   */
  lemma NoLostWakeup(c: Config, states: seq<State>, acts: seq<Action>, i: nat)
    requires c.budget <= MAXOPBLOCKS && IsRun(c, states, acts) && i < |states| && states[i].mode.Running?
    ensures var m := states[i].mode.mem;
            && (m.committing ==> m.outstanding == 0)
            && (forall q | q in m.procs && q.Asleep? :: Full(m))
            && (m.outstanding == 0 && !m.committing ==> m.lh == [] && forall q | q in m.procs :: !q.Asleep?)
  {
    RunKeepsAdmitted(c, states, acts, i);
    var m := states[i].mode.mem;
    assert forall q | q in m.procs :: ProcOk(c, m, q);
  }

  /** What is logged plus what active operations may still log never exceeds LOGSIZE. */
  lemma LogSpaceSuffices(c: Config, states: seq<State>, acts: seq<Action>, i: nat)
    requires c.budget <= MAXOPBLOCKS && IsRun(c, states, acts) && i < |states| && states[i].mode.Running?
    ensures |states[i].mode.mem.lh| + Reserved(states[i].mode.mem.procs) <= LOGSIZE
  {
    RunKeepsAdmitted(c, states, acts, i);
  }

  /** log_write never stores beyond `lh.block`: the block it is about to record is listed, or an entry is left. */
  lemma ListHasRoom(c: Config, states: seq<State>, acts: seq<Action>, i: nat, p: nat)
    requires c.budget <= MAXOPBLOCKS && IsRun(c, states, acts) && i < |states| && Runs(states[i], p)
    requires states[i].mode.mem.procs[p].Checked?
    ensures var m := states[i].mode.mem;
            m.procs[p].block in m.lh || |m.lh| < LOGSIZE
  {
    RunKeepsAdmitted(c, states, acts, i);
    var m := states[i].mode.mem;
    var m' := DoAppend(m, p);
    ControlAppend(c, m, p);
    assert forall q | q in m'.procs :: ProcOk(c, m', q);
    ReservedIs(m'.procs);
    SumsBound(m'.procs, MAXOPBLOCKS);
  }

  /** end_op never finds a commit running. */
  lemma EndOpNeverPanics(c: Config, states: seq<State>, acts: seq<Action>, i: nat)
    requires c.budget <= MAXOPBLOCKS && IsRun(c, states, acts) && i < |acts| && acts[i].End?
    ensures states[i + 1].mode.Running?
  {
    RunKeepsAdmitted(c, states, acts, i);
    EndKeeps(c, states[i].mode.mem, acts[i].p, states[i].disk);
  }
}
