/**
 begin_op, log_write and end_op of part1/log.c as lock-atomic steps of any number of processes, with commit()
 writing the disk one block at a time, crashes between any two steps, and recovery after each crash.

 Two things are finer than "one call, one step", because the code is: log_write tests the log's size before it
 takes the lock (`Check`) and appends afterwards (`Append`), and commit() runs without the lock, so other
 processes move between its writes.

 `hist`, `commits` and `nextOp` are history variables: they record every logged write with the operation that
 made it and the length of that record at each commit. No step tests them.
 */
module LogProtocol {
  import opened Blocks
  import opened RedoLog

  /** The log area, the disk at boot, and how many different blocks one operation may log. */
  datatype Config = Config(layout: Layout, boot: Disk, budget: nat) {
    ghost predicate Valid() {
      layout.Fits(boot) && WordAt(boot[layout.start], 0) == 0
    }

    /** What keeps the log from overflowing; mkfs makes size = 30 (part1/mkfs.c:25). */
    ghost predicate Roomy() {
      (budget <= 9 && layout.size >= 30) || (budget <= 10 && layout.size >= 31)
    }
  }

  datatype Proc =
    | Outside                                                              // in no transaction
    | Waiting                                                              // in begin_op's loop, about to test
    | Asleep                                                               // sleep(&log, &log.lock)
    | Active(op: nat, logged: set<Word>)                                   // between begin_op and end_op
    | Checked(op: nat, logged: set<Word>, block: Word, data: Block)        // past log_write's size test
    | Committing(batch: seq<Word>, base: Disk, cache: Disk, done: nat)     // in commit(), `done` writes issued
  {
    predicate Busy() {
      Active? || Checked?
    }
  }

  /** What a crash loses: the in-memory header, the counters, the cache's contents and the processes. */
  datatype Memory = Memory(lh: seq<Word>, outstanding: int, committing: bool, view: Disk, procs: seq<Proc>)

  datatype Mode =
    | Running(mem: Memory)
    | Recovering(base: Disk, done: nat)     // recover_from_log, started on disk `base`, `done` writes issued
    | Panicked

  datatype Event = Event(op: nat, write: Write)

  datatype State = State(disk: Disk, mode: Mode, hist: seq<Event>, commits: seq<nat>, nextOp: nat)

  datatype Action =
    | Call(p: nat)                                  // enter begin_op
    | Try(p: nat)                                   // one turn of begin_op's loop
    | Check(p: nat, block: Word, data: Block)       // modify a locked buffer and enter log_write
    | Append(p: nat)                                // log_write's critical section
    | End(p: nat)                                   // end_op's critical section
    | CommitStep(p: nat)                            // the next bwrite of commit()
    | Finish(p: nat)                                // end_op's second critical section
    | Crash
    | RecoverStep                                   // the next bwrite of recover_from_log()
    | Boot(nproc: nat)

  function Wake(procs: seq<Proc>): (r: seq<Proc>)
    ensures |r| == |procs|
    ensures forall i | 0 <= i < |procs| :: r[i] == if procs[i].Asleep? then Waiting else procs[i]
  {
    seq(|procs|, i requires 0 <= i < |procs| => if procs[i].Asleep? then Waiting else procs[i])
  }

  /** The in-memory header after log_write records block `b` (log absorption). */
  function Absorb(lh: seq<Word>, b: Word): (r: seq<Word>)
    ensures b in lh ==> r == lh
    ensures b !in lh ==> r == lh + [b]
    ensures forall x :: x in r <==> x in lh || x == b
  {
    if b in lh then lh else lh + [b]
  }

  ghost function Writes(h: seq<Event>): (ws: seq<Write>)
    ensures |ws| == |h| && forall i | 0 <= i < |h| :: ws[i] == h[i].write
  {
    seq(|h|, i requires 0 <= i < |h| => h[i].write)
  }

  /** How much of the history the last commit covered. */
  ghost function Durable(s: State): nat {
    if s.commits == [] then 0 else s.commits[|s.commits| - 1]
  }

  ghost predicate CanCommit(c: Config, q: Proc) {
    q.Committing? && c.layout.Fits(q.cache) && GoodBatch(c.layout, q.cache, q.batch)
  }

  /** The writes that a committing process issues. */
  ghost function Plan(c: Config, q: Proc): seq<Write>
    requires CanCommit(c, q)
  {
    CommitWrites(c.layout, q.batch, q.cache)
  }

  /** How many writes a commit of `q` takes. */
  function Length(q: Proc): (n: nat)
    requires q.Committing?
  {
    if q.batch == [] then 0 else 2 * |q.batch| + 2
  }

  lemma PlanLength(c: Config, q: Proc)
    requires CanCommit(c, q)
    ensures |Plan(c, q)| == Length(q)
  {
    if q.batch != [] {
      CommitHasShape(c.layout, q.batch, q.cache);
    }
  }

  /** The blocks of the next write of commit() are on the disk; otherwise the driver panics. */
  ghost predicate CanWrite(c: Config, v: Disk, q: Proc)
    requires q.Committing? && q.done < Length(q)
  {
    var n := |q.batch|;
    || CanCommit(c, q)
    || (q.done < n && q.batch[q.done] in v && c.layout.Slot(q.done) in v)
    || (q.done == n && n < WORDS && c.layout.start in v)
    || (n < q.done < 2 * n + 1 && q.batch[q.done - n - 1] in v && c.layout.Slot(q.done - n - 1) in v)
    || (q.done == 2 * n + 1 && c.layout.start in v)
  }

  /**
   The next write of commit(), if the cache shows `v`. A list that does not fit the log area is written like any other,
   the last copies behind the log.
   */
  ghost function NextWrite(c: Config, v: Disk, q: Proc): (w: Write)
    requires q.Committing? && q.done < Length(q) && CanWrite(c, v, q)
  {
    var n := |q.batch|;
    if CanCommit(c, q) then
      PlanLength(c, q);
      Plan(c, q)[q.done]
    else if q.done < n then Write(c.layout.Slot(q.done), v[q.batch[q.done]])
    else if q.done == n then HeadWrite(c.layout, q.batch, v)
    else if q.done < 2 * n + 1 then Write(q.batch[q.done - n - 1], v[c.layout.Slot(q.done - n - 1)])
    else HeadWrite(c.layout, [], v)
  }

  /** recover_from_log can read the header: its list fits the block. */
  ghost predicate HasHead(c: Config, base: Disk) {
    c.layout.start in base && WordAt(base[c.layout.start], 0) < WORDS
  }

  ghost predicate CanRecover(c: Config, disk: Disk, base: Disk, done: nat)
    requires HasHead(c, base) && done <= |GetHead(base[c.layout.start])|
  {
    var lh := GetHead(base[c.layout.start]);
    || Recoverable(c.layout, base)
    || (done < |lh| && lh[done] in disk && c.layout.Slot(done) in disk)
    || (done == |lh| && c.layout.start in disk)
  }

  /** The next write of recover_from_log, on a disk that now is `disk`. */
  ghost function RecoverWrite(c: Config, disk: Disk, base: Disk, done: nat): (w: Write)
    requires HasHead(c, base) && done <= |GetHead(base[c.layout.start])| && CanRecover(c, disk, base, done)
  {
    var lh := GetHead(base[c.layout.start]);
    if Recoverable(c.layout, base) then RecoveryWrites(c.layout, base)[done]
    else if done < |lh| then Write(lh[done], disk[c.layout.Slot(done)])
    else HeadWrite(c.layout, [], disk)
  }

  /** A list that fits the log area is written as planned. */
  lemma FittingWrite(c: Config, v: Disk, q: Proc)
    requires CanCommit(c, q)
    ensures |Plan(c, q)| == Length(q)
    ensures q.done < Length(q) ==> CanWrite(c, v, q) && NextWrite(c, v, q) == Plan(c, q)[q.done]
  {
    PlanLength(c, q);
  }

  lemma FittingRecovery(c: Config, disk: Disk, base: Disk, done: nat)
    requires Recoverable(c.layout, base)
    ensures HasHead(c, base) && |RecoveryWrites(c.layout, base)| == |GetHead(base[c.layout.start])| + 1
    ensures done < |RecoveryWrites(c.layout, base)| ==>
              && CanRecover(c, disk, base, done)
              && RecoverWrite(c, disk, base, done) == RecoveryWrites(c.layout, base)[done]
  {
    assert c.layout.InLog(c.layout.start);
  }

  /** Process `p` exists in a running system. */
  ghost predicate Runs(s: State, p: nat) {
    s.mode.Running? && p < |s.mode.mem.procs|
  }

  ghost predicate Enabled(c: Config, s: State, a: Action) {
    match a
    case Call(p) => Runs(s, p) && s.mode.mem.procs[p].Outside?
    case Try(p) => Runs(s, p) && s.mode.mem.procs[p].Waiting?
    case Check(p, b, _) =>
      && Runs(s, p) && s.mode.mem.procs[p].Active?
      && b in c.boot && !c.layout.InLog(b) && |s.mode.mem.procs[p].logged + {b}| <= c.budget
    case Append(p) => Runs(s, p) && s.mode.mem.procs[p].Checked?
    case End(p) => Runs(s, p) && s.mode.mem.procs[p].Active?
    case CommitStep(p) =>
      Runs(s, p) && s.mode.mem.procs[p].Committing? && s.mode.mem.procs[p].done < Length(s.mode.mem.procs[p])
    case Finish(p) =>
      Runs(s, p) && s.mode.mem.procs[p].Committing? && s.mode.mem.procs[p].done == Length(s.mode.mem.procs[p])
    case Crash => true
    case RecoverStep =>
      s.mode.Recovering? && HasHead(c, s.mode.base) && s.mode.done <= |GetHead(s.mode.base[c.layout.start])|
    case Boot(_) =>
      s.mode.Recovering? && HasHead(c, s.mode.base) && s.mode.done == |GetHead(s.mode.base[c.layout.start])| + 1
  }

  ghost function DoTry(m: Memory, p: nat, op: nat): Memory
    requires p < |m.procs|
  {
    if m.committing || |m.lh| + (m.outstanding + 1) * MAXOPBLOCKS > LOGSIZE then
      m.(procs := m.procs[p := Asleep])
    else
      m.(outstanding := m.outstanding + 1, procs := m.procs[p := Active(op, {})])
  }

  ghost predicate CheckPanics(c: Config, m: Memory) {
    |m.lh| >= LOGSIZE || |m.lh| >= c.layout.size - 1 || m.outstanding < 1
  }

  ghost function DoAppend(m: Memory, p: nat): Memory
    requires p < |m.procs| && m.procs[p].Checked?
  {
    var q := m.procs[p];
    m.(lh := Absorb(m.lh, q.block), view := m.view[q.block := q.data],
       procs := m.procs[p := Active(q.op, q.logged + {q.block})])
  }

  ghost function DoEnd(m: Memory, p: nat, disk: Disk): Memory
    requires p < |m.procs|
  {
    if m.outstanding == 1 then
      m.(outstanding := 0, committing := true, procs := m.procs[p := Committing(m.lh, disk, m.view, 0)])
    else
      m.(outstanding := m.outstanding - 1, procs := Wake(m.procs[p := Outside]))
  }

  /** One disk write of commit(); its last one comes just after `log.lh.n = 0`. */
  ghost function DoCommitStep(c: Config, m: Memory, p: nat): Memory
    requires p < |m.procs| && m.procs[p].Committing? && m.procs[p].done < Length(m.procs[p])
    requires CanWrite(c, m.view, m.procs[p])
  {
    var q := m.procs[p];
    var w := NextWrite(c, m.view, q);
    m.(lh := if q.done + 1 == Length(q) then [] else m.lh,
       view := m.view[w.target := w.data],
       procs := m.procs[p := q.(done := q.done + 1)])
  }

  ghost function DoFinish(m: Memory, p: nat): Memory
    requires p < |m.procs|
  {
    m.(committing := false, procs := Wake(m.procs[p := Outside]))
  }

  ghost function Do(c: Config, s: State, a: Action): State
    requires Enabled(c, s, a)
  {
    match a
    case Crash =>
      var kept := if Durable(s) <= |s.hist| then s.hist[..Durable(s)] else s.hist;
      s.(mode := Recovering(s.disk, 0), hist := kept)
    case RecoverStep =>
      if !CanRecover(c, s.disk, s.mode.base, s.mode.done) then s.(mode := Panicked)
      else
        var w := RecoverWrite(c, s.disk, s.mode.base, s.mode.done);
        s.(disk := s.disk[w.target := w.data], mode := Recovering(s.mode.base, s.mode.done + 1))
    case Boot(nproc) =>
      s.(mode := Running(Memory([], 0, false, s.disk, seq(nproc, _ => Outside))))
    case Call(p) =>
      s.(mode := Running(s.mode.mem.(procs := s.mode.mem.procs[p := Waiting])))
    case Try(p) =>
      s.(mode := Running(DoTry(s.mode.mem, p, s.nextOp)), nextOp := s.nextOp + 1)
    case Check(p, b, data) =>
      var q := s.mode.mem.procs[p];
      if CheckPanics(c, s.mode.mem) then s.(mode := Panicked)
      else s.(mode := Running(s.mode.mem.(procs := s.mode.mem.procs[p := Checked(q.op, q.logged, b, data)])))
    case Append(p) =>
      var q := s.mode.mem.procs[p];
      s.(mode := Running(DoAppend(s.mode.mem, p)), hist := s.hist + [Event(q.op, Write(q.block, q.data))])
    case End(p) =>
      if s.mode.mem.committing then s.(mode := Panicked)
      else s.(mode := Running(DoEnd(s.mode.mem, p, s.disk)))
    case CommitStep(p) =>
      var m, q := s.mode.mem, s.mode.mem.procs[p];
      if !CanWrite(c, m.view, q) then s.(mode := Panicked)
      else
        var w := NextWrite(c, m.view, q);
        s.(disk := s.disk[w.target := w.data], mode := Running(DoCommitStep(c, m, p)),
           commits := if q.done == |q.batch| then s.commits + [|s.hist|] else s.commits)
    case Finish(p) =>
      s.(mode := Running(DoFinish(s.mode.mem, p)))
  }

  // ---- Runs ----

  ghost function Start(c: Config): State {
    State(c.boot, Recovering(c.boot, 0), [], [0], 0)
  }

  /** `states` is the history of a machine that starts on disk `c.boot` and takes the steps `acts`. */
  ghost predicate IsRun(c: Config, states: seq<State>, acts: seq<Action>) {
    && |states| == |acts| + 1 && states[0] == Start(c)
    && forall i | 0 <= i < |acts| :: Enabled(c, states[i], acts[i]) && states[i + 1] == Do(c, states[i], acts[i])
  }
}
