/**
 part1/log.c as the object it is: the in-memory header and counters, with the loops that move blocks between the
 buffer cache, the log and their homes. Each method refines the protocol of module LogProtocol: seen through `State`,
 it takes exactly the protocol's step, and commit() exactly the protocol's commit steps one after the other.
 */
module LogDevice {
  import opened Blocks
  import opened RedoLog
  import opened LogProtocol

  /** Disk, cache contents, the buffers marked B_DIRTY and the list of all disk writes so far. */
  datatype Storage = Storage(disk: Disk, view: Disk, dirty: set<nat>, trace: seq<Write>)

  /** The buffers whose blocks are listed. */
  ghost function Listed(lh: seq<Word>): set<nat> {
    set b | b in lh :: b as nat
  }

  lemma ListedAfter(lh: seq<Word>, b: Word)
    ensures Listed(Absorb(lh, b)) == Listed(lh) + {b as nat} && Listed([]) == {}
  {
  }

  ghost function Targets(ws: seq<Write>): set<nat> {
    set w | w in ws :: w.target
  }

  /** From `before` to `after` exactly the writes `ws` were issued, in that order. */
  ghost predicate Issued(before: Storage, ws: seq<Write>, after: Storage) {
    && after.trace == before.trace + ws
    && after.disk == Apply(before.disk, ws) && after.view == Apply(before.view, ws)
    && after.dirty == before.dirty - Targets(ws)
  }

  lemma IssuedNone(s: Storage)
    ensures Issued(s, [], s)
  {
  }

  lemma IssuedView(before: Storage, ws: seq<Write>, after: Storage)
    requires Issued(before, ws, after)
    ensures after.view == Apply(before.view, ws)
  {
  }

  lemma IssuedAll(before: Storage, ws: seq<Write>, after: Storage)
    requires Issued(before, ws, after)
    ensures after.disk == Apply(before.disk, ws) && after.view == Apply(before.view, ws)
    ensures after.dirty == before.dirty - Targets(ws)
  {
  }

  lemma IssuedOneMore(before: Storage, ws: seq<Write>, mid: Storage, w: Write, after: Storage)
    requires Issued(before, ws, mid)
    requires after.disk == mid.disk[w.target := w.data] && after.view == mid.view[w.target := w.data]
    requires after.trace == mid.trace + [w] && after.dirty == mid.dirty - {w.target}
    ensures Issued(before, ws + [w], after)
  {
    assert (ws + [w])[..|ws|] == ws;
  }

  lemma IssuedBoth(before: Storage, ws: seq<Write>, mid: Storage, ws': seq<Write>, after: Storage)
    requires Issued(before, ws, mid) && Issued(mid, ws', after)
    ensures Issued(before, ws + ws', after)
  {
    ApplyConcat(before.disk, ws, ws');
    ApplyConcat(before.view, ws, ws');
  }

  /** The system after the first `k` of the commit steps that process `p` is about to take. */
  ghost function Committed(c: Config, s: State, p: nat, k: nat): (t: State)
    requires Runs(s, p) && CanCommit(c, s.mode.mem.procs[p]) && s.mode.mem.procs[p].done == 0
    requires k <= |Plan(c, s.mode.mem.procs[p])|
    ensures Runs(t, p) && CanCommit(c, t.mode.mem.procs[p]) && t.mode.mem.procs[p].done == k
    ensures Plan(c, t.mode.mem.procs[p]) == Plan(c, s.mode.mem.procs[p])
  {
    if k == 0 then s else Do(c, Committed(c, s, p, k - 1), CommitStep(p))
  }

  /** What the first `k` commit steps of process `p` come to. */
  ghost function Progress(s: State, p: nat, plan: seq<Write>, k: nat): State
    requires Runs(s, p) && s.mode.mem.procs[p].Committing? && k <= |plan|
  {
    var m, q := s.mode.mem, s.mode.mem.procs[p];
    s.(disk := Apply(s.disk, plan[..k]),
       mode := Running(m.(lh := if 0 < k == |plan| then [] else m.lh, view := Apply(m.view, plan[..k]),
                          procs := m.procs[p := q.(done := k)])),
       commits := if k <= |q.batch| then s.commits else s.commits + [|s.hist|])
  }

  lemma {:induction false} CommittedIs(c: Config, s: State, p: nat, k: nat)
    requires Runs(s, p) && CanCommit(c, s.mode.mem.procs[p]) && s.mode.mem.procs[p].done == 0
    requires k <= |Plan(c, s.mode.mem.procs[p])|
    ensures Committed(c, s, p, k) == Progress(s, p, Plan(c, s.mode.mem.procs[p]), k)
  {
    hide Plan, Do, Progress;
    var plan := Plan(c, s.mode.mem.procs[p]);
    if k > 0 {
      CommittedIs(c, s, p, k - 1);
      ProgressSteps(c, s, p, k - 1);
    } else {
      NoProgress(s, p, plan);
    }
  }

  lemma NoProgress(s: State, p: nat, plan: seq<Write>)
    requires Runs(s, p) && s.mode.mem.procs[p].Committing? && s.mode.mem.procs[p].done == 0
    ensures Progress(s, p, plan, 0) == s
  {
    assert s.mode.mem.procs[p := s.mode.mem.procs[p]] == s.mode.mem.procs;
  }

  lemma ProgressSteps(c: Config, s: State, p: nat, k: nat)
    requires Runs(s, p) && CanCommit(c, s.mode.mem.procs[p]) && s.mode.mem.procs[p].done == 0
    requires k < |Plan(c, s.mode.mem.procs[p])|
    ensures var plan := Plan(c, s.mode.mem.procs[p]);
            && Enabled(c, Progress(s, p, plan, k), CommitStep(p))
            && Do(c, Progress(s, p, plan, k), CommitStep(p)) == Progress(s, p, plan, k + 1)
  {
    hide CommitWrites, GoodBatch, CanWrite, NextWrite;
    FittingWrite(c, Progress(s, p, Plan(c, s.mode.mem.procs[p]), k).mode.mem.view, s.mode.mem.procs[p].(done := k));
    var plan, m, q := Plan(c, s.mode.mem.procs[p]), s.mode.mem, s.mode.mem.procs[p];
    assert plan[..k + 1][..k] == plan[..k] && plan[..k + 1][k] == plan[k];
    assert Plan(c, q.(done := k)) == plan;
    assert m.procs[p := q.(done := k)][p := q.(done := k + 1)] == m.procs[p := q.(done := k + 1)];
  }

  /** The log area and every block that is about to be logged are on the disk, and a buffer can hold any block. */
  ghost predicate Fitting(c: Config, l: Layout, disk: Disk, view: Disk, procs: seq<Proc>) {
    && l == c.layout && l.Fits(view) && disk.Keys == view.Keys == c.boot.Keys
    && forall i | 0 <= i < |procs| && procs[i].Checked? :: procs[i].block in view
  }

  lemma SlotOnDisk(c: Config, l: Layout, disk: Disk, view: Disk, procs: seq<Proc>, i: nat)
    requires Fitting(c, l, disk, view, procs) && i < l.size - 1
    ensures l.InLog(l.Slot(i)) && l.Slot(i) in view
  {
    assert l.InLog(l.Slot(i));
  }

  lemma FittingAppend(c: Config, l: Layout, disk: Disk, view: Disk, procs: seq<Proc>, p: nat, q: Proc)
    requires Fitting(c, l, disk, view, procs) && p < |procs| && procs[p].Checked? && q.Active?
    ensures Fitting(c, l, disk, view[procs[p].block := procs[p].data], procs[p := q])
  {
    assert view[procs[p].block := procs[p].data].Keys == view.Keys;
  }

  lemma FittingCommit(c: Config, l: Layout, disk: Disk, view: Disk, procs: seq<Proc>, p: nat, k: nat)
    requires Fitting(c, l, disk, view, procs) && p < |procs| && procs[p].Committing?
    ensures Fitting(c, l, disk, view, procs[p := procs[p].(done := k)])
  {
  }

  lemma CommitFits(c: Config, l: Layout, disk: Disk, view: Disk, procs: seq<Proc>, p: nat)
    requires Fitting(c, l, disk, view, procs) && p < |procs| && procs[p].Committing?
    requires procs[p].cache == view && GoodBatch(l, view, procs[p].batch)
    ensures l.Fits(view) && CanCommit(c, procs[p]) && Plan(c, procs[p]) == CommitWrites(l, procs[p].batch, view)
    ensures procs[p].batch == [] ==> Plan(c, procs[p]) == []
  {
  }

  /** What all commit steps come to. */
  lemma CommitComesTo(c: Config, s: State, p: nat, before: Storage, after: Storage)
    requires Runs(s, p) && CanCommit(c, s.mode.mem.procs[p])
    requires s.mode.mem.procs[p] == Committing(s.mode.mem.lh, s.disk, s.mode.mem.view, 0)
    requires before.disk == s.disk && before.view == s.mode.mem.view
    requires Issued(before, Plan(c, s.mode.mem.procs[p]), after)
    ensures var m, q := s.mode.mem, s.mode.mem.procs[p];
            var m' := m.(lh := [], view := after.view,
                         procs := if m.lh == [] then m.procs else m.procs[p := q.(done := 2 * |m.lh| + 2)]);
            Committed(c, s, p, |Plan(c, q)|)
            == s.(disk := after.disk, mode := Running(m'),
                  commits := if m.lh == [] then s.commits else s.commits + [|s.hist|])
    ensures before.dirty == Listed(s.mode.mem.lh) ==> after.dirty == {}
  {
    hide Listed, CommitWrites, Issued, Committed;
    var m, q := s.mode.mem, s.mode.mem.procs[p];
    var plan := Plan(c, q);
    IssuedAll(before, plan, after);
    AllWritten(c.layout, m.lh, m.view);
    CommittedIs(c, s, p, |plan|);
    assert plan[..|plan|] == plan;
    assert m.procs[p := q] == m.procs;
  }

  lemma AppendIs(c: Config, s: State, p: nat)
    requires Enabled(c, s, Append(p))
    ensures var q := s.mode.mem.procs[p];
            Do(c, s, Append(p))
            == s.(mode := Running(DoAppend(s.mode.mem, p)), hist := s.hist + [Event(q.op, Write(q.block, q.data))])
  {
  }

  class Log {
    ghost const config: Config
    const layout: Layout              // log.start, log.size
    var disk: Disk
    var view: Disk                    // what bread returns; a bwrite updates both
    var dirty: set<nat>               // the buffers with B_DIRTY set, which bget does not recycle
    var n: nat                        // log.lh.n
    const block: array<Word>          // log.lh.block
    var outstanding: int
    var committing: bool
    var procs: seq<Proc>              // where each process is in log.c
    var panicked: bool
    var nextOp: nat                   // numbers the operations
    ghost var hist: seq<Event>        // what the protocol records
    ghost var commits: seq<nat>
    ghost var trace: seq<Write>       // every disk write so far

    ghost predicate Valid()
      reads this, block
    {
      block.Length == LOGSIZE && n <= LOGSIZE && Fitting(config, layout, disk, view, procs)
    }

    /** The block numbers recorded in the in-memory header. */
    ghost function Header(): seq<Word>
      reads this, block
      requires n <= block.Length
    {
      block[..n]
    }

    /** Between two commits the buffers pinned in the cache are those listed. */
    ghost predicate Pinned()
      reads this, block
      requires n <= block.Length
    {
      dirty == Listed(Header())
    }

    /** The protocol's state that this object is in. */
    ghost function State(): State
      reads this, block
      requires n <= block.Length
    {
      var mem := Memory(Header(), outstanding, committing, view, procs);
      LogProtocol.State(disk, if panicked then Panicked else Running(mem), hist, commits, nextOp)
    }

    /** The log as Boot leaves it, on the recovered disk. */
    constructor (ghost config: Config, layout: Layout, disk: Disk, nproc: nat)
      requires layout.Fits(disk) && config.layout == layout && config.boot.Keys == disk.Keys
      ensures Valid() && Pinned() && this.config == config && this.layout == layout && trace == [] && fresh(block)
      ensures var procs := seq(nproc, _ => Outside);
              State() == LogProtocol.State(disk, Running(Memory([], 0, false, disk, procs)), [], [0], 0)
    {
      this.config, this.layout := config, layout;
      this.disk, this.view, dirty := disk, disk, {};
      n, outstanding, committing := 0, 0, false;
      block := new Word[LOGSIZE](_ => 0);
      procs, panicked := seq(nproc, _ => Outside), false;
      hist, commits, nextOp, trace := [], [0], 0, [];
    }

    method Bwrite(b: nat, data: Block)
      requires Valid() && b in view
      modifies this`disk, this`view, this`dirty, this`trace
      ensures Valid() && trace == old(trace) + [Write(b, data)] && dirty == old(dirty) - {b}
      ensures disk == old(disk)[b := data] && view == old(view)[b := data]
    {
      disk := disk[b := data];
      view := view[b := data];
      dirty := dirty - {b};
      trace := trace + [Write(b, data)];
    }

    ghost function Now(): Storage
      reads this
    {
      Storage(disk, view, dirty, trace)
    }

    /** One round of write_log. */
    method CopyToLog(tail: nat, ghost s0: Storage)
      requires Valid() && tail < n && layout.Fits(s0.view) && GoodBatch(layout, s0.view, Header())
      requires Issued(s0, LogCopies(layout, Header(), s0.view)[..tail], Now())
      modifies this`disk, this`view, this`dirty, this`trace
      ensures Valid() && Issued(s0, LogCopies(layout, Header(), s0.view)[..tail + 1], Now())
    {
      hide Issued, Fitting;
      ghost var ws, mid := LogCopies(layout, Header(), s0.view), Now();
      assert ws[tail] == Write(layout.Slot(tail), s0.view[Header()[tail]]);
      SlotOnDisk(config, layout, disk, view, procs, tail);
      IssuedView(s0, ws[..tail], mid);
      LogCopiesKeepHomes(layout, Header(), s0.view, tail);
      Bwrite(layout.Slot(tail), view[block[tail]]);
      IssuedOneMore(s0, ws[..tail], mid, ws[tail], Now());
      assert ws[..tail + 1] == ws[..tail] + [ws[tail]];
    }

    /** write_log: slot `i` of the log gets what the cache shows for the i-th listed block. */
    method WriteLog()
      requires Valid() && GoodBatch(layout, view, Header())
      modifies this`disk, this`view, this`dirty, this`trace
      ensures Valid() && Issued(old(Now()), LogCopies(layout, old(Header()), old(view)), Now())
    {
      hide Issued;
      ghost var s0, ws := Now(), LogCopies(layout, Header(), view);
      assert ws[..0] == [] && ws[..n] == ws;
      IssuedNone(Now());
      for tail := 0 to n
        invariant Valid() && Issued(s0, ws[..tail], Now())
      {
        CopyToLog(tail, s0);
      }
    }

    /** write_head: count and list go into the first block of the log, whose other words stay. */
    method WriteHead()
      requires Valid()
      modifies this`disk, this`view, this`dirty, this`trace
      ensures Valid() && Issued(old(Now()), [HeadWrite(layout, old(Header()), old(view))], Now())
    {
      var data := SetWord(view[layout.start], 0, n);
      for i := 0 to n
        invariant Valid() && data == PutBlocks(SetWord(view[layout.start], 0, n), Header(), i)
        invariant Now() == old(Now())
      {
        data := SetWord(data, 1 + i, block[i]);
      }
      ghost var mid := Now();
      Bwrite(layout.start, data);
      IssuedOneMore(mid, [], mid, Write(layout.start, data), Now());
      assert [] + [Write(layout.start, data)] == [Write(layout.start, data)];
    }

    /** read_head: count and list come from that block. */
    method ReadHead()
      requires Valid() && (WordAt(view[layout.start], 0) <= LOGSIZE || WordAt(view[layout.start], 0) >= 0x8000_0000)
      modifies this`n, block
      ensures Valid() && Header() == GetHead(view[layout.start])
    {
      var data := view[layout.start];
      n := if WordAt(data, 0) <= LOGSIZE then WordAt(data, 0) else 0;
      for i := 0 to n
        invariant n <= LOGSIZE == block.Length && n == (if WordAt(data, 0) <= LOGSIZE then WordAt(data, 0) else 0)
        invariant forall j | 0 <= j < i :: block[j] == WordAt(data, 1 + j)
      {
        block[i] := WordAt(data, 1 + i);
      }
      assert |GetHead(data)| == n && forall j | 0 <= j < n :: GetHead(data)[j] == block[..n][j];
    }

    /** One round of install_trans. */
    method InstallOne(tail: nat, ghost s0: Storage)
      requires Valid() && tail < n && layout.Fits(s0.view) && GoodBatch(layout, s0.view, Header())
      requires view.Keys == s0.view.Keys && forall i | 0 <= i < n :: layout.Slot(i) in s0.view
      requires Issued(s0, Installs(layout, Header(), s0.view)[..tail], Now())
      modifies this`disk, this`view, this`dirty, this`trace
      ensures Valid() && view.Keys == s0.view.Keys
      ensures Issued(s0, Installs(layout, Header(), s0.view)[..tail + 1], Now())
    {
      hide Issued, Fitting;
      ghost var ws, mid := Installs(layout, Header(), s0.view), Now();
      assert ws[tail] == Write(block[tail], s0.view[layout.Slot(tail)]);
      assert Header()[tail] == block[tail] && block[tail] in Header();
      SlotOnDisk(config, layout, disk, view, procs, tail);
      IssuedView(s0, ws[..tail], mid);
      InstallsKeepLog(layout, Header(), s0.view, tail, layout.Slot(tail));
      Bwrite(block[tail], view[layout.Slot(tail)]);
      IssuedOneMore(s0, ws[..tail], mid, ws[tail], Now());
      assert ws[..tail + 1] == ws[..tail] + [ws[tail]];
    }

    /** install_trans: every listed block gets what its slot holds. */
    method InstallTrans()
      requires Valid() && GoodBatch(layout, view, Header())
      requires forall i | 0 <= i < n :: layout.Slot(i) in view
      modifies this`disk, this`view, this`dirty, this`trace
      ensures Valid() && Issued(old(Now()), Installs(layout, old(Header()), old(view)), Now())
    {
      hide Issued;
      ghost var s0, ws := Now(), Installs(layout, Header(), view);
      assert ws[..0] == [] && ws[..n] == ws;
      IssuedNone(Now());
      for tail := 0 to n
        invariant Valid() && view.Keys == s0.view.Keys && Issued(s0, ws[..tail], Now())
      {
        InstallOne(tail, s0);
      }
    }

    /** What commit() does with a list that is not empty. */
    method CommitList()
      requires Valid() && n > 0 && GoodBatch(layout, view, Header())
      modifies this`disk, this`view, this`dirty, this`trace, this`n
      ensures Valid() && n == 0 && Issued(old(Now()), CommitWrites(layout, old(Header()), old(view)), Now())
    {
      hide Issued, CommitWrites;
      ghost var lh, s0 := Header(), Now();
      WriteLog();
      ghost var s1 := Now();
      WriteHead();
      ghost var s2 := Now();
      LogIsWritten(layout, lh, s0, s1, s2);
      InstallTrans();
      ghost var s3 := Now();
      n := 0;
      WriteHead();
      AllIsWritten(layout, lh, s0, s2, s3, Now());
    }

    /**
     commit(): exactly the writes whose crashes are analysed in module RedoLog, in that order, which are the protocol's
     commit steps of process `p`; afterwards no buffer is pinned.
     */
    method Commit(p: nat)
      requires Valid() && GoodBatch(layout, view, Header()) && p < |procs| && !panicked
      requires procs[p] == Committing(Header(), disk, view, 0)
      modifies this`disk, this`view, this`dirty, this`trace, this`n, this`procs, this`commits
      ensures Valid() && n == 0 && Issued(old(Now()), CommitWrites(layout, old(Header()), old(view)), Now())
      ensures State() == Committed(config, old(State()), p, |Plan(config, old(procs[p]))|)
      ensures old(Pinned()) ==> Pinned() && dirty == {}
    {
      hide Issued, CommitWrites, Committed, Listed, Fitting, Plan;
      ghost var s0, before := Now(), State();
      CommitFits(config, layout, disk, view, procs, p);
      if n > 0 {
        FittingCommit(config, layout, disk, view, procs, p, 2 * n + 2);
        procs, commits := procs[p := procs[p].(done := 2 * n + 2)], commits + [|hist|];
        CommitList();
      } else {
        IssuedNone(s0);
      }
      ListedAfter([], 0);
      CommitComesTo(config, before, p, s0, Now());
    }

    /** Recovery after a crash, when the cache is empty and so shows the disk. */
    method RecoverFromLog()
      requires Valid() && view == disk && Recoverable(layout, disk) && WordAt(disk[layout.start], 0) <= LOGSIZE
      modifies this`disk, this`view, this`dirty, this`trace, this`n, block
      ensures Valid() && n == 0 && view == disk == Recover(layout, old(disk))
      ensures trace == old(trace) + RecoveryWrites(layout, old(disk))
    {
      ghost var d0, s0 := disk, Now();
      ReadHead();
      ghost var lh := Header();
      assert forall i | 0 <= i < n :: layout.InLog(layout.Slot(i));
      InstallTrans();
      ghost var s1 := Now();
      n := 0;
      InstallsKeepHeader(layout, lh, d0);
      WriteHead();
      IssuedBoth(s0, Installs(layout, lh, d0), s1, [HeadWrite(layout, [], d0)], Now());
    }

    /** wakeup(&log). */
    method Wakeup()
      modifies this`procs
      ensures procs == Wake(old(procs))
    {
      for i := 0 to |procs|
        invariant |procs| == |old(procs)|
        invariant forall j | 0 <= j < i :: procs[j] == Wake(old(procs))[j]
        invariant forall j | i <= j < |procs| :: procs[j] == old(procs)[j]
      {
        if procs[i].Asleep? {
          procs := procs[i := Waiting];
        }
      }
    }

    /** One turn of begin_op's loop. */
    method BeginOp(p: nat) returns (admitted: bool)
      requires Valid() && Enabled(config, State(), Try(p))
      modifies this`outstanding, this`procs, this`nextOp
      ensures Valid() && State() == Do(config, old(State()), Try(p)) && admitted == procs[p].Active?
    {
      hide Plan, CanCommit, Recoverable, RecoveryWrites;
      var op := nextOp;
      nextOp := nextOp + 1;
      if committing {
        procs := procs[p := Asleep];
        return false;
      } else if n + (outstanding + 1) * MAXOPBLOCKS > LOGSIZE {
        procs := procs[p := Asleep];
        return false;
      }
      outstanding := outstanding + 1;
      procs := procs[p := Active(op, {})];
      return true;
    }

    /** log_write up to its lock: the tests for a transaction that is too big or outside begin_op and end_op. */
    method LogWriteTests(p: nat, b: Word, data: Block)
      requires Valid() && Enabled(config, State(), Check(p, b, data))
      modifies this`procs, this`panicked
      ensures Valid() && State() == Do(config, old(State()), Check(p, b, data))
    {
      if n >= LOGSIZE || n >= layout.size - 1 {
        panicked := true;
      } else if outstanding < 1 {
        panicked := true;
      } else {
        procs := procs[p := Checked(procs[p].op, procs[p].logged, b, data)];
      }
    }

    /** log_write's search: the block is recorded once, however often it is written. */
    method Record(b: Word)
      requires Valid() && (b in Header() || n < LOGSIZE)
      modifies this`n, block
      ensures Valid() && Header() == Absorb(old(Header()), b)
    {
      hide Fitting;
      var i := 0;
      while i < n && block[i] != b
        invariant i <= n && b !in block[..i] && block[..] == old(block[..]) && n == old(n)
      {
        i := i + 1;
      }
      assert i < n ==> b == Header()[i];
      block[i] := b;
      if i == n {
        n := n + 1;
      }
    }

    /** log_write under its lock, which also pins the buffer. The array has room by LogAdmission.ListHasRoom. */
    method LogWrite(p: nat)
      requires Valid() && Enabled(config, State(), Append(p)) && (procs[p].block in Header() || n < LOGSIZE)
      modifies this`n, this`view, this`dirty, this`procs, this`hist, block
      ensures Valid() && State() == Do(config, old(State()), Append(p))
      ensures dirty == old(dirty) + {old(procs[p]).block} && (old(Pinned()) ==> Pinned())
    {
      hide Listed, Absorb, Do, Plan, CanCommit, Recoverable, RecoveryWrites, Fitting;
      AppendIs(config, State(), p);
      var q := procs[p];
      FittingAppend(config, layout, disk, view, procs, p, Active(q.op, q.logged + {q.block}));
      view, dirty := view[q.block := q.data], dirty + {q.block};
      procs, hist := procs[p := Active(q.op, q.logged + {q.block})], hist + [Event(q.op, Write(q.block, q.data))];
      Record(q.block);
      ListedAfter(old(Header()), q.block);
    }

    /** end_op's first critical section; told to commit, the caller runs Commit and then Finished. */
    method EndOp(p: nat) returns (doCommit: bool)
      requires Valid() && Enabled(config, State(), End(p))
      modifies this`outstanding, this`committing, this`procs, this`panicked
      ensures Valid() && State() == Do(config, old(State()), End(p))
      ensures doCommit <==> !panicked && procs[p].Committing?
    {
      outstanding := outstanding - 1;
      if committing {
        panicked := true;
        return false;
      }
      if outstanding == 0 {
        committing := true;
        procs := procs[p := Committing(block[..n], disk, view, 0)];
        return true;
      }
      procs := procs[p := Outside];
      Wakeup();
      return false;
    }

    /** end_op's second critical section, after commit(). */
    method Finished(p: nat)
      requires Valid() && Enabled(config, State(), Finish(p))
      modifies this`committing, this`procs
      ensures Valid() && State() == Do(config, old(State()), Finish(p))
    {
      committing := false;
      procs := procs[p := Outside];
      Wakeup();
    }
  }

  /** The log after write_log and write_head, from which install_trans starts. */
  lemma LogIsWritten(l: Layout, lh: seq<Word>, s0: Storage, s1: Storage, s2: Storage)
    requires l.Fits(s0.view) && GoodBatch(l, s0.view, lh) && l.Fits(s1.view)
    requires Issued(s0, LogCopies(l, lh, s0.view), s1) && Issued(s1, [HeadWrite(l, lh, s1.view)], s2)
    ensures Issued(s0, LogCopies(l, lh, s0.view) + [HeadWrite(l, lh, s0.view)], s2) && s2.view.Keys == s0.view.Keys
    ensures GoodBatch(l, s2.view, lh) && forall i | 0 <= i < |lh| :: l.Slot(i) in s2.view
  {
    hide Issued;
    var copies, head := LogCopies(l, lh, s0.view), HeadWrite(l, lh, s0.view);
    IssuedView(s0, copies, s1);
    LogCopiesKeepHeader(l, lh, s0.view);
    IssuedBoth(s0, copies, s1, [head], s2);
    IssuedView(s0, copies + [head], s2);
    LoggedKeys(l, lh, s0.view);
    assert forall i | 0 <= i < |lh| :: l.InLog(l.Slot(i));
  }

  lemma AllIsWritten(l: Layout, lh: seq<Word>, s0: Storage, s2: Storage, s3: Storage, s4: Storage)
    requires lh != [] && l.Fits(s0.view) && GoodBatch(l, s0.view, lh) && l.Fits(s3.view)
    requires l.Fits(s2.view) && GoodBatch(l, s2.view, lh) && forall i | 0 <= i < |lh| :: l.Slot(i) in s2.view
    requires Issued(s0, LogCopies(l, lh, s0.view) + [HeadWrite(l, lh, s0.view)], s2)
    requires Issued(s2, Installs(l, lh, s2.view), s3) && Issued(s3, [HeadWrite(l, [], s3.view)], s4)
    ensures Issued(s0, CommitWrites(l, lh, s0.view), s4)
  {
    hide Issued;
    var ws, installs := LogCopies(l, lh, s0.view) + [HeadWrite(l, lh, s0.view)], Installs(l, lh, s2.view);
    IssuedView(s0, ws, s2);
    IssuedView(s2, installs, s3);
    InstallsKeepHeader(l, lh, s2.view);
    IssuedBoth(s0, ws, s2, installs, s3);
    IssuedBoth(s0, ws + installs, s3, [HeadWrite(l, [], s2.view)], s4);
  }

  /** commit() issues 2n + 2 writes for n listed blocks, and every listed block is among them. */
  lemma AllWritten(l: Layout, lh: seq<Word>, v: Disk)
    requires l.Fits(v) && GoodBatch(l, v, lh)
    ensures var ws := CommitWrites(l, lh, v);
            && |ws| == (if lh == [] then 0 else 2 * |lh| + 2) && Listed(lh) <= Targets(ws)
  {
    var ws := CommitWrites(l, lh, v);
    forall i | 0 <= i < |lh|
      ensures lh[i] in Targets(ws)
    {
      assert ws[|lh| + 1 + i].target == lh[i] && ws[|lh| + 1 + i] in ws;
    }
  }

  lemma LogCopiesKeepHomes(l: Layout, lh: seq<Word>, v: Disk, k: nat)
    requires l.Fits(v) && GoodBatch(l, v, lh) && k < |lh|
    ensures var d := Apply(v, LogCopies(l, lh, v)[..k]);
            lh[k] in d && d[lh[k]] == v[lh[k]]
  {
    var ws := LogCopies(l, lh, v)[..k];
    assert forall w | w in ws :: l.InLog(w.target);
    assert lh[k] in lh;
    ApplyFrame(v, ws, lh[k]);
  }

  lemma LogCopiesKeepHeader(l: Layout, lh: seq<Word>, v: Disk)
    requires l.Fits(v) && GoodBatch(l, v, lh)
    ensures l.start in Apply(v, LogCopies(l, lh, v)) && Apply(v, LogCopies(l, lh, v))[l.start] == v[l.start]
  {
    assert l.InLog(l.start);
    ApplyFrame(v, LogCopies(l, lh, v), l.start);
  }

  lemma InstallsKeepLog(l: Layout, lh: seq<Word>, v: Disk, k: nat, b: nat)
    requires l.Fits(v) && GoodBatch(l, v, lh) && k <= |lh| && l.InLog(b)
    requires forall i | 0 <= i < |lh| :: l.Slot(i) in v
    ensures b in Apply(v, Installs(l, lh, v)[..k]) && Apply(v, Installs(l, lh, v)[..k])[b] == v[b]
  {
    var ws := Installs(l, lh, v)[..k];
    forall w | w in ws
      ensures !l.InLog(w.target)
    {
      var i :| 0 <= i < |ws| && ws[i] == w;
      assert lh[i] in lh;
    }
    ApplyFrame(v, ws, b);
  }

  lemma InstallsKeepHeader(l: Layout, lh: seq<Word>, v: Disk)
    requires l.Fits(v) && GoodBatch(l, v, lh) && forall i | 0 <= i < |lh| :: l.Slot(i) in v
    ensures l.start in Apply(v, Installs(l, lh, v)) && Apply(v, Installs(l, lh, v))[l.start] == v[l.start]
  {
    assert l.InLog(l.start) && Installs(l, lh, v)[..|lh|] == Installs(l, lh, v);
    InstallsKeepLog(l, lh, v, |lh|, l.start);
  }
}
