/**
 MAXOPBLOCKS = 10 is one too many. Three operations that each log 10 different blocks drive log_write into its
 "too big a transaction" panic, whatever the size of the log; and because that test is made before the lock is taken,
 two operations can pass it together and overflow mkfs's log of 30 blocks. The commit that follows writes the last copy
 over the block behind the log.
 */
module LogPanic {
  import opened Blocks
  import opened RedoLog
  import opened LogProtocol

  lemma ExtendRun(c: Config, states: seq<State>, acts: seq<Action>, a: Action)
    requires IsRun(c, states, acts) && Enabled(c, states[|states| - 1], a)
    ensures |states| == |acts| + 1 && IsRun(c, states + [Do(c, states[|states| - 1], a)], acts + [a])
  {
    hide Do, Enabled;
  }

  /** Distinct home blocks to log. */
  ghost predicate Targets(c: Config, blocks: seq<Word>) {
    && |blocks| == 30
    && (forall b | b in blocks :: b in c.boot && !c.layout.InLog(b))
    && (forall i, j | 0 <= i < j < |blocks| :: blocks[i] != blocks[j])
  }

  /** Operation `j` of three has logged no more than its share of the first `k` blocks, dealt out in turn. */
  ghost predicate Part(q: Proc, blocks: seq<Word>, j: nat, k: nat)
    requires k <= |blocks| && j < 3
  {
    q.Active? && |q.logged| <= (k + 2 - j) / 3 && (0 < k && (k - 1) % 3 == j ==> blocks[k - 1] in q.logged)
  }

  /** Three operations are active and the first `k` blocks are logged. */
  ghost predicate Loaded(s: State, blocks: seq<Word>, k: nat)
    requires k <= |blocks|
  {
    && s.mode.Running? && s.mode.mem.lh == blocks[..k] && s.mode.mem.outstanding == 3 && !s.mode.mem.committing
    && (forall e | e in s.hist :: e.write.target in blocks)
    && |s.mode.mem.procs| == 3 && forall j | 0 <= j < 3 :: Part(s.mode.mem.procs[j], blocks, j, k)
  }

  /** Boot with three processes that all enter a transaction. */
  lemma ThreeOperations(c: Config, blocks: seq<Word>) returns (states: seq<State>, acts: seq<Action>)
    requires c.Valid() && Targets(c, blocks)
    ensures |states| == |acts| + 1 && IsRun(c, states, acts) && Loaded(states[|states| - 1], blocks, 0)
  {
    states, acts := [Start(c)], [];
    RecoveryHasShape(c.layout, c.boot);
    ExtendRun(c, states, acts, RecoverStep);
    states, acts := states + [Do(c, states[0], RecoverStep)], acts + [RecoverStep];
    ExtendRun(c, states, acts, Boot(3));
    states, acts := states + [Do(c, states[1], Boot(3))], acts + [Boot(3)];
    hide RecoveryWrites, Recoverable;
    var s := states[2];
    for j := 0 to 3
      invariant IsRun(c, states, acts) && states[|states| - 1] == s
      invariant s.mode.Running? && s.mode.mem.lh == [] && s.mode.mem.outstanding == j && !s.mode.mem.committing
      invariant s.hist == []
      invariant |s.mode.mem.procs| == 3
      invariant forall i | 0 <= i < j :: s.mode.mem.procs[i].Active? && s.mode.mem.procs[i].logged == {}
      invariant forall i | j <= i < 3 :: s.mode.mem.procs[i].Outside?
    {
      ExtendRun(c, states, acts, Call(j));
      s := Do(c, s, Call(j));
      states, acts := states + [s], acts + [Call(j)];
      ExtendRun(c, states, acts, Try(j));
      s := Do(c, s, Try(j));
      states, acts := states + [s], acts + [Try(j)];
    }
  }

  /** One more block is logged, unless the size test of log_write panics first. */
  lemma LogOne(c: Config, blocks: seq<Word>, k: nat, states: seq<State>, acts: seq<Action>)
    returns (states': seq<State>, acts': seq<Action>)
    requires c.Valid() && c.budget >= 10 && Targets(c, blocks) && k < 30
    requires IsRun(c, states, acts) && Loaded(states[|states| - 1], blocks, k)
    ensures |states'| == |acts'| + 1 && IsRun(c, states', acts')
    ensures states'[|states'| - 1].mode.Panicked? || Loaded(states'[|states'| - 1], blocks, k + 1)
    ensures k < LOGSIZE && k < c.layout.size - 1 ==> Loaded(states'[|states'| - 1], blocks, k + 1)
  {
    var s, p, b := states[|states| - 1], k % 3, blocks[k];
    assert Part(s.mode.mem.procs[p], blocks, p, k);
    var check := Check(p, b, ZERO_BLOCK);
    ExtendRun(c, states, acts, check);
    var s1 := Do(c, s, check);
    states', acts' := states + [s1], acts + [check];
    if !s1.mode.Panicked? {
      ExtendRun(c, states', acts', Append(p));
      states', acts' := states' + [Do(c, s1, Append(p))], acts' + [Append(p)];
      LoadedAfterAppend(c, blocks, k, s, s1);
    }
  }

  lemma LoadedAfterAppend(c: Config, blocks: seq<Word>, k: nat, s: State, s1: State)
    requires Targets(c, blocks) && k < 30 && Loaded(s, blocks, k) && Enabled(c, s, Check(k % 3, blocks[k], ZERO_BLOCK))
    requires s1 == Do(c, s, Check(k % 3, blocks[k], ZERO_BLOCK)) && s1.mode.Running?
    ensures Loaded(Do(c, s1, Append(k % 3)), blocks, k + 1)
  {
    hide CanWrite, NextWrite, CanRecover, RecoverWrite, DoTry, DoEnd, DoCommitStep, DoFinish, HasHead;
    var p, b := k % 3, blocks[k];
    assert Part(s.mode.mem.procs[p], blocks, p, k);
    var s2 := Do(c, s1, Append(p));
    assert b !in blocks[..k];
    assert blocks[..k + 1] == blocks[..k] + [b];
    forall j: nat | j < 3
      ensures Part(s2.mode.mem.procs[j], blocks, j, k + 1)
    {
      assert Part(s.mode.mem.procs[j], blocks, j, k);
    }
  }

  /**
   The bound of 9 is exact: with 10 different blocks allowed to an operation, as the constant MAXOPBLOCKS says,
   some run ends in log_write's panic.
   */
  lemma TenBlocksPanic(c: Config, blocks: seq<Word>) returns (states: seq<State>, acts: seq<Action>)
    requires c.Valid() && c.budget >= 10 && Targets(c, blocks)
    ensures |states| == |acts| + 1 && IsRun(c, states, acts) && states[|states| - 1].mode.Panicked?
  {
    hide IsRun, Enabled, Do;
    states, acts := ThreeOperations(c, blocks);
    var k := 0;
    while k < 30 && !states[|states| - 1].mode.Panicked?
      invariant k <= 30 && |states| == |acts| + 1 && IsRun(c, states, acts)
      invariant states[|states| - 1].mode.Panicked? || Loaded(states[|states| - 1], blocks, k)
    {
      states, acts := LogOne(c, blocks, k, states, acts);
      k := k + 1;
    }
    if !states[|states| - 1].mode.Panicked? {
      FullLogPanics(c, blocks, states[|states| - 1]);
      var check := Check(2, blocks[29], ZERO_BLOCK);
      ExtendRun(c, states, acts, check);
      states, acts := states + [Do(c, states[|states| - 1], check)], acts + [check];
    }
  }

  /** Logging a block again panics too once 30 blocks are logged, although nothing would be appended. */
  lemma FullLogPanics(c: Config, blocks: seq<Word>, s: State)
    requires Targets(c, blocks) && c.budget >= 10 && Loaded(s, blocks, 30)
    ensures Enabled(c, s, Check(2, blocks[29], ZERO_BLOCK))
    ensures Do(c, s, Check(2, blocks[29], ZERO_BLOCK)).mode.Panicked?
  {
    assert Part(s.mode.mem.procs[2], blocks, 2, 30);
    assert s.mode.mem.procs[2].logged + {blocks[29]} == s.mode.mem.procs[2].logged;
  }

  /**
   Two operations test the log's size at 28 blocks, both pass, both append: 30 blocks are to be logged in 29 slots, and
   the last slot lies behind the log.
   */
  lemma RaceOverflows(c: Config, blocks: seq<Word>) returns (states: seq<State>, acts: seq<Action>)
    requires c.Valid() && c.budget >= 10 && c.layout.size == 30 && Targets(c, blocks)
    ensures |states| == |acts| + 1 && IsRun(c, states, acts) && states[|states| - 1].mode.Running?
    ensures |states[|states| - 1].mode.mem.lh| == 30 && !c.layout.InLog(c.layout.Slot(29))
    ensures Overfull(states[|states| - 1], blocks)
  {
    hide IsRun, Enabled, Do;
    states, acts := ThreeOperations(c, blocks);
    var k := 0;
    while k < 28
      invariant k <= 28 && |states| == |acts| + 1 && IsRun(c, states, acts) && Loaded(states[|states| - 1], blocks, k)
    {
      states, acts := LogOne(c, blocks, k, states, acts);
      k := k + 1;
    }
    states, acts := BothPass(c, blocks, states, acts);
  }

  lemma BothPass(c: Config, blocks: seq<Word>, states: seq<State>, acts: seq<Action>)
    returns (states': seq<State>, acts': seq<Action>)
    requires c.Valid() && c.budget >= 10 && c.layout.size == 30 && Targets(c, blocks)
    requires |states| == |acts| + 1 && IsRun(c, states, acts) && Loaded(states[|states| - 1], blocks, 28)
    ensures |states'| == |acts'| + 1 && IsRun(c, states', acts') && states'[|states'| - 1].mode.Running?
    ensures Overfull(states'[|states'| - 1], blocks)
  {
    hide IsRun;
    states', acts' := states, acts;
    var s := states[|states| - 1];
    assert Part(s.mode.mem.procs[1], blocks, 1, 28) && Part(s.mode.mem.procs[2], blocks, 2, 28);
    assert blocks[28] !in blocks[..28] && blocks[29] !in blocks[..28];
    var todo := [Check(1, blocks[28], ZERO_BLOCK), Check(2, blocks[29], ZERO_BLOCK), Append(1), Append(2)];
    ExtendRun(c, states', acts', todo[0]);
    var s1 := Do(c, s, todo[0]);
    states', acts' := states' + [s1], acts' + [todo[0]];
    ExtendRun(c, states', acts', todo[1]);
    var s2 := Do(c, s1, todo[1]);
    states', acts' := states' + [s2], acts' + [todo[1]];
    ExtendRun(c, states', acts', todo[2]);
    var s3 := Do(c, s2, todo[2]);
    states', acts' := states' + [s3], acts' + [todo[2]];
    ExtendRun(c, states', acts', todo[3]);
    var s4 := Do(c, s3, todo[3]);
    states', acts' := states' + [s4], acts' + [todo[3]];
    assert blocks[..28] + [blocks[28]] + [blocks[29]] == blocks;
  }

  /** Three operations are active, and all 30 blocks are listed and written. */
  ghost predicate Overfull(s: State, blocks: seq<Word>)
    requires |blocks| == 30
  {
    && s.mode.Running? && s.mode.mem.lh == blocks && s.mode.mem.outstanding == 3 && !s.mode.mem.committing
    && |s.mode.mem.procs| == 3 && (forall j | 0 <= j < 3 :: s.mode.mem.procs[j].Active?)
    && (forall e | e in s.hist :: e.write.target in blocks)
    && blocks[29] in s.mode.mem.view && s.mode.mem.view[blocks[29]] == ZERO_BLOCK
  }

  // ---- The commit after the race ----

  /** No block of the disk disappears. */
  ghost predicate AllThere(c: Config, s: State) {
    (forall b | b in c.boot :: b in s.disk) && (s.mode.Running? ==> forall b | b in c.boot :: b in s.mode.mem.view)
  }

  lemma StepKeepsBlocks(c: Config, s: State, a: Action)
    requires AllThere(c, s) && Enabled(c, s, a)
    ensures AllThere(c, Do(c, s, a))
  {
    hide CanWrite, NextWrite, CanRecover, RecoverWrite;
  }

  lemma {:induction false} RunKeepsBlocks(c: Config, states: seq<State>, acts: seq<Action>, i: nat)
    requires IsRun(c, states, acts) && i < |states|
    ensures AllThere(c, states[i])
  {
    hide Do, Enabled;
    if i > 0 {
      RunKeepsBlocks(c, states, acts, i - 1);
      StepKeepsBlocks(c, states[i - 1], acts[i - 1]);
    }
  }

  /** Process 2 has copied the first `k` listed blocks. */
  ghost predicate Copying(c: Config, s: State, blocks: seq<Word>, k: nat)
    requires |blocks| == 30
  {
    && s.mode.Running? && |s.mode.mem.procs| == 3 && (forall e | e in s.hist :: e.write.target in blocks)
    && s.mode.mem.procs[2].Committing? && s.mode.mem.procs[2].batch == blocks && s.mode.mem.procs[2].done == k
    && blocks[29] in s.mode.mem.view && s.mode.mem.view[blocks[29]] == ZERO_BLOCK
    && (k == 30 ==> c.layout.Slot(29) in s.disk && s.disk[c.layout.Slot(29)] == ZERO_BLOCK)
  }

  lemma StartCopying(c: Config, blocks: seq<Word>, states: seq<State>, acts: seq<Action>)
    returns (states': seq<State>, acts': seq<Action>)
    requires Targets(c, blocks) && |states| == |acts| + 1 && IsRun(c, states, acts)
    requires Overfull(states[|states| - 1], blocks)
    ensures |states'| == |acts'| + 1 && IsRun(c, states', acts') && Copying(c, states'[|states'| - 1], blocks, 0)
  {
    hide IsRun;
    var s := states[|states| - 1];
    ExtendRun(c, states, acts, End(0));
    var s1 := Do(c, s, End(0));
    states', acts' := states + [s1], acts + [End(0)];
    ExtendRun(c, states', acts', End(1));
    var s2 := Do(c, s1, End(1));
    states', acts' := states' + [s2], acts' + [End(1)];
    ExtendRun(c, states', acts', End(2));
    states', acts' := states' + [Do(c, s2, End(2))], acts' + [End(2)];
  }

  lemma CopyOne(c: Config, s: State, blocks: seq<Word>, k: nat)
    requires c.Valid() && Targets(c, blocks) && c.layout.size == 30 && Copying(c, s, blocks, k) && k < 30
    requires AllThere(c, s) && c.layout.Slot(29) in c.boot && c.layout.Slot(29) !in blocks
    ensures Enabled(c, s, CommitStep(2)) && Copying(c, Do(c, s, CommitStep(2)), blocks, k + 1)
  {
    var q, w := s.mode.mem.procs[2], c.layout.Slot(k);
    assert q.batch[k] in c.boot && !CanCommit(c, q);
    assert k < 29 ==> c.layout.InLog(w);
    assert blocks[29] in blocks && w != blocks[29];
  }

  /**
   What the race comes to: write_log copies the thirtieth listed block over the block behind the log, which no operation
   wrote.
   */
  lemma OverflowHitsHome(c: Config, blocks: seq<Word>) returns (states: seq<State>, acts: seq<Action>)
    requires c.Valid() && c.budget >= 10 && c.layout.size == 30 && Targets(c, blocks)
    requires c.layout.Slot(29) in c.boot && c.layout.Slot(29) !in blocks
    ensures |states| == |acts| + 1 && IsRun(c, states, acts)
    ensures var s, b := states[|states| - 1], c.layout.Slot(29);
            && !c.layout.InLog(b) && b in s.disk && s.disk[b] == ZERO_BLOCK
            && forall e | e in s.hist :: e.write.target != b
  {
    hide IsRun, Enabled, Do;
    states, acts := RaceOverflows(c, blocks);
    states, acts := StartCopying(c, blocks, states, acts);
    for k := 0 to 30
      invariant |states| == |acts| + 1 && IsRun(c, states, acts) && Copying(c, states[|states| - 1], blocks, k)
    {
      var s := states[|states| - 1];
      RunKeepsBlocks(c, states, acts, |states| - 1);
      CopyOne(c, s, blocks, k);
      ExtendRun(c, states, acts, CommitStep(2));
      states, acts := states + [Do(c, s, CommitStep(2))], acts + [CommitStep(2)];
    }
  }
}
