/**
 What is on the disk at every moment of every run. `committed` stands for the home blocks that recovery must
 bring back and `latest` for those that the running system sees through its cache.
 */
module LogDurability {
  import opened Blocks
  import opened RedoLog
  import opened LogProtocol

  lemma {:induction false} ApplyAgreesAt(a: Disk, b: Disk, ws: seq<Write>, x: nat)
    requires x in a && x in b && (a[x] == b[x] || exists i | 0 <= i < |ws| :: ws[i].target == x)
    ensures x in Apply(a, ws) && x in Apply(b, ws) && Apply(a, ws)[x] == Apply(b, ws)[x]
  {
    if ws != [] && ws[|ws| - 1].target != x {
      var front := ws[..|ws| - 1];
      if a[x] != b[x] {
        var i :| 0 <= i < |ws| && ws[i].target == x;
        assert front[i].target == x;
      }
      ApplyAgreesAt(a, b, front, x);
    }
  }

  /** No commit is running: the log is empty on disk, and only logged blocks differ from the cache. */
  ghost predicate Quiet(c: Config, disk: Disk, m: Memory, committed: Disk, latest: Disk) {
    && c.layout.Fits(disk) && disk.Keys == m.view.Keys == c.boot.Keys
    && GoodBatch(c.layout, m.view, m.lh)
    && WordAt(disk[c.layout.start], 0) == 0
    && (forall x | x in disk && x !in m.lh :: m.view[x] == disk[x])
    && SameHome(c.layout, disk, committed) && SameHome(c.layout, m.view, latest)
  }

  /** Process `q` is in commit(): disk and cache have seen the same prefix of its writes. */
  ghost predicate InCommit(c: Config, disk: Disk, m: Memory, q: Proc, committed: Disk, latest: Disk) {
    && CanCommit(c, q) && q.base.Keys == q.cache.Keys == c.boot.Keys && q.done <= |Plan(c, q)|
    && WordAt(q.base[c.layout.start], 0) == 0
    && disk == Apply(q.base, Plan(c, q)[..q.done]) && m.view == Apply(q.cache, Plan(c, q)[..q.done])
    && (forall x | x in q.base && x !in q.batch :: q.cache[x] == q.base[x])
    && m.lh == (if q.done == |Plan(c, q)| then [] else q.batch)
    && SameHome(c.layout, q.cache, latest)
    && SameHome(c.layout, committed, if q.done <= |q.batch| then q.base else latest)
  }

  ghost predicate DiskOk(c: Config, disk: Disk, m: Memory, committed: Disk, latest: Disk) {
    if m.committing then forall q | q in m.procs && q.Committing? :: InCommit(c, disk, m, q, committed, latest)
    else Quiet(c, disk, m, committed, latest)
  }

  /** The disk would recover to the home blocks of `committed`. */
  ghost predicate RecoversTo(c: Config, disk: Disk, committed: Disk) {
    Recoverable(c.layout, disk) && SameHome(c.layout, Recover(c.layout, disk), committed)
  }

  lemma QuietRecovers(c: Config, disk: Disk, committed: Disk)
    requires c.Valid() && disk.Keys == c.boot.Keys && WordAt(disk[c.layout.start], 0) == 0
    requires SameHome(c.layout, disk, committed)
    ensures RecoversTo(c, disk, committed)
  {
    hide Recover;
    RecoverEmpty(c.layout, disk);
  }

  /** A commit cut here, in the terms of RedoLog.CommitIsAtomic. */
  lemma InCommitCut(c: Config, disk: Disk, m: Memory, q: Proc, committed: Disk, latest: Disk)
    requires InCommit(c, disk, m, q, committed, latest)
    ensures var l, lh := c.layout, q.batch;
            && l.Fits(q.cache) && GoodBatch(l, q.cache, lh) && q.base.Keys == q.cache.Keys == c.boot.Keys
            && l.start in q.base && WordAt(q.base[l.start], 0) == 0 && q.done <= |CommitWrites(l, lh, q.cache)|
            && disk == Apply(q.base, CommitWrites(l, lh, q.cache)[..q.done])
            && SameHome(l, if q.done > |lh| then Installed(q.base, lh, q.cache) else q.base, committed)
  {
    hide CommitWrites, Apply, WordAt;
    assert c.layout.InLog(c.layout.start);
  }

  lemma SameHomeTrans(l: Layout, a: Disk, b: Disk, d: Disk)
    requires SameHome(l, a, b) && SameHome(l, b, d)
    ensures SameHome(l, a, d)
  {
  }

  /** log_write's critical section. */
  lemma AppendKeepsDisk(c: Config, disk: Disk, m: Memory, p: nat, committed: Disk, latest: Disk)
    requires c.Valid() && Quiet(c, disk, m, committed, latest) && p < |m.procs| && m.procs[p].Checked?
    requires m.procs[p].block in c.boot && !c.layout.InLog(m.procs[p].block)
    requires |Absorb(m.lh, m.procs[p].block)| <= c.layout.size - 1
    ensures Quiet(c, disk, DoAppend(m, p), committed, latest[m.procs[p].block := m.procs[p].data])
  {
  }

  /** The last end_op of a group starts the commit. */
  lemma EndStartsCommit(c: Config, disk: Disk, m: Memory, p: nat, committed: Disk, latest: Disk)
    requires c.Valid() && Quiet(c, disk, m, committed, latest) && p < |m.procs|
    ensures var q := Committing(m.lh, disk, m.view, 0);
            InCommit(c, disk, m.(outstanding := 0, committing := true, procs := m.procs[p := q]), q, committed, latest)
  {
    var q := Committing(m.lh, disk, m.view, 0);
    assert Plan(c, q)[..0] == [];
  }

  /** One write of commit(); `latest` becomes what recovery brings back when the header reaches the disk. */
  lemma CommitStepKeepsDisk(c: Config, disk: Disk, m: Memory, p: nat, committed: Disk, latest: Disk)
    requires p < |m.procs| && InCommit(c, disk, m, m.procs[p], committed, latest)
    requires m.procs[p].done < |Plan(c, m.procs[p])| == Length(m.procs[p])
    ensures var q := m.procs[p];
            var w := Plan(c, q)[q.done];
            InCommit(c, disk[w.target := w.data], DoCommitStep(c, m, p), q.(done := q.done + 1),
                     if q.done == |q.batch| then latest else committed, latest)
  {
    hide Plan, Apply, WordAt;
    var q := m.procs[p];
    PlanIgnoresProgress(c, q);
    var ws := Plan(c, q);
    ApplyNext(q.base, ws, q.done);
    ApplyNext(q.cache, ws, q.done);
  }

  lemma PlanIgnoresProgress(c: Config, q: Proc)
    requires CanCommit(c, q)
    ensures CanCommit(c, q.(done := q.done + 1)) && Plan(c, q.(done := q.done + 1)) == Plan(c, q)
  {
  }

  /** The end of commit(): the disk caught up with the cache and the log is empty again. */
  lemma FinishKeepsDisk(c: Config, disk: Disk, m: Memory, p: nat, committed: Disk, latest: Disk)
    requires c.Valid() && p < |m.procs| && InCommit(c, disk, m, m.procs[p], committed, latest)
    requires m.procs[p].done == |Plan(c, m.procs[p])|
    ensures Quiet(c, disk, DoFinish(m, p), committed, latest)
  {
    hide Plan, Apply;
    var q := m.procs[p];
    var ws := Plan(c, q);
    assert ws[..q.done] == ws;
    PlanShape(c, q);
    if q.batch == [] {
      ApplyNone(q.base);
      ApplyNone(q.cache);
    } else {
      CommitDone(c, q, ws);
      CommitCatchesUp(c, q, ws);
    }
  }

  lemma ApplyNone(d: Disk)
    ensures Apply(d, []) == d
  {
  }

  lemma PlanShape(c: Config, q: Proc)
    requires CanCommit(c, q)
    ensures if q.batch == [] then Plan(c, q) == [] else CommitShape(c.layout, q.batch, q.cache, Plan(c, q))
  {
    if q.batch != [] {
      CommitHasShape(c.layout, q.batch, q.cache);
    }
  }

  lemma CommitCatchesUp(c: Config, q: Proc, ws: seq<Write>)
    requires CanCommit(c, q) && q.base.Keys == q.cache.Keys && CommitShape(c.layout, q.batch, q.cache, ws)
    requires forall x | x in q.base && x !in q.batch :: q.cache[x] == q.base[x]
    ensures Apply(q.base, ws) == Apply(q.cache, ws)
  {
    CommitDone(c, q, ws);
    forall x | x in q.base
      ensures Apply(q.base, ws)[x] == Apply(q.cache, ws)[x]
    {
      if x in q.batch {
        var i :| 0 <= i < |q.batch| && q.batch[i] == x;
        assert ws[|q.batch| + 1 + i].target == x;
      }
      ApplyAgreesAt(q.base, q.cache, ws, x);
    }
  }

  lemma CommitDone(c: Config, q: Proc, ws: seq<Write>)
    requires CanCommit(c, q) && q.base.Keys == q.cache.Keys && CommitShape(c.layout, q.batch, q.cache, ws)
    requires forall x | x in q.base && x !in q.batch :: q.cache[x] == q.base[x]
    ensures Apply(q.base, ws).Keys == q.base.Keys && Apply(q.cache, ws).Keys == q.base.Keys
    ensures WordAt(Apply(q.base, ws)[c.layout.start], 0) == 0
    ensures SameHome(c.layout, Apply(q.base, ws), q.cache)
  {
    assert ws[..|ws|] == ws;
    CommitPrefixFrame(c.layout, q.batch, q.base, q.cache, ws, |ws|);
    CommitPrefixFrame(c.layout, q.batch, q.cache, q.cache, ws, |ws|);
    CommitPrefixLog(c.layout, q.batch, q.base, q.cache, ws, |ws|);
    forall x | x in q.base && !c.layout.InLog(x)
      ensures Apply(q.base, ws)[x] == q.cache[x]
    {
      if x in q.batch {
        var i :| 0 <= i < |q.batch| && q.batch[i] == x;
        CommitPrefixHomes(c.layout, q.batch, q.base, q.cache, ws, i);
      }
    }
  }

  /** A process that is not in commit() may change as it likes. */
  lemma OtherProcsKeepDisk(c: Config, disk: Disk, m: Memory, procs: seq<Proc>, committed: Disk, latest: Disk)
    requires DiskOk(c, disk, m, committed, latest)
    requires forall q | q in procs && q.Committing? :: q in m.procs
    ensures DiskOk(c, disk, m.(procs := procs), committed, latest)
  {
    var m' := m.(procs := procs);
    if m.committing {
      forall q | q in m'.procs && q.Committing?
        ensures InCommit(c, disk, m', q, committed, latest)
      {
        assert InCommit(c, disk, m, q, committed, latest);
      }
    }
  }
}
