/**
 The redo log of part1/log.c as sequences of disk writes.

 The disk maps block numbers to blocks, and one `bwrite` is one atomic write. `CommitWrites` and
 `RecoveryWrites` list, in order, the writes that commit() and recover_from_log() issue; the loops that issue
 them are in module LogDevice. What a crash leaves behind is a prefix of such a list.
 */
module RedoLog {
  import opened Blocks

  type Disk = map<nat, Block>
  datatype Write = Write(target: nat, data: Block)

  const LOGSIZE := 30
  const MAXOPBLOCKS := 10

  /** Where the log lives: header block `start`, then `size - 1` copies (sb.logstart and sb.nlog). */
  datatype Layout = Layout(start: nat, size: nat) {
    ghost predicate InLog(b: nat) {
      start <= b < start + size
    }

    /** The block that holds log entry `i`. */
    function Slot(i: nat): nat {
      start + 1 + i
    }

    /** The disk holds the whole log area, and a header names fewer than WORDS blocks. */
    ghost predicate Fits(d: Disk) {
      2 <= size < WORDS && forall b | InLog(b) :: b in d
    }
  }

  // ---- The header block ----

  /** Stores the first `k` block numbers of `lh` after the count, as write_head's loop does. */
  function PutBlocks(b: Block, lh: seq<Word>, k: nat): (r: Block)
    requires k <= |lh| < WORDS
  {
    if k == 0 then b else SetWord(PutBlocks(b, lh, k - 1), k, lh[k - 1])
  }

  /** The header block after write_head: entries past the count keep their old contents. */
  function PutHead(b: Block, lh: seq<Word>): (r: Block)
    requires |lh| < WORDS
  {
    PutBlocks(SetWord(b, 0, |lh|), lh, |lh|)
  }

  /** The block numbers that read_head takes from a header block: none if the signed count is not positive. */
  function GetHead(b: Block): (lh: seq<Word>)
    requires WordAt(b, 0) < WORDS || WordAt(b, 0) >= 0x8000_0000
  {
    if WordAt(b, 0) < WORDS then seq(WordAt(b, 0), i requires 0 <= i < WordAt(b, 0) => WordAt(b, 1 + i)) else []
  }

  lemma {:induction false} PutBlocksWords(b: Block, lh: seq<Word>, k: nat, j: nat)
    requires k <= |lh| < WORDS && j < WORDS
    ensures WordAt(PutBlocks(b, lh, k), j) == if 1 <= j <= k then lh[j - 1] else WordAt(b, j)
  {
    if k > 0 {
      PutBlocksWords(b, lh, k - 1, j);
      WordAfterSetWord(PutBlocks(b, lh, k - 1), k, lh[k - 1], j);
    }
  }

  /** Reading back a written header gives the written list, whatever the block held before. */
  lemma HeadRoundTrip(b: Block, lh: seq<Word>)
    requires |lh| < WORDS
    ensures WordAt(PutHead(b, lh), 0) == |lh| && GetHead(PutHead(b, lh)) == lh
    ensures forall i | 0 <= i < |lh| :: WordAt(PutHead(b, lh), 1 + i) == lh[i]
  {
    WordAfterSetWord(b, 0, |lh|, 0);
    PutBlocksWords(SetWord(b, 0, |lh|), lh, |lh|, 0);
    forall i | 0 <= i < |lh|
      ensures WordAt(PutHead(b, lh), 1 + i) == lh[i]
    {
      PutBlocksWords(SetWord(b, 0, |lh|), lh, |lh|, 1 + i);
    }
  }

  // ---- Write sequences ----

  function Apply(d: Disk, ws: seq<Write>): (r: Disk)
  {
    if ws == [] then d else Apply(d, ws[..|ws| - 1])[ws[|ws| - 1].target := ws[|ws| - 1].data]
  }

  lemma {:induction false} ApplyConcat(d: Disk, a: seq<Write>, b: seq<Write>)
    ensures Apply(d, a + b) == Apply(Apply(d, a), b)
  {
    if b == [] {
      assert a + b == a;
    } else {
      var last := |b| - 1;
      ApplyConcat(d, a, b[..last]);
      assert (a + b)[..|a + b| - 1] == a + b[..last];
    }
  }

  /** One more write of a list is one more disk update. */
  lemma ApplyNext(d: Disk, ws: seq<Write>, k: nat)
    requires k < |ws|
    ensures Apply(d, ws[..k + 1]) == Apply(d, ws[..k])[ws[k].target := ws[k].data]
  {
    assert ws[..k + 1][..k] == ws[..k];
  }

  /** A block that no write of the list targets is unchanged, and no block disappears. */
  lemma {:induction false} ApplyFrame(d: Disk, ws: seq<Write>, b: nat)
    requires forall w | w in ws :: w.target != b
    ensures b in Apply(d, ws) <==> b in d
    ensures b in d ==> Apply(d, ws)[b] == d[b]
  {
    if ws != [] {
      ApplyFrame(d, ws[..|ws| - 1], b);
    }
  }

  lemma {:induction false} ApplyKeys(d: Disk, ws: seq<Write>)
    requires forall w | w in ws :: w.target in d
    ensures Apply(d, ws).Keys == d.Keys
  {
    if ws != [] {
      ApplyKeys(d, ws[..|ws| - 1]);
    }
  }

  /** A block holds what its last write put there. */
  lemma {:induction false} ApplyLast(d: Disk, ws: seq<Write>, i: nat)
    requires i < |ws| && forall j | i < j < |ws| :: ws[j].target != ws[i].target
    ensures ws[i].target in Apply(d, ws) && Apply(d, ws)[ws[i].target] == ws[i].data
  {
    if i < |ws| - 1 {
      ApplyLast(d, ws[..|ws| - 1], i);
    }
  }

  // ---- commit() and recover_from_log() ----

  /** A header's block list: distinct home blocks of the disk, no more than the log has room for. */
  ghost predicate GoodBatch(l: Layout, d: Disk, lh: seq<Word>) {
    && |lh| <= l.size - 1
    && (forall x | x in lh :: x in d && !l.InLog(x))
    && (forall i, j | 0 <= i < j < |lh| :: lh[i] != lh[j])
  }

  /** write_log: copy every logged block from the cache `v` into the log. */
  function LogCopies(l: Layout, lh: seq<Word>, v: Disk): (ws: seq<Write>)
    requires forall x | x in lh :: x in v
  {
    seq(|lh|, i requires 0 <= i < |lh| => Write(l.Slot(i), v[lh[i]]))
  }

  /** install_trans: copy log block `i`, as found in `v`, to its home. */
  function Installs(l: Layout, lh: seq<Word>, v: Disk): (ws: seq<Write>)
    requires forall i | 0 <= i < |lh| :: l.Slot(i) in v
  {
    seq(|lh|, i requires 0 <= i < |lh| => Write(lh[i], v[l.Slot(i)]))
  }

  /** The two header writes around the installation. */
  function HeadWrite(l: Layout, lh: seq<Word>, v: Disk): (w: Write)
    requires l.start in v && |lh| < WORDS
  {
    Write(l.start, PutHead(v[l.start], lh))
  }

  /** Every disk write of commit(), in order; `v` is what the buffer cache shows when it starts. */
  ghost function CommitWrites(l: Layout, lh: seq<Word>, v: Disk): (ws: seq<Write>)
    requires l.Fits(v) && GoodBatch(l, v, lh)
  {
    if lh == [] then []
    else
      var copies := LogCopies(l, lh, v);
      var head := HeadWrite(l, lh, v);
      var logged := Apply(v, copies + [head]);
      LoggedKeys(l, lh, v);
      var installs := Installs(l, lh, logged);
      copies + [head] + installs + [HeadWrite(l, [], logged)]
  }

  /** The log and its header can be found again after write_log and write_head. */
  lemma LoggedKeys(l: Layout, lh: seq<Word>, v: Disk)
    requires l.Fits(v) && GoodBatch(l, v, lh)
    ensures Apply(v, LogCopies(l, lh, v) + [HeadWrite(l, lh, v)]).Keys == v.Keys
  {
    var ws := LogCopies(l, lh, v) + [HeadWrite(l, lh, v)];
    forall w | w in ws
      ensures w.target in v
    {
      assert l.InLog(w.target);
    }
    ApplyKeys(v, ws);
  }

  /** The disk is one that recovery can read: its header lists a good batch. */
  ghost predicate Recoverable(l: Layout, d: Disk) {
    l.Fits(d) && WordAt(d[l.start], 0) < WORDS && GoodBatch(l, d, GetHead(d[l.start]))
  }

  /** Every disk write of recover_from_log() on disk `d`, in order. */
  ghost function RecoveryWrites(l: Layout, d: Disk): (ws: seq<Write>)
    requires Recoverable(l, d)
  {
    assert forall i | 0 <= i < |GetHead(d[l.start])| :: l.InLog(l.Slot(i));
    Installs(l, GetHead(d[l.start]), d) + [HeadWrite(l, [], d)]
  }

  /** The disk after one complete, uninterrupted recovery. */
  ghost function Recover(l: Layout, d: Disk): (r: Disk)
    requires Recoverable(l, d)
  {
    Apply(d, RecoveryWrites(l, d))
  }

  /** `a` and `b` hold the same home blocks: everything outside the log area. */
  ghost predicate SameHome(l: Layout, a: Disk, b: Disk) {
    a.Keys == b.Keys && forall x | x in a && !l.InLog(x) :: a[x] == b[x]
  }

  /** `d` with the home blocks in `lh` taken from `v`. */
  ghost function Installed(d: Disk, lh: seq<Word>, v: Disk): (r: Disk)
    requires forall x | x in lh :: x in v
  {
    map x | x in d :: if x in lh then v[x] else d[x]
  }

  // ---- Crashes ----

  /** The shape of commit()'s writes: copies, header, installs, empty header. */
  ghost predicate CommitShape(l: Layout, lh: seq<Word>, v: Disk, ws: seq<Write>)
    requires l.Fits(v) && GoodBatch(l, v, lh)
  {
    var n := |lh|;
    && |ws| == 2 * n + 2
    && (forall i | 0 <= i < n :: ws[i] == Write(l.Slot(i), v[lh[i]]))
    && ws[n] == Write(l.start, PutHead(v[l.start], lh))
    && (forall i | n + 1 <= i < 2 * n + 1 :: ws[i] == Write(lh[i - n - 1], v[lh[i - n - 1]]))
    && ws[2 * n + 1].target == l.start && WordAt(ws[2 * n + 1].data, 0) == 0
  }

  lemma CommitHasShape(l: Layout, lh: seq<Word>, v: Disk)
    requires l.Fits(v) && GoodBatch(l, v, lh) && lh != []
    ensures CommitShape(l, lh, v, CommitWrites(l, lh, v))
  {
    hide Apply, PutHead;
    var logged := Apply(v, LogCopies(l, lh, v) + [HeadWrite(l, lh, v)]);
    LoggedKeys(l, lh, v);
    LoggedSlots(l, lh, v);
    HeadRoundTrip(logged[l.start], []);
    var installs := Installs(l, lh, logged);
    assert forall i | 0 <= i < |lh| :: installs[i] == Write(lh[i], v[lh[i]]);
  }

  lemma LoggedSlots(l: Layout, lh: seq<Word>, v: Disk)
    requires l.Fits(v) && GoodBatch(l, v, lh)
    ensures var logged := Apply(v, LogCopies(l, lh, v) + [HeadWrite(l, lh, v)]);
            forall i | 0 <= i < |lh| :: l.Slot(i) in logged && logged[l.Slot(i)] == v[lh[i]]
  {
    var ws := LogCopies(l, lh, v) + [HeadWrite(l, lh, v)];
    forall i | 0 <= i < |lh|
      ensures l.Slot(i) in Apply(v, ws) && Apply(v, ws)[l.Slot(i)] == v[lh[i]]
    {
      ApplyLast(v, ws, i);
    }
  }

  /** The first `k` writes of a commit leave every block that they do not name alone. */
  lemma CommitPrefixFrame(l: Layout, lh: seq<Word>, d: Disk, v: Disk, ws: seq<Write>, k: nat)
    requires l.Fits(v) && GoodBatch(l, v, lh) && d.Keys == v.Keys && CommitShape(l, lh, v, ws) && k <= |ws|
    ensures Apply(d, ws[..k]).Keys == d.Keys
    ensures forall x | x in d && !l.InLog(x) && (x !in lh || k <= |lh|) :: Apply(d, ws[..k])[x] == d[x]
    ensures k <= |lh| ==> Apply(d, ws[..k])[l.start] == d[l.start]
  {
    hide PutHead, WordAt;
    var n, ps := |lh|, ws[..k];
    forall w | w in ps
      ensures l.InLog(w.target) || (w.target in lh && k > n)
    {
      var i :| 0 <= i < k && ps[i] == w;
    }
    ApplyKeys(d, ps);
    forall x | x in d && !l.InLog(x) && (x !in lh || k <= n)
      ensures Apply(d, ps)[x] == d[x]
    {
      ApplyFrame(d, ps, x);
    }
    if k <= n {
      ApplyFrame(d, ps, l.start);
    }
  }

  /** Once the header is written, it and the slots hold the whole batch; at the end the header is empty. */
  lemma CommitPrefixLog(l: Layout, lh: seq<Word>, d: Disk, v: Disk, ws: seq<Write>, k: nat)
    requires l.Fits(v) && GoodBatch(l, v, lh) && CommitShape(l, lh, v, ws) && |lh| < k <= |ws|
    requires Apply(d, ws[..k]).Keys == v.Keys
    ensures if k == |ws| then WordAt(Apply(d, ws[..k])[l.start], 0) == 0
            else Apply(d, ws[..k])[l.start] == PutHead(v[l.start], lh)
    ensures forall i | 0 <= i < |lh| :: l.Slot(i) in v && Apply(d, ws[..k])[l.Slot(i)] == v[lh[i]]
  {
    var n, ps := |lh|, ws[..k];
    var last := if k == |ws| then 2 * n + 1 else n;
    forall j | last < j < k
      ensures ps[j].target != ps[last].target
    {
      assert ps[j] == Write(lh[j - n - 1], v[lh[j - n - 1]]) && lh[j - n - 1] in lh && l.InLog(l.start);
    }
    ApplyLast(d, ps, last);
    forall i | 0 <= i < n
      ensures l.Slot(i) in v && Apply(d, ps)[l.Slot(i)] == v[lh[i]]
    {
      assert l.InLog(l.Slot(i)) && ps[i].target == l.Slot(i);
      ApplyLast(d, ps, i);
    }
  }

  /** Once every install is done, the home blocks hold the whole batch. */
  lemma CommitPrefixHomes(l: Layout, lh: seq<Word>, d: Disk, v: Disk, ws: seq<Write>, i: nat)
    requires l.Fits(v) && GoodBatch(l, v, lh) && CommitShape(l, lh, v, ws) && i < |lh|
    ensures lh[i] in Apply(d, ws) && Apply(d, ws)[lh[i]] == v[lh[i]]
  {
    var n := |lh|;
    forall j | n + 1 + i < j < |ws|
      ensures ws[j].target != lh[i]
    {
      if j < 2 * n + 1 {
        assert ws[j].target == lh[j - n - 1];
      }
    }
    ApplyLast(d, ws, n + 1 + i);
  }

  /** The shape of recovery's writes: installs, then an empty header. */
  ghost predicate RecoveryShape(l: Layout, lh: seq<Word>, d: Disk, ws: seq<Write>)
    requires l.Fits(d) && GoodBatch(l, d, lh)
  {
    && |ws| == |lh| + 1
    && (forall i | 0 <= i < |lh| :: l.Slot(i) in d && ws[i] == Write(lh[i], d[l.Slot(i)]))
    && ws[|lh|].target == l.start && WordAt(ws[|lh|].data, 0) == 0
  }

  lemma RecoveryHasShape(l: Layout, d: Disk)
    requires Recoverable(l, d)
    ensures RecoveryShape(l, GetHead(d[l.start]), d, RecoveryWrites(l, d))
  {
    HeadRoundTrip(d[l.start], []);
    assert forall i | 0 <= i < |GetHead(d[l.start])| :: l.InLog(l.Slot(i));
  }

  /** The disk after the first `k` writes of recovery, block by block. */
  lemma RecoveryPrefix(l: Layout, lh: seq<Word>, d: Disk, ws: seq<Write>, k: nat)
    requires l.Fits(d) && GoodBatch(l, d, lh) && RecoveryShape(l, lh, d, ws) && k <= |ws|
    ensures Apply(d, ws[..k]).Keys == d.Keys
    ensures forall x | x in d && x !in lh && (x != l.start || k < |ws|) :: Apply(d, ws[..k])[x] == d[x]
    ensures k == |ws| ==> WordAt(Apply(d, ws[..k])[l.start], 0) == 0
    ensures forall i | 0 <= i < |lh| :: Apply(d, ws[..k])[lh[i]] == if i < k then d[l.Slot(i)] else d[lh[i]]
  {
    var ps := ws[..k];
    forall w | w in ps
      ensures w.target in lh || (w.target == l.start && k == |ws|)
    {
      var i :| 0 <= i < k && ps[i] == w;
    }
    ApplyKeys(d, ps);
    forall x | x in d && x !in lh && (x != l.start || k < |ws|)
      ensures Apply(d, ps)[x] == d[x]
    {
      ApplyFrame(d, ps, x);
    }
    if k == |ws| {
      ApplyLast(d, ps, |lh|);
    }
    forall i | 0 <= i < |lh|
      ensures Apply(d, ps)[lh[i]] == if i < k then d[l.Slot(i)] else d[lh[i]]
    {
      RecoveryPrefixHome(l, lh, d, ws, k, i);
    }
  }

  lemma RecoveryPrefixHome(l: Layout, lh: seq<Word>, d: Disk, ws: seq<Write>, k: nat, i: nat)
    requires l.Fits(d) && GoodBatch(l, d, lh) && RecoveryShape(l, lh, d, ws) && k <= |ws| && i < |lh|
    ensures lh[i] in Apply(d, ws[..k])
    ensures Apply(d, ws[..k])[lh[i]] == if i < k then d[l.Slot(i)] else d[lh[i]]
  {
    var ps := ws[..k];
    forall j | 0 <= j < k && j != i
      ensures ps[j].target != lh[i]
    {
      if j < |lh| {
        assert ps[j].target == lh[j];
      } else {
        assert lh[i] in lh && l.InLog(l.start);
      }
    }
    if i < k {
      ApplyLast(d, ps, i);
    } else {
      ApplyFrame(d, ps, lh[i]);
    }
  }

  /** What a complete recovery does to each home block, and that it leaves an empty log. */
  lemma RecoverAt(l: Layout, d: Disk)
    requires Recoverable(l, d)
    ensures Recover(l, d).Keys == d.Keys && WordAt(Recover(l, d)[l.start], 0) == 0
    ensures forall x | x in d && x !in GetHead(d[l.start]) && x != l.start :: Recover(l, d)[x] == d[x]
    ensures forall i | 0 <= i < |GetHead(d[l.start])| ::
              l.Slot(i) in d && Recover(l, d)[GetHead(d[l.start])[i]] == d[l.Slot(i)]
  {
    var ws := RecoveryWrites(l, d);
    RecoveryHasShape(l, d);
    RecoveryPrefix(l, GetHead(d[l.start]), d, ws, |ws|);
    assert ws[..|ws|] == ws;
  }

  /** A disk whose header is empty recovers to itself. */
  lemma RecoverEmpty(l: Layout, d: Disk)
    requires l.Fits(d) && WordAt(d[l.start], 0) == 0
    ensures Recoverable(l, d) && SameHome(l, Recover(l, d), d)
  {
    RecoverAt(l, d);
  }

  /** A disk whose header lists `lh` recovers to itself with the slots installed, whatever the homes hold now. */
  lemma RecoverBatch(l: Layout, lh: seq<Word>, c: Disk, target: Disk)
    requires l.Fits(c) && GoodBatch(l, c, lh) && c.Keys == target.Keys
    requires WordAt(c[l.start], 0) < WORDS && GetHead(c[l.start]) == lh
    requires forall x | x in c && !l.InLog(x) && x !in lh :: c[x] == target[x]
    requires forall i | 0 <= i < |lh| :: l.Slot(i) in c && c[l.Slot(i)] == target[lh[i]]
    ensures Recoverable(l, c) && SameHome(l, Recover(l, c), target)
  {
    RecoverAt(l, c);
    forall x | x in c && !l.InLog(x)
      ensures Recover(l, c)[x] == target[x]
    {
      if x in lh {
        var i :| 0 <= i < |lh| && lh[i] == x;
      }
    }
  }

  /**
   Crash atomicity of commit(). Stop it after any number `k` of its writes, then recover: the home blocks
   are the old ones if the first header write had not reached the disk, and otherwise the old ones with
   every logged block installed.
   */
  lemma CommitIsAtomic(l: Layout, lh: seq<Word>, d: Disk, v: Disk, k: nat)
    requires l.Fits(v) && GoodBatch(l, v, lh) && d.Keys == v.Keys
    requires WordAt(d[l.start], 0) == 0
    requires k <= |CommitWrites(l, lh, v)|
    ensures Recoverable(l, Apply(d, CommitWrites(l, lh, v)[..k]))
    ensures SameHome(l, Recover(l, Apply(d, CommitWrites(l, lh, v)[..k])),
                     if k > |lh| then Installed(d, lh, v) else d)
  {
    if lh == [] {
      RecoverEmpty(l, d);
    } else {
      CommitHasShape(l, lh, v);
      CrashInShape(l, lh, d, v, CommitWrites(l, lh, v), k);
    }
  }

  lemma CrashInShape(l: Layout, lh: seq<Word>, d: Disk, v: Disk, ws: seq<Write>, k: nat)
    requires l.Fits(v) && GoodBatch(l, v, lh) && d.Keys == v.Keys && CommitShape(l, lh, v, ws)
    requires WordAt(d[l.start], 0) == 0 && k <= |ws|
    ensures Recoverable(l, Apply(d, ws[..k]))
    ensures SameHome(l, Recover(l, Apply(d, ws[..k])), if k > |lh| then Installed(d, lh, v) else d)
  {
    hide Recover, RecoveryWrites, Apply, PutHead;
    var c := Apply(d, ws[..k]);
    CommitPrefixFrame(l, lh, d, v, ws, k);
    if k <= |lh| {
      RecoverEmpty(l, c);
    } else {
      CommitPrefixLog(l, lh, d, v, ws, k);
      if k < |ws| {
        HeadRoundTrip(v[l.start], lh);
        RecoverBatch(l, lh, c, Installed(d, lh, v));
      } else {
        assert ws[..k] == ws;
        RecoverEmpty(l, c);
        forall x | x in c && !l.InLog(x)
          ensures c[x] == Installed(d, lh, v)[x]
        {
          if x in lh {
            var i :| 0 <= i < |lh| && lh[i] == x;
            CommitPrefixHomes(l, lh, d, v, ws, i);
          }
        }
      }
    }
  }

  /**
   Crash atomicity of recovery. Stop it after any number `k` of its writes: recovering what is left gives
   the same home blocks as an uninterrupted recovery.
   */
  lemma RecoveryIsIdempotent(l: Layout, d: Disk, k: nat)
    requires Recoverable(l, d) && k <= |RecoveryWrites(l, d)|
    ensures Recoverable(l, Apply(d, RecoveryWrites(l, d)[..k]))
    ensures SameHome(l, Recover(l, Apply(d, RecoveryWrites(l, d)[..k])), Recover(l, d))
  {
    RecoveryHasShape(l, d);
    RecoverAt(l, d);
    RecrashInShape(l, GetHead(d[l.start]), d, RecoveryWrites(l, d), k, Recover(l, d));
  }

  lemma RecrashInShape(l: Layout, lh: seq<Word>, d: Disk, ws: seq<Write>, k: nat, r: Disk)
    requires l.Fits(d) && GoodBatch(l, d, lh) && RecoveryShape(l, lh, d, ws) && k <= |ws|
    requires WordAt(d[l.start], 0) < WORDS && GetHead(d[l.start]) == lh
    requires r.Keys == d.Keys && forall x | x in d && x !in lh && x != l.start :: r[x] == d[x]
    requires forall i | 0 <= i < |lh| :: r[lh[i]] == d[l.Slot(i)]
    ensures Recoverable(l, Apply(d, ws[..k])) && SameHome(l, Recover(l, Apply(d, ws[..k])), r)
  {
    hide Recover, RecoveryWrites, Apply, PutHead;
    var c := Apply(d, ws[..k]);
    RecoveryPrefix(l, lh, d, ws, k);
    if k < |ws| {
      forall i | 0 <= i < |lh|
        ensures l.Slot(i) in c && c[l.Slot(i)] == r[lh[i]]
      {
        assert l.InLog(l.Slot(i));
      }
      RecoverBatch(l, lh, c, r);
    } else {
      forall x | x in c && !l.InLog(x)
        ensures c[x] == r[x]
      {
        if x in lh {
          var i :| 0 <= i < |lh| && lh[i] == x;
        } else {
          assert l.InLog(l.start);
        }
      }
      RecoverEmpty(l, c);
    }
  }

  /** The disk after recoveries that were cut short after `cuts[0]`, `cuts[1]`, ... writes (or ran to the end). */
  ghost function Interrupted(l: Layout, d: Disk, cuts: seq<nat>): (c: Disk)
    requires Recoverable(l, d)
    ensures Recoverable(l, c) && SameHome(l, Recover(l, c), Recover(l, d))
    decreases |cuts|
  {
    if cuts == [] then d
    else
      var ws := RecoveryWrites(l, d);
      var k := if cuts[0] <= |ws| then cuts[0] else |ws|;
      RecoveryIsIdempotent(l, d, k);
      Interrupted(l, Apply(d, ws[..k]), cuts[1..])
  }

  /** Crash in commit(), then in recovery any number of times, then recover: all of the batch or none of it. */
  lemma CrashAnywhere(l: Layout, lh: seq<Word>, d: Disk, v: Disk, k: nat, cuts: seq<nat>)
    requires l.Fits(v) && GoodBatch(l, v, lh) && d.Keys == v.Keys
    requires WordAt(d[l.start], 0) == 0
    requires k <= |CommitWrites(l, lh, v)|
    ensures Recoverable(l, Apply(d, CommitWrites(l, lh, v)[..k]))
    ensures SameHome(l, Recover(l, Interrupted(l, Apply(d, CommitWrites(l, lh, v)[..k]), cuts)),
                     if k > |lh| then Installed(d, lh, v) else d)
  {
    CommitIsAtomic(l, lh, d, v, k);
  }
}
