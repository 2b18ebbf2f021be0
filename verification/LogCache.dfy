/**
 write_log and install_trans of part1/log.c through the buffer cache of part1/bio.c: what their bread, bwrite and brelse
 calls do to what the cache shows, and when bget finds no buffer for them.
 */
module LogCache {
  import opened Blocks
  import opened CacheList
  import opened BufferCache
  import opened RedoLog
  import opened LogDevice

  /** What the system sees, block by block. */
  ghost function Shown(bs: seq<Buf>, disk: Disk): Disk {
    map b | b in disk :: View(bs, disk, b)
  }

  ghost predicate IsCached(bs: seq<Buf>, b: nat) {
    exists j: nat :: Hit(bs, j, 1, b)
  }

  ghost predicate HasIdle(bs: seq<Buf>) {
    exists j: nat :: Idle(bs, j)
  }

  /** The block's buffer, if there is one, is not locked. */
  ghost predicate Unlocked(bs: seq<Buf>, b: nat) {
    forall j: nat | Hit(bs, j, 1, b) :: !bs[j].locked
  }

  /** The blocks whose buffers are pinned. */
  ghost function PinnedBlocks(bs: seq<Buf>): set<nat> {
    set i: nat | i < NBUF && i < |bs| && bs[i].dirty :: bs[i].blockno
  }

  /** References and locks are the same. */
  ghost predicate SameRefs(bs: seq<Buf>, bs': seq<Buf>) {
    && |bs'| == |bs|
    && forall i | 0 <= i < NBUF && i < |bs| :: bs'[i].refcnt == bs[i].refcnt && bs'[i].locked == bs[i].locked
  }

  lemma ShownSame(bs: seq<Buf>, disk: Disk, bs': seq<Buf>)
    requires SameViews(bs, disk, bs', disk)
    ensures Shown(bs', disk) == Shown(bs, disk)
  {
  }

  /** Buffer `i` after bread: the one of the block, or a recycled idle one, locked and filled. */
  ghost predicate Got(bs: seq<Buf>, disk: Disk, bs': seq<Buf>, i: nat, b: nat)
    requires |bs| == NBUF + 1 && b in disk
  {
    && i < NBUF && |bs'| == |bs| && bs' == bs[i := bs'[i]]
    && bs'[i].dev == 1 && bs'[i].blockno == b && bs'[i].valid && bs'[i].locked && !bs[i].locked
    && bs'[i].refcnt == bs[i].refcnt + 1
    && bs'[i].data == View(bs, disk, b)
    && if Hit(bs, i, 1, b) then bs'[i].dirty == bs[i].dirty
       else Idle(bs, i) && !IsCached(bs, b) && !bs'[i].dirty
  }

  /** bread; it panics exactly if the block is not on the disk, or not in the cache and no buffer is idle. */
  method Bread(c: Cache, b: nat) returns (panicked: bool, i: nat)
    requires c.Valid() && Unlocked(c.bufs[..], b)
    modifies c.bufs
    ensures panicked <==> b !in c.disk || (!IsCached(old(c.bufs[..]), b) && !HasIdle(old(c.bufs[..])))
    ensures panicked && b in c.disk ==> c.bufs[..] == old(c.bufs[..])
    ensures !panicked ==>
              && c.Valid() && SameViews(old(c.bufs[..]), c.disk, c.bufs[..], c.disk)
              && Got(old(c.bufs[..]), c.disk, c.bufs[..], i, b)
  {
    hide Sound, SameViews, View;
    c.ArrayFacts();
    ghost var bs0 := c.bufs[..];
    IdleIsUnlocked(c);
    panicked, i := c.Bget(1, b);
    if panicked {
      return;
    }
    ghost var bs1 := c.bufs[..];
    ValidIsOnDisk(c, i);
    if !Hit(bs0, i, 1, b) {
      AllOk(c.bufs[..], c.order, c.stamp, c.clock, c.disk);
      NewBlock(bs0, c.bufs[..], i, b);
    }
    c.Acquire(i);
    ghost var bs2 := c.bufs[..];
    panicked := c.Fill(i);
    SameViewsTrans(bs0, bs1, bs2, c.disk);
    SameViewsTrans(bs0, bs2, c.bufs[..], c.disk);
    if !panicked {
      SameViewAt(bs0, c.disk, c.bufs[..], b);
      assert c.bufs[..] == bs0[i := c.bufs[..][i]];
    }
  }

  /** A block has one buffer at most, so a recycled one is its first. */
  lemma NewBlock(bs: seq<Buf>, bs': seq<Buf>, i: nat, b: nat)
    requires |bs| == |bs'| == NBUF + 1 && i < NBUF && bs' == bs[i := bs'[i]] && Unique(bs')
    requires !Hit(bs, i, 1, b) && Hit(bs', i, 1, b)
    ensures !IsCached(bs, b)
  {
    forall j: nat | j < NBUF && j != i
      ensures !(bs[j].dev == 1 && bs[j].blockno == b)
    {
      assert bs'[j] == bs[j] && (j < i || i < j);
    }
  }

  lemma ValidIsOnDisk(c: Cache, i: nat)
    requires c.Valid() && i < NBUF
    ensures c.bufs[i].valid ==> c.bufs[i].dev == 1 && c.bufs[i].blockno in c.disk
    ensures c.bufs[i].locked ==> c.bufs[i].refcnt > 0
  {
    assert BufOk(c.bufs[..][i], c.disk);
  }

  lemma IdleIsUnlocked(c: Cache)
    requires c.Valid()
    ensures forall j: nat | Idle(c.bufs[..], j) :: !c.bufs[..][j].locked
  {
    forall j: nat | Idle(c.bufs[..], j)
      ensures !c.bufs[..][j].locked
    {
      ValidIsOnDisk(c, j);
    }
  }

  lemma SameViewAt(bs: seq<Buf>, disk: Disk, bs': seq<Buf>, b: nat)
    requires SameViews(bs, disk, bs', disk) && b in disk
    ensures View(bs', disk, b) == View(bs, disk, b)
  {
  }

  /** brelse of a buffer that was not changed, or has been pinned or written. */
  method Brelse(c: Cache, i: nat)
    requires c.Valid() && i < NBUF && c.bufs[i].locked && !Changed(c.bufs[i], c.disk)
    modifies c.bufs, c`order, c`stamp, c`clock
    ensures c.Valid() && SameViews(old(c.bufs[..]), c.disk, c.bufs[..], c.disk)
    ensures SameButLinks(old(c.bufs[..])[i := old(c.bufs[i]).(locked := false, refcnt := old(c.bufs[i]).refcnt - 1)],
                         c.bufs[..])
  {
    hide Sound, SameViews, View;
    ghost var bs0 := c.bufs[..];
    ValidIsOnDisk(c, i);
    var panicked := c.Unlock(i);
    ghost var bs1 := c.bufs[..];
    c.Drop(i);
    SameViewsTrans(bs0, bs1, c.bufs[..], c.disk);
  }

  ghost predicate IsPinned(bs: seq<Buf>, b: nat) {
    exists j: nat :: Hit(bs, j, 1, b) && bs[j].dirty
  }

  /** Buffers with the same fields but for links, contents and validity. */
  ghost predicate Alike(a: Buf, b: Buf) {
    a.dev == b.dev && a.blockno == b.blockno && a.refcnt == b.refcnt && a.dirty == b.dirty && a.locked == b.locked
  }

  /** bread of a pinned block does not look for a victim, whoever else was given a buffer before. */
  lemma PinnedStays(bs: seq<Buf>, disk: Disk, bs': seq<Buf>, i: nat, b: nat, b2: nat)
    requires |bs| == NBUF + 1 && b in disk && Got(bs, disk, bs', i, b) && IsPinned(bs, b2) && b2 != b
    ensures IsPinned(bs', b2) && IsCached(bs', b2) && (Unlocked(bs, b2) ==> Unlocked(bs', b2))
  {
    hide View;
    var j: nat :| Hit(bs, j, 1, b2) && bs[j].dirty;
    assert j != i && Hit(bs', j, 1, b2);
    forall k: nat | Hit(bs', k, 1, b2)
      ensures k != i && Hit(bs, k, 1, b2)
    {
    }
  }

  /** What is left after both buffers were given back, the one of `dst` clean. */
  ghost predicate GivenBack(bs: seq<Buf>, bs': seq<Buf>, src: nat, dst: nat) {
    && |bs| == |bs'| == NBUF + 1
    && SameRefs(bs, bs') && PinnedBlocks(bs') == PinnedBlocks(bs) - {dst}
    && (HasIdle(bs) ==> HasIdle(bs'))
    && (forall b: nat | b != dst && IsPinned(bs, b) :: IsPinned(bs', b))
    && (forall b: nat | Unlocked(bs, b) :: Unlocked(bs', b))
  }

  /** One buffer, read and given back: idle or not, it is as before, but for the recycled block's name. */
  ghost predicate Returned(q: Buf, q': Buf, b: nat, clean: bool) {
    && q'.dev == 1 && q'.blockno == b && q'.refcnt == q.refcnt && !q.locked && !q'.locked
    && (if clean then !q'.dirty else if q.dev == 1 && q.blockno == b then q'.dirty == q.dirty else !q'.dirty)
    && ((q.dev == 1 && q.blockno == b) || (q.refcnt == 0 && !q.dirty))
  }

  /** Buffer `i` was held for `src`, if it is one, and `k` for `dst`. */
  lemma BothReturned(bs: seq<Buf>, bs': seq<Buf>, disk: Disk, i: nat, src: nat, k: nat, dst: nat)
    requires |bs| == |bs'| == NBUF + 1 && i <= NBUF && k < NBUF && i != k && src != dst && Unique(bs)
    requires forall j | 0 <= j < NBUF :: BufOk(bs[j], disk)
    requires forall j | 0 <= j < NBUF && j != i && j != k :: Alike(bs[j], bs'[j])
    requires (i < NBUF ==> Returned(bs[i], bs'[i], src, false)) && Returned(bs[k], bs'[k], dst, true)
    requires Hit(bs, k, 1, dst) || !IsCached(bs, dst)
    ensures GivenBack(bs, bs', src, dst)
  {
    hide View;
    if j: nat :| Idle(bs, j) {
      assert Idle(bs', j);
    }
    forall b: nat | b != dst && IsPinned(bs, b)
      ensures IsPinned(bs', b)
    {
      var j: nat :| Hit(bs, j, 1, b) && bs[j].dirty;
      assert Hit(bs', j, 1, b) && bs'[j].dirty;
    }
    forall b: nat
      ensures b in PinnedBlocks(bs') <==> b in PinnedBlocks(bs) && b != dst
    {
      PinnedMeans(bs, disk, b);
      PinsReturned(bs, bs', disk, i, src, k, dst, b);
    }
    forall b: nat | Unlocked(bs, b)
      ensures Unlocked(bs', b)
    {
      forall j: nat | Hit(bs', j, 1, b)
        ensures !bs'[j].locked
      {
        assert j != i && j != k ==> Hit(bs, j, 1, b);
      }
    }
  }

  lemma PinnedMeans(bs: seq<Buf>, disk: Disk, b: nat)
    requires |bs| == NBUF + 1 && forall j | 0 <= j < NBUF :: BufOk(bs[j], disk)
    ensures b in PinnedBlocks(bs) <==> IsPinned(bs, b)
  {
    if b in PinnedBlocks(bs) {
      var j: nat :| j < NBUF && bs[j].dirty && bs[j].blockno == b;
      assert Hit(bs, j, 1, b);
    }
  }

  lemma PinsReturned(bs: seq<Buf>, bs': seq<Buf>, disk: Disk, i: nat, src: nat, k: nat, dst: nat, b: nat)
    requires |bs| == |bs'| == NBUF + 1 && i <= NBUF && k < NBUF && i != k && src != dst && Unique(bs)
    requires forall j | 0 <= j < NBUF :: BufOk(bs[j], disk)
    requires forall j | 0 <= j < NBUF && j != i && j != k :: Alike(bs[j], bs'[j])
    requires (i < NBUF ==> Returned(bs[i], bs'[i], src, false)) && Returned(bs[k], bs'[k], dst, true)
    requires Hit(bs, k, 1, dst) || !IsCached(bs, dst)
    ensures b in PinnedBlocks(bs') <==> IsPinned(bs, b) && b != dst
  {
    if b in PinnedBlocks(bs') {
      var j: nat :| j < NBUF && bs'[j].dirty && bs'[j].blockno == b;
      assert j != k && bs[j].dirty && Hit(bs, j, 1, b);
      assert j < k || k < j;
    }
    if IsPinned(bs, b) && b != dst {
      var j: nat :| Hit(bs, j, 1, b) && bs[j].dirty;
      assert bs'[j].blockno in PinnedBlocks(bs');
    }
  }

  /** A buffer `q` while it is held for block `b`. */
  ghost predicate HeldFor(q: Buf, q': Buf, b: nat) {
    && q'.dev == 1 && q'.blockno == b && q'.valid && q'.locked && !q.locked && q'.refcnt == q.refcnt + 1
    && if q.dev == 1 && q.blockno == b then q'.dirty == q.dirty else q.refcnt == 0 && !q.dirty && !q'.dirty
  }

  /** bread of two blocks, the second of which is pinned. */
  method ReadBoth(c: Cache, a: nat, b: nat) returns (panicked: bool, i: nat, k: nat)
    requires c.Valid() && Unlocked(c.bufs[..], a) && Unlocked(c.bufs[..], b) && a != b && IsPinned(c.bufs[..], b)
    requires a in c.disk && b in c.disk
    modifies c.bufs
    ensures panicked <==> !IsCached(old(c.bufs[..]), a) && !HasIdle(old(c.bufs[..]))
    ensures !panicked ==>
              var bs0, bs := old(c.bufs[..]), c.bufs[..];
              && c.Valid() && SameViews(bs0, c.disk, bs, c.disk) && |bs0| == NBUF + 1
              && i < NBUF && k < NBUF && i != k && bs == bs0[i := bs[i]][k := bs[k]]
              && HeldFor(bs0[i], bs[i], a) && HeldFor(bs0[k], bs[k], b)
              && bs[i].data == View(bs0, c.disk, a) && bs[k].data == View(bs0, c.disk, b)
              && (Hit(bs0, i, 1, a) || !IsCached(bs0, a)) && Hit(bs0, k, 1, b)
  {
    hide Sound, SameViews, View;
    c.ArrayFacts();
    ghost var bs0 := c.bufs[..];
    k := 0;
    panicked, i := Bread(c, a);
    if panicked {
      return;
    }
    ghost var bs1 := c.bufs[..];
    PinnedStays(bs0, c.disk, bs1, i, a, b);
    panicked, k := Bread(c, b);
    SameViewsTrans(bs0, bs1, c.bufs[..], c.disk);
    SameViewAt(bs0, c.disk, bs1, b);
    assert c.bufs[..] == bs0[i := c.bufs[..][i]][k := c.bufs[..][k]];
  }

  /** memmove, bwrite and the two brelses. */
  method WriteBoth(c: Cache, i: nat, k: nat)
    requires c.Valid() && i < NBUF && k < NBUF && i != k
    requires c.bufs[i].locked && c.bufs[i].valid && c.bufs[k].locked && c.bufs[k].valid
    requires c.bufs[k].blockno in c.disk && !Changed(c.bufs[i], c.disk)
    requires c.bufs[k].dev == 1 && c.bufs[i].dev == 1 && c.bufs[i].blockno != c.bufs[k].blockno
    modifies c.bufs, c`disk, c`order, c`stamp, c`clock
    ensures c.Valid()
    ensures var b, data := old(c.bufs[k].blockno), old(c.bufs[i].data);
            && c.disk == old(c.disk)[b := data]
            && Shown(c.bufs[..], c.disk) == Shown(old(c.bufs[..]), old(c.disk))[b := data]
    ensures var p, q := old(c.bufs[i]), old(c.bufs[k]);
            SameButData(old(c.bufs[..])[i := p.(locked := false, refcnt := p.refcnt - 1)]
                                       [k := q.(locked := false, refcnt := q.refcnt - 1, dirty := false)], c.bufs[..])
  {
    hide Sound, SameViews, View;
    c.ArrayFacts();
    ghost var bs0, d0 := c.bufs[..], c.disk;
    c.Modify(k, c.bufs[i].data);
    ghost var bs1 := c.bufs[..];
    var panicked := c.Bwrite(k);
    ghost var bs2 := c.bufs[..];
    ShownChanged(bs0, d0, bs1, bs2, c.disk, c.bufs[k].blockno, c.bufs[i].data);
    Brelse(c, i);
    ghost var bs3 := c.bufs[..];
    ShownSame(bs2, c.disk, bs3);
    Brelse(c, k);
    ShownSame(bs3, c.disk, c.bufs[..]);
  }

  ghost predicate SameButData(a: seq<Buf>, b: seq<Buf>) {
    |a| == |b| && forall i | 0 <= i < |a| :: Alike(a[i], b[i])
  }

  lemma ShownChanged(
    bs0: seq<Buf>, d0: Disk, bs1: seq<Buf>, bs2: seq<Buf>, d2: Disk, b: nat, data: Block)
    requires b in d0 && d2.Keys == d0.Keys && View(bs1, d0, b) == data && SameViews(bs1, d0, bs2, d2)
    requires forall x | x in d0 && x != b :: View(bs1, d0, x) == View(bs0, d0, x)
    ensures Shown(bs2, d2) == Shown(bs0, d0)[b := data]
  {
    hide View;
  }

  lemma AllOk(bs: seq<Buf>, f: seq<nat>, stamp: seq<nat>, clock: nat, disk: Disk)
    requires BufferCache.Sound(bs, f, stamp, clock, disk)
    ensures Unique(bs) && forall j | 0 <= j < NBUF :: BufOk(bs[j], disk)
  {
  }

  /** A buffer fresh from bread agrees with the disk unless it is pinned. */
  lemma HeldIsUnchanged(
    bs: seq<Buf>, f: seq<nat>, stamp: seq<nat>, clock: nat, disk: Disk, i: nat, q: Buf, b: nat)
    requires BufferCache.Sound(bs, f, stamp, clock, disk) && |bs| == NBUF + 1 && i < NBUF && b in disk
    requires HeldFor(bs[i], q, b) && q.data == View(bs, disk, b) && (Hit(bs, i, 1, b) || !IsCached(bs, b))
    ensures !Changed(q, disk)
  {
    if j: nat :| Caches(bs, j, b) {
      assert Hit(bs, j, 1, b);
      assert j == i || j < i || i < j;
      assert BufOk(bs[i], disk);
      ViewOfCached(bs, disk, i, b);
    }
  }

  /**
   One round of write_log or install_trans: block `src` as the cache shows it is copied to `dst`, on disk and in the
   cache. The block that is read second is pinned. bget finds no buffer exactly if the first is not in the cache and
   every buffer is referenced or pinned.
   */
  method Copy(c: Cache, src: nat, dst: nat, dstFirst: bool) returns (panicked: bool)
    requires c.Valid() && Unlocked(c.bufs[..], src) && Unlocked(c.bufs[..], dst) && src != dst
    requires src in c.disk && dst in c.disk && IsPinned(c.bufs[..], if dstFirst then src else dst)
    modifies c.bufs, c`disk, c`order, c`stamp, c`clock
    ensures panicked <==>
              !IsCached(old(c.bufs[..]), if dstFirst then dst else src) && !HasIdle(old(c.bufs[..]))
    ensures !panicked ==>
              && c.Valid() && |old(c.bufs[..])| == NBUF + 1
              && c.disk == old(c.disk)[dst := old(View(c.bufs[..], c.disk, src))]
              && Shown(c.bufs[..], c.disk)
                 == old(Shown(c.bufs[..], c.disk))[dst := old(View(c.bufs[..], c.disk, src))]
              && GivenBack(old(c.bufs[..]), c.bufs[..], src, dst)
  {
    hide Sound, SameViews, View, Shown;
    c.ArrayFacts();
    ghost var bs0, d0, order0, stamp0, clock0 := c.bufs[..], c.disk, c.order, c.stamp, c.clock;
    var i, k;
    if dstFirst {
      panicked, k, i := ReadBoth(c, dst, src);
    } else {
      panicked, i, k := ReadBoth(c, src, dst);
    }
    if panicked {
      return;
    }
    ghost var bs1 := c.bufs[..];
    ShownSame(bs0, d0, bs1);
    HeldIsUnchanged(bs0, order0, stamp0, clock0, d0, i, bs1[i], src);
    WriteBoth(c, i, k);
    AllOk(bs0, order0, stamp0, clock0, d0);
    BothReturned(bs0, c.bufs[..], d0, i, src, k, dst);
  }

  /** write_head: one block of the log changed through its buffer. */
  method WriteOne(c: Cache, b: nat, lh: seq<Word>) returns (panicked: bool)
    requires c.Valid() && Unlocked(c.bufs[..], b) && b in c.disk && |lh| < WORDS
    modifies c.bufs, c`disk, c`order, c`stamp, c`clock
    ensures panicked <==> !IsCached(old(c.bufs[..]), b) && !HasIdle(old(c.bufs[..]))
    ensures !panicked ==>
              var data := PutHead(old(View(c.bufs[..], c.disk, b)), lh);
              && c.Valid() && |old(c.bufs[..])| == NBUF + 1 && c.disk == old(c.disk)[b := data]
              && Shown(c.bufs[..], c.disk) == old(Shown(c.bufs[..], c.disk))[b := data]
              && GivenBack(old(c.bufs[..]), c.bufs[..], b + 1, b)
  {
    hide Sound, SameViews, View, Shown;
    c.ArrayFacts();
    ghost var bs0, d0, order0, stamp0, clock0 := c.bufs[..], c.disk, c.order, c.stamp, c.clock;
    var k;
    panicked, k := Bread(c, b);
    if panicked {
      return;
    }
    ghost var bs1 := c.bufs[..];
    ShownSame(bs0, d0, bs1);
    var data := PutHead(c.bufs[k].data, lh);
    c.Modify(k, data);
    ghost var bs2 := c.bufs[..];
    var _ := c.Bwrite(k);
    ghost var bs3 := c.bufs[..];
    ShownChanged(bs1, d0, bs2, bs3, c.disk, b, data);
    Brelse(c, k);
    ShownSame(bs3, c.disk, c.bufs[..]);
    AllOk(bs0, order0, stamp0, clock0, d0);
    BothReturned(bs0, c.bufs[..], d0, NBUF, b + 1, k, b);
  }

  // ---- commit() ----

  /** Disk, contents of the cache and pinned blocks, as module LogDevice has them. */
  ghost function StoreOf(c: Cache, trace: seq<Write>): Storage
    reads c, c.bufs
  {
    Storage(c.disk, Shown(c.bufs[..], c.disk), PinnedBlocks(c.bufs[..]), trace)
  }

  /** The listed blocks from `k` on are pinned, and nobody holds them or blocks of the log. */
  ghost predicate Calm(bs: seq<Buf>, l: Layout, lh: seq<Word>, k: nat)
    requires k <= |lh|
  {
    && (forall i: nat | k <= i < |lh| :: IsPinned(bs, lh[i]))
    && (forall i: nat | i < |lh| :: Unlocked(bs, lh[i]))
    && (forall b: nat | l.InLog(b) :: Unlocked(bs, b))
  }

  /** A round that writes `dst`, which is in the log or the next listed block. */
  lemma CalmKept(bs: seq<Buf>, bs': seq<Buf>, l: Layout, lh: seq<Word>, src: nat, dst: nat, k: nat, k': nat)
    requires k <= k' <= |lh| && Calm(bs, l, lh, k) && GivenBack(bs, bs', src, dst)
    requires forall i | k' <= i < |lh| :: lh[i] != dst
    ensures Calm(bs', l, lh, k')
  {
    hide IsPinned, Unlocked;
  }

  lemma ShownKeys(bs: seq<Buf>, disk: Disk)
    ensures Shown(bs, disk).Keys == disk.Keys
    ensures forall b | b in disk :: Shown(bs, disk)[b] == View(bs, disk, b)
  {
  }

  lemma BackIdle(bs: seq<Buf>, bs': seq<Buf>, src: nat, dst: nat)
    requires GivenBack(bs, bs', src, dst)
    ensures PinnedBlocks(bs') == PinnedBlocks(bs) - {dst} && SameRefs(bs, bs') && (HasIdle(bs) ==> HasIdle(bs'))
  {
  }

  lemma RefsTrans(a: seq<Buf>, b: seq<Buf>, d: seq<Buf>)
    requires SameRefs(a, b) && SameRefs(b, d)
    ensures SameRefs(a, d)
  {
  }

  /** commit() after the writes `ws`, with the listed blocks from `k` on still pinned. */
  ghost predicate Going(c: Cache, l: Layout, lh: seq<Word>, k: nat, s0: Storage, bs0: seq<Buf>, ws: seq<Write>)
    reads c, c.bufs
  {
    && c.Valid() && k <= |lh| && Calm(c.bufs[..], l, lh, k) && l.Fits(s0.view) && GoodBatch(l, s0.view, lh)
    && s0.view.Keys == c.disk.Keys && SameRefs(bs0, c.bufs[..]) && (HasIdle(bs0) ==> HasIdle(c.bufs[..]))
    && Issued(s0, ws, StoreOf(c, s0.trace + ws))
  }

  lemma GoingView(c: Cache, l: Layout, lh: seq<Word>, k: nat, s0: Storage, bs0: seq<Buf>, ws: seq<Write>)
    requires Going(c, l, lh, k, s0, bs0, ws)
    ensures Shown(c.bufs[..], c.disk) == Apply(s0.view, ws) && Shown(c.bufs[..], c.disk).Keys == c.disk.Keys
    ensures forall b | b in c.disk :: b in Apply(s0.view, ws) && Apply(s0.view, ws)[b] == View(c.bufs[..], c.disk, b)
    ensures c.Valid() && Calm(c.bufs[..], l, lh, k) && s0.view.Keys == c.disk.Keys && SameRefs(bs0, c.bufs[..])
    ensures l.Fits(s0.view) && GoodBatch(l, s0.view, lh) && Issued(s0, ws, StoreOf(c, s0.trace + ws))
    ensures HasIdle(bs0) ==> HasIdle(c.bufs[..])
  {
    ShownKeys(c.bufs[..], c.disk);
  }

  /** The blocks of one round: a listed one and its slot. */
  lemma RoundBlocks(bs: seq<Buf>, l: Layout, lh: seq<Word>, k: nat, i: nat, disk: Disk)
    requires k <= |lh| && Calm(bs, l, lh, k) && l.Fits(disk) && GoodBatch(l, disk, lh) && k <= i < |lh|
    ensures IsPinned(bs, lh[i]) && Unlocked(bs, lh[i]) && Unlocked(bs, l.Slot(i)) && lh[i] != l.Slot(i)
    ensures lh[i] in disk && l.Slot(i) in disk && l.InLog(l.Slot(i)) && forall j | 0 <= j < |lh| :: lh[j] != l.Slot(i)
    ensures forall j | i < j < |lh| :: lh[j] != lh[i]
  {
    assert l.InLog(l.Slot(i));
    forall j | 0 <= j < |lh|
      ensures !l.InLog(lh[j])
    {
      assert lh[j] in lh;
    }
  }

  /** One round of write_log. */
  method LogRound(c: Cache, l: Layout, lh: seq<Word>, tail: nat, ghost s0: Storage, ghost bs0: seq<Buf>)
    returns (panicked: bool)
    requires tail < |lh| && l.Fits(s0.view) && GoodBatch(l, s0.view, lh)
    requires Going(c, l, lh, 0, s0, bs0, LogCopies(l, lh, s0.view)[..tail])
    modifies c.bufs, c`disk, c`order, c`stamp, c`clock
    ensures panicked <==> !IsCached(old(c.bufs[..]), l.Slot(tail)) && !HasIdle(old(c.bufs[..]))
    ensures !panicked ==> Going(c, l, lh, 0, s0, bs0, LogCopies(l, lh, s0.view)[..tail + 1])
  {
    hide Sound, SameViews, View, Shown, Issued, PinnedBlocks, GivenBack, SameRefs, HasIdle, IsCached;
    hide IsPinned, Unlocked;
    hide Going, Calm;
    ghost var ws, bs1 := LogCopies(l, lh, s0.view), c.bufs[..];
    ghost var mid := StoreOf(c, s0.trace + ws[..tail]);
    assert ws[tail] == Write(l.Slot(tail), s0.view[lh[tail]]);
    GoingView(c, l, lh, 0, s0, bs0, ws[..tail]);
    RoundBlocks(bs1, l, lh, 0, tail, s0.view);
    LogCopiesKeepHomes(l, lh, s0.view, tail);
    panicked := Copy(c, lh[tail], l.Slot(tail), true);
    if panicked {
      return;
    }
    GoingOn(c, l, lh, 0, 0, s0, bs0, bs1, mid, ws[..tail], ws[tail], lh[tail]);
    assert ws[..tail + 1] == ws[..tail] + [ws[tail]];
  }

  /** One more write, after which both buffers are given back. */
  lemma GoingOn(
    c: Cache, l: Layout, lh: seq<Word>, k: nat, k': nat, s0: Storage, bs0: seq<Buf>, bs1: seq<Buf>, mid: Storage,
    ws: seq<Write>, w: Write, src: nat)
    requires c.Valid() && k <= k' <= |lh| && Calm(bs1, l, lh, k) && l.Fits(s0.view) && GoodBatch(l, s0.view, lh)
    requires Issued(s0, ws, mid) && mid.trace == s0.trace + ws && mid.dirty == PinnedBlocks(bs1)
    requires s0.view.Keys == c.disk.Keys && SameRefs(bs0, bs1) && (HasIdle(bs0) ==> HasIdle(bs1))
    requires c.disk == mid.disk[w.target := w.data] && Shown(c.bufs[..], c.disk) == mid.view[w.target := w.data]
    requires GivenBack(bs1, c.bufs[..], src, w.target) && forall i | k' <= i < |lh| :: lh[i] != w.target
    ensures Going(c, l, lh, k', s0, bs0, ws + [w])
  {
    hide Issued, PinnedBlocks, GivenBack, SameRefs, HasIdle, Calm, Shown, BufferCache.Sound;
    CalmKept(bs1, c.bufs[..], l, lh, src, w.target, k, k');
    BackIdle(bs1, c.bufs[..], src, w.target);
    RefsTrans(bs0, bs1, c.bufs[..]);
    assert s0.trace + (ws + [w]) == s0.trace + ws + [w];
    IssuedOneMore(s0, ws, mid, w, StoreOf(c, s0.trace + (ws + [w])));
  }

  lemma GoingIdle(c: Cache, l: Layout, lh: seq<Word>, k: nat, s0: Storage, bs0: seq<Buf>, ws: seq<Write>)
    requires Going(c, l, lh, k, s0, bs0, ws)
    ensures HasIdle(bs0) ==> HasIdle(c.bufs[..])
  {
  }

  /** write_log. */
  method WriteLog(c: Cache, l: Layout, lh: seq<Word>, ghost s0: Storage, ghost bs0: seq<Buf>) returns (panicked: bool)
    requires l.Fits(s0.view) && GoodBatch(l, s0.view, lh) && Going(c, l, lh, 0, s0, bs0, []) && bs0 == c.bufs[..]
    modifies c.bufs, c`disk, c`order, c`stamp, c`clock
    ensures panicked ==> !HasIdle(bs0)
    ensures lh != [] && !IsCached(bs0, l.Slot(0)) && !HasIdle(bs0) ==> panicked
    ensures !panicked ==> Going(c, l, lh, 0, s0, bs0, LogCopies(l, lh, s0.view))
  {
    hide Going, HasIdle, IsCached;
    ghost var ws := LogCopies(l, lh, s0.view);
    assert ws[..0] == [] && ws[..|lh|] == ws;
    var tail := 0;
    panicked := false;
    while tail < |lh|
      invariant 0 <= tail <= |lh| && Going(c, l, lh, 0, s0, bs0, ws[..tail]) && (tail == 0 ==> c.bufs[..] == bs0)
      invariant tail > 0 ==> IsCached(bs0, l.Slot(0)) || HasIdle(bs0)
    {
      GoingIdle(c, l, lh, 0, s0, bs0, ws[..tail]);
      panicked := LogRound(c, l, lh, tail, s0, bs0);
      if panicked {
        return;
      }
      tail := tail + 1;
    }
  }

  /** write_head. */
  method WriteHead(c: Cache, l: Layout, lh: seq<Word>, list: seq<Word>, k: nat, ghost s0: Storage, ghost bs0: seq<Buf>,
                   ghost ws: seq<Write>)
    returns (panicked: bool)
    requires Going(c, l, lh, k, s0, bs0, ws) && |list| < WORDS && l.start in Apply(s0.view, ws)
    modifies c.bufs, c`disk, c`order, c`stamp, c`clock
    ensures panicked ==> !HasIdle(bs0)
    ensures !panicked ==> Going(c, l, lh, k, s0, bs0, ws + [HeadWrite(l, list, Apply(s0.view, ws))])
  {
    hide Sound, SameViews, View, Shown, Issued, PinnedBlocks, GivenBack, SameRefs, HasIdle, IsCached;
    hide IsPinned, Unlocked;
    hide PutHead;
    ghost var bs1, mid, w := c.bufs[..], StoreOf(c, s0.trace + ws), HeadWrite(l, list, Apply(s0.view, ws));
    assert l.InLog(l.start);
    GoingView(c, l, lh, k, s0, bs0, ws);
    panicked := WriteOne(c, l.start, list);
    if panicked {
      return;
    }
    forall i | k <= i < |lh|
      ensures lh[i] != l.start
    {
      assert lh[i] in lh;
    }
    GoingOn(c, l, lh, k, k, s0, bs0, bs1, mid, ws, w, l.start + 1);
  }

  /** One round of install_trans, which started after the writes `done`. */
  method InstallRound(c: Cache, l: Layout, lh: seq<Word>, tail: nat, ghost s0: Storage, ghost bs0: seq<Buf>,
                      ghost done: seq<Write>)
    returns (panicked: bool)
    requires tail < |lh| && (forall i | 0 <= i < |lh| :: l.Slot(i) in Apply(s0.view, done))
    requires l.Fits(Apply(s0.view, done)) && GoodBatch(l, Apply(s0.view, done), lh)
    requires Going(c, l, lh, tail, s0, bs0, done + Installs(l, lh, Apply(s0.view, done))[..tail])
    modifies c.bufs, c`disk, c`order, c`stamp, c`clock
    ensures panicked ==> !HasIdle(bs0)
    ensures !panicked ==> Going(c, l, lh, tail + 1, s0, bs0, done + Installs(l, lh, Apply(s0.view, done))[..tail + 1])
  {
    hide Sound, SameViews, View, Shown, Issued, PinnedBlocks, GivenBack, SameRefs, HasIdle, IsCached;
    hide IsPinned, Unlocked;
    hide Going, Calm, GoodBatch;
    ghost var v, bs1 := Apply(s0.view, done), c.bufs[..];
    ghost var ws := Installs(l, lh, v);
    ghost var mid := StoreOf(c, s0.trace + (done + ws[..tail]));
    assert ws[tail] == Write(lh[tail], v[l.Slot(tail)]);
    GoingView(c, l, lh, tail, s0, bs0, done + ws[..tail]);
    RoundBlocks(bs1, l, lh, tail, tail, s0.view);
    ApplyConcat(s0.view, done, ws[..tail]);
    InstallsKeepLog(l, lh, v, tail, l.Slot(tail));
    panicked := Copy(c, l.Slot(tail), lh[tail], false);
    if panicked {
      return;
    }
    GoingOn(c, l, lh, tail, tail + 1, s0, bs0, bs1, mid, done + ws[..tail], ws[tail], l.Slot(tail));
    assert done + ws[..tail + 1] == done + ws[..tail] + [ws[tail]];
  }

  /** install_trans. */
  method InstallTrans(c: Cache, l: Layout, lh: seq<Word>, ghost s0: Storage, ghost bs0: seq<Buf>,
                      ghost done: seq<Write>)
    returns (panicked: bool)
    requires (forall i | 0 <= i < |lh| :: l.Slot(i) in Apply(s0.view, done))
    requires l.Fits(Apply(s0.view, done)) && GoodBatch(l, Apply(s0.view, done), lh)
    requires Going(c, l, lh, 0, s0, bs0, done)
    modifies c.bufs, c`disk, c`order, c`stamp, c`clock
    ensures panicked ==> !HasIdle(bs0)
    ensures !panicked ==> Going(c, l, lh, |lh|, s0, bs0, done + Installs(l, lh, Apply(s0.view, done)))
  {
    hide Going, HasIdle;
    ghost var ws := Installs(l, lh, Apply(s0.view, done));
    assert done + ws[..0] == done && ws[..|lh|] == ws;
    var tail := 0;
    panicked := false;
    while tail < |lh|
      invariant 0 <= tail <= |lh| && Going(c, l, lh, tail, s0, bs0, done + ws[..tail])
    {
      panicked := InstallRound(c, l, lh, tail, s0, bs0, done);
      if panicked {
        return;
      }
      tail := tail + 1;
    }
  }

  /**
   commit() through the buffer cache: exactly the writes of RedoLog.CommitWrites reach disk and cache, the blocks that
   are written are no longer pinned, and every reference and lock is as before. If some buffer is idle when it starts,
   bget always finds one; if none is and the first log block is not in the cache, the kernel panics.
   */
  method Commit(c: Cache, l: Layout, lh: seq<Word>) returns (panicked: bool)
    requires c.Valid() && l.Fits(c.disk) && GoodBatch(l, c.disk, lh) && Calm(c.bufs[..], l, lh, 0)
    modifies c.bufs, c`disk, c`order, c`stamp, c`clock
    ensures panicked ==> !HasIdle(old(c.bufs[..]))
    ensures lh != [] && !IsCached(old(c.bufs[..]), l.Slot(0)) && !HasIdle(old(c.bufs[..])) ==> panicked
    ensures !panicked ==>
              var v := old(Shown(c.bufs[..], c.disk));
              && l.Fits(v) && GoodBatch(l, v, lh) && c.Valid()
              && Issued(old(StoreOf(c, [])), CommitWrites(l, lh, v), StoreOf(c, CommitWrites(l, lh, v)))
              && SameRefs(old(c.bufs[..]), c.bufs[..])
  {
    hide Going, HasIdle, IsCached, Issued, Shown, Sound, SameRefs, Calm;
    ghost var s0, bs0 := StoreOf(c, []), c.bufs[..];
    GoingStarts(c, l, lh);
    if lh == [] {
      GoingEnds(c, l, lh, 0, s0, bs0, []);
      return false;
    }
    ghost var v, copies, head := s0.view, LogCopies(l, lh, s0.view), HeadWrite(l, lh, s0.view);
    panicked := WriteLog(c, l, lh, s0, bs0);
    if panicked {
      return;
    }
    LogCopiesKeepHeader(l, lh, v);
    panicked := WriteHead(c, l, lh, lh, 0, s0, bs0, copies);
    if panicked {
      return;
    }
    ghost var done := copies + [head];
    LoggedFits(l, lh, v);
    panicked := InstallTrans(c, l, lh, s0, bs0, done);
    if panicked {
      return;
    }
    ghost var installs := Installs(l, lh, Apply(v, done));
    ApplyConcat(v, done, installs);
    InstallsKeepHeader(l, lh, Apply(v, done));
    panicked := WriteHead(c, l, lh, [], |lh|, s0, bs0, done + installs);
    if panicked {
      return;
    }
    assert HeadWrite(l, [], Apply(v, done + installs)) == HeadWrite(l, [], Apply(v, done));
    GoingEnds(c, l, lh, |lh|, s0, bs0, CommitWrites(l, lh, v));
  }

  lemma GoingStarts(c: Cache, l: Layout, lh: seq<Word>)
    requires c.Valid() && l.Fits(c.disk) && GoodBatch(l, c.disk, lh) && Calm(c.bufs[..], l, lh, 0)
    ensures var s0 := StoreOf(c, []);
            l.Fits(s0.view) && GoodBatch(l, s0.view, lh) && Going(c, l, lh, 0, s0, c.bufs[..], [])
  {
    ShownKeys(c.bufs[..], c.disk);
    IssuedNone(StoreOf(c, []));
  }

  lemma GoingEnds(c: Cache, l: Layout, lh: seq<Word>, k: nat, s0: Storage, bs0: seq<Buf>, ws: seq<Write>)
    requires Going(c, l, lh, k, s0, bs0, ws) && s0.trace == []
    ensures c.Valid() && SameRefs(bs0, c.bufs[..]) && Issued(s0, ws, StoreOf(c, ws))
  {
    assert [] + ws == ws;
  }

  lemma LoggedFits(l: Layout, lh: seq<Word>, v: Disk)
    requires l.Fits(v) && GoodBatch(l, v, lh)
    ensures var d := Apply(v, LogCopies(l, lh, v) + [HeadWrite(l, lh, v)]);
            l.Fits(d) && GoodBatch(l, d, lh) && forall i | 0 <= i < |lh| :: l.Slot(i) in d
  {
    LoggedKeys(l, lh, v);
    assert forall i | 0 <= i < |lh| :: l.InLog(l.Slot(i));
  }

  // ---- Out of buffers ----

  /** The buffers in `used` hold the blocks below `n`, each pinned or held; the others were never used. */
  ghost predicate Filled(bs: seq<Buf>, used: set<nat>, n: nat) {
    && |bs| == NBUF + 1 && |used| == n && (forall i | i in used :: i < NBUF)
    && forall i | 0 <= i < NBUF ::
         if i in used then bs[i].dev == 1 && bs[i].blockno < n && (bs[i].dirty || bs[i].refcnt > 0)
         else bs[i].dev == 0 && !bs[i].dirty && bs[i].refcnt == 0
  }

  ghost function Range(n: nat): (r: set<nat>)
    ensures |r| == n && forall i: nat :: i in r <==> i < n
  {
    if n == 0 then {} else Range(n - 1) + {n - 1}
  }

  lemma FilledHasIdle(bs: seq<Buf>, used: set<nat>, n: nat)
    requires Filled(bs, used, n)
    ensures !IsCached(bs, n) && (n < NBUF ==> HasIdle(bs)) && (n == NBUF ==> !HasIdle(bs))
  {
    hide Range;
    if n < NBUF {
      if Range(NBUF) <= used {
        SubsetCount(Range(NBUF), used);
      }
      var i :| i in Range(NBUF) && i !in used;
      assert Idle(bs, i);
    } else if n == NBUF {
      FullSet(used);
    }
  }

  lemma {:induction false} SubsetCount(s: set<nat>, t: set<nat>)
    requires s <= t
    ensures |s| <= |t|
  {
    if s != {} {
      var x :| x in s;
      SubsetCount(s - {x}, t - {x});
    }
  }

  lemma FullSet(used: set<nat>)
    requires |used| == NBUF && forall i | i in used :: i < NBUF
    ensures forall i | 0 <= i < NBUF :: i in used
  {
    forall i: nat | i < NBUF
      ensures i in used
    {
      FullSetHas(used, i);
    }
  }

  lemma FullSetHas(used: set<nat>, i: nat)
    requires |used| == NBUF && i < NBUF && forall j | j in used :: j < NBUF
    ensures i in used
  {
    hide Range;
    var all := Range(NBUF);
    var rest := all - {i};
    assert all == rest + {i} && |rest| == NBUF - 1;
    if i !in used {
      forall j | j in used
        ensures j in rest
      {
        assert j in all;
      }
      SubsetCount(used, rest);
    }
  }

  lemma FilledNext(bs: seq<Buf>, disk: Disk, bs1: seq<Buf>, bs': seq<Buf>, used: set<nat>, n: nat, i: nat)
    requires Filled(bs, used, n) && n in disk && Got(bs, disk, bs1, i, n) && !IsCached(bs, n)
    requires |bs'| == |bs| && (forall j | 0 <= j < NBUF && j != i :: Alike(bs[j], bs'[j]))
    requires bs'[i].dev == 1 && bs'[i].blockno == n && (bs'[i].dirty || bs'[i].refcnt > 0)
    ensures i !in used && Filled(bs', used + {i}, n + 1)
  {
    hide View;
    assert Hit(bs, i, 1, n) ==> IsCached(bs, n);
  }

  /** One block more: pinned as log_write leaves it, or held. */
  method TakeOne(c: Cache, n: nat, pin: bool, ghost used: set<nat>) returns (i: nat)
    requires c.Valid() && Filled(c.bufs[..], used, n) && n < NBUF && n in c.disk
    modifies c.bufs, c`order, c`stamp, c`clock
    ensures c.Valid() && i !in used && Filled(c.bufs[..], used + {i}, n + 1)
    ensures c.bufs[i].dirty == pin && c.bufs[i].refcnt == if pin then 0 else 1
    ensures forall j | j in used :: Alike(old(c.bufs[..])[j], c.bufs[..][j])
  {
    hide Sound, SameViews, View, Filled, Got;
    ghost var bs0 := c.bufs[..];
    FilledHasIdle(bs0, used, n);
    NotCachedUnlocked(bs0, n);
    var panicked;
    panicked, i := Bread(c, n);
    ghost var bs1 := c.bufs[..];
    GotFresh(bs0, c.disk, bs1, used, n, i);
    if pin {
      c.Pin(i);
      Brelse(c, i);
    }
    FilledNext(bs0, c.disk, bs1, c.bufs[..], used, n, i);
  }

  lemma NotCachedUnlocked(bs: seq<Buf>, n: nat)
    ensures !IsCached(bs, n) ==> Unlocked(bs, n)
  {
  }

  lemma GotFresh(bs: seq<Buf>, disk: Disk, bs': seq<Buf>, used: set<nat>, n: nat, i: nat)
    requires Filled(bs, used, n) && n in disk && Got(bs, disk, bs', i, n) && !IsCached(bs, n)
    ensures i < NBUF && |bs'| == NBUF + 1 && i !in used && bs'[i].locked && bs'[i].valid && !bs'[i].dirty
    ensures bs'[i].refcnt == 1 && bs'[i].dev == 1 && bs'[i].blockno == n
    ensures forall j | 0 <= j < NBUF && j != i :: bs'[j] == bs[j]
    ensures forall j | j in used :: j < NBUF && j != i
  {
    hide View;
    assert Hit(bs, i, 1, n) ==> IsCached(bs, n);
  }

  /** The blocks below `m` pinned. */
  method PinMany(c: Cache, m: nat) returns (ghost used: set<nat>)
    requires c.Valid() && Filled(c.bufs[..], {}, 0) && m <= NBUF && forall b | 0 <= b < m :: b in c.disk
    modifies c.bufs, c`order, c`stamp, c`clock
    ensures c.Valid() && Filled(c.bufs[..], used, m) && |c.bufs[..]| == NBUF + 1
    ensures forall i | i in used :: i < NBUF && c.bufs[..][i].dirty && c.bufs[..][i].refcnt == 0
  {
    hide Sound, View, Filled;
    used := {};
    c.ArrayFacts();
    var n := 0;
    while n < m
      invariant 0 <= n <= m && c.Valid() && Filled(c.bufs[..], used, n) && |c.bufs[..]| == NBUF + 1
      invariant forall i | i in used :: i < NBUF && c.bufs[..][i].dirty && c.bufs[..][i].refcnt == 0
    {
      var i := TakeOne(c, n, true, used);
      used := used + {i};
      n := n + 1;
      UsedBound(c.bufs[..], used, n);
    }
  }

  /**
   With 30 buffers, 28 blocks pinned by the log and two more held, as by two processes that read files, the next bread
   of a block outside the cache panics with no buffers, be it commit's.
   */
  method RunOut(disk: Disk) returns (c: Cache, panicked: bool, ghost pinned: set<nat>, i: nat, k: nat)
    requires forall b | 0 <= b <= NBUF :: b in disk
    ensures panicked && |c.bufs[..]| == NBUF + 1 && |pinned| == 28 && i !in pinned && k !in pinned && i != k
    ensures forall j | 0 <= j < NBUF :: j in pinned || j == i || j == k
    ensures forall j | j in pinned :: j < NBUF && c.bufs[..][j].dirty && c.bufs[..][j].refcnt == 0
    ensures i < NBUF && k < NBUF && c.bufs[..][i].refcnt == 1 && c.bufs[..][k].refcnt == 1
  {
    hide Sound, View, Filled, IsCached, HasIdle;
    c := new Cache(disk);
    c.ArrayFacts();
    FilledStarts(c.bufs[..]);
    pinned := PinMany(c, 28);
    UsedBound(c.bufs[..], pinned, 28);
    i := TakeOne(c, 28, false, pinned);
    ghost var two := pinned + {i};
    UsedBound(c.bufs[..], two, 29);
    k := TakeOne(c, 29, false, two);
    ghost var all := two + {k};
    UsedBound(c.bufs[..], all, NBUF);
    FullSet(all);
    FilledHasIdle(c.bufs[..], all, NBUF);
    NotCachedUnlocked(c.bufs[..], NBUF);
    var none, _ := Bread(c, NBUF);
    panicked := none;
  }

  lemma FilledStarts(bs: seq<Buf>)
    requires |bs| == NBUF + 1 && forall i | 0 <= i < NBUF :: bs[i].dev == 0 && !bs[i].dirty && bs[i].refcnt == 0
    ensures Filled(bs, {}, 0)
  {
  }

  lemma UsedBound(bs: seq<Buf>, used: set<nat>, n: nat)
    requires Filled(bs, used, n)
    ensures |bs| == NBUF + 1 && |used| == n && forall i | i in used :: i < NBUF
  {
  }
}
