/**
 part1/bio.c over the disk driver of part1/memide.c. Each method is one critical section (or one step under the
 buffer's sleep lock), so what every method keeps holds in every interleaving of processes.
 */
module BufferCache {
  import opened Blocks
  import opened CacheList

  type Disk = map<nat, Block>

  ghost predicate Caches(bs: seq<Buf>, i: nat, b: nat) {
    i < NBUF < |bs| && bs[i].dev == 1 && bs[i].blockno == b && bs[i].valid
  }

  /** What the system sees in block `b`: its valid cached copy, or else the disk. */
  ghost function View(bs: seq<Buf>, disk: Disk, b: nat): Block
    requires b in disk
  {
    if exists i: nat :: Caches(bs, i, b) then
      var i: nat :| Caches(bs, i, b);
      bs[i].data
    else disk[b]
  }

  /** A block of a real device has at most one buffer; all buffers start out as block 0 of device 0. */
  ghost predicate Unique(bs: seq<Buf>) {
    forall i, j | 0 <= i < j < NBUF < |bs| && bs[i].dev != 0 :: bs[i].dev != bs[j].dev || bs[i].blockno != bs[j].blockno
  }

  /** Only the holder of the lock or the log may make a buffer differ from the disk. */
  ghost predicate BufOk(q: Buf, disk: Disk) {
    && (q.valid ==> q.dev == 1 && q.blockno in disk)
    && (q.dirty ==> q.valid) && (q.locked ==> q.refcnt > 0)
    && (q.valid && !q.dirty && !q.locked ==> q.data == disk[q.blockno])
  }

  /** The list holds every buffer, most recently released first; `stamp` is when each was released. */
  ghost predicate Lru(bs: seq<Buf>, f: seq<nat>, stamp: seq<nat>, clock: nat) {
    && |bs| == NBUF + 1 && Circle(bs, f) && |f| == NBUF + 1 && (forall x | 0 <= x <= NBUF :: x in f)
    && |stamp| == NBUF && (forall i | 1 <= i < |f| :: f[i] < NBUF && stamp[f[i]] < clock)
    && (forall i, j | 1 <= i < j < |f| :: stamp[f[i]] > stamp[f[j]])
  }

  ghost predicate Sound(bs: seq<Buf>, f: seq<nat>, stamp: seq<nat>, clock: nat, disk: Disk) {
    Lru(bs, f, stamp, clock) && Unique(bs) && forall i | 0 <= i < NBUF :: BufOk(bs[i], disk)
  }

  ghost predicate SameViews(bs: seq<Buf>, disk: Disk, bs': seq<Buf>, disk': Disk) {
    disk.Keys == disk'.Keys && forall b | b in disk :: View(bs', disk', b) == View(bs, disk, b)
  }

  lemma ViewOfCached(bs: seq<Buf>, disk: Disk, i: nat, b: nat)
    requires Unique(bs) && b in disk && Caches(bs, i, b)
    ensures View(bs, disk, b) == bs[i].data
  {
    var j: nat :| Caches(bs, j, b) && View(bs, disk, b) == bs[j].data;
    assert j == i || i < j || j < i;
  }

  /** Replacing buffer `i` changes the view of its own block only. */
  lemma ViewAfterUpdate(bs: seq<Buf>, disk: Disk, i: nat, q: Buf, disk': Disk, b: nat)
    requires |bs| == NBUF + 1 && i < NBUF && Unique(bs) && Unique(bs[i := q]) && b in disk && b in disk'
    requires !Caches(bs, i, b) && !Caches(bs[i := q], i, b) && disk'[b] == disk[b]
    ensures View(bs[i := q], disk', b) == View(bs, disk, b)
  {
    var bs' := bs[i := q];
    if j: nat :| Caches(bs, j, b) {
      assert Caches(bs', j, b);
      ViewOfCached(bs, disk, j, b);
      ViewOfCached(bs', disk', j, b);
    } else if j: nat :| Caches(bs', j, b) {
      assert Caches(bs, j, b);
    }
  }

  /** Changing nothing but the reference count, the flags' lock bit or the links leaves every view alone. */
  lemma ViewAfterTouch(bs: seq<Buf>, bs': seq<Buf>, disk: Disk, b: nat)
    requires |bs| == |bs'| == NBUF + 1 && Unique(bs) && Unique(bs') && b in disk
    requires forall i | 0 <= i < NBUF :: bs'[i].dev == bs[i].dev && bs'[i].blockno == bs[i].blockno
                                         && bs'[i].valid == bs[i].valid && bs'[i].data == bs[i].data
    ensures View(bs', disk, b) == View(bs, disk, b)
  {
    if j: nat :| Caches(bs, j, b) {
      assert Caches(bs', j, b);
      ViewOfCached(bs, disk, j, b);
      ViewOfCached(bs', disk, j, b);
    } else if j: nat :| Caches(bs', j, b) {
      assert Caches(bs, j, b);
    }
  }

  /** bget found block (dev, blockno) in buffer `i`. */
  ghost predicate Hit(bs: seq<Buf>, i: nat, dev: nat, blockno: nat) {
    i < NBUF < |bs| && bs[i].dev == dev && bs[i].blockno == blockno
  }

  ghost predicate Idle(bs: seq<Buf>, i: nat) {
    i < NBUF < |bs| && bs[i].refcnt == 0 && !bs[i].dirty
  }

  function Recycled(q: Buf, dev: nat, blockno: nat): Buf {
    q.(dev := dev, blockno := blockno, valid := false, dirty := false, refcnt := 1)
  }

  /** Counting one more reference to buffer `i`. */
  lemma HitKeepsAll(bs: seq<Buf>, f: seq<nat>, stamp: seq<nat>, clock: nat, disk: Disk, i: nat)
    requires Sound(bs, f, stamp, clock, disk) && i < NBUF
    ensures var bs' := bs[i := bs[i].(refcnt := bs[i].refcnt + 1)];
            Sound(bs', f, stamp, clock, disk) && SameViews(bs, disk, bs', disk)
  {
    var bs' := bs[i := bs[i].(refcnt := bs[i].refcnt + 1)];
    LinksSurvive(bs, bs', f);
    forall b | b in disk
      ensures View(bs', disk, b) == View(bs, disk, b)
    {
      ViewAfterTouch(bs, bs', disk, b);
    }
  }

  /** Recycling an idle buffer for a block that is not cached loses nothing. */
  lemma RecycleKeepsAll(
    bs: seq<Buf>, f: seq<nat>, stamp: seq<nat>, clock: nat, disk: Disk, i: nat, dev: nat, blockno: nat)
    requires Sound(bs, f, stamp, clock, disk) && Idle(bs, i) && forall j: nat :: !Hit(bs, j, dev, blockno)
    ensures var bs' := bs[i := Recycled(bs[i], dev, blockno)];
            Sound(bs', f, stamp, clock, disk) && SameViews(bs, disk, bs', disk)
  {
    var q := Recycled(bs[i], dev, blockno);
    var bs' := bs[i := q];
    LinksSurvive(bs, bs', f);
    forall a, c | 0 <= a < c < NBUF && bs'[a].dev != 0
      ensures bs'[a].dev != bs'[c].dev || bs'[a].blockno != bs'[c].blockno
    {
      assert !Hit(bs, a, dev, blockno) && !Hit(bs, c, dev, blockno);
    }
    forall b | b in disk
      ensures View(bs', disk, b) == View(bs, disk, b)
    {
      if Caches(bs, i, b) {
        ViewOfCached(bs, disk, i, b);
        forall j: nat
          ensures !Caches(bs', j, b)
        {
          assert Caches(bs', j, b) ==> j != i && Caches(bs, j, b);
        }
      } else {
        ViewAfterUpdate(bs, disk, i, q, disk, b);
      }
    }
  }

  /** Links that stay where they are. */
  lemma LinksSurvive(bs: seq<Buf>, bs': seq<Buf>, f: seq<nat>)
    requires Circle(bs, f) && |bs'| == |bs|
    requires forall i | 0 <= i < |bs| :: bs'[i].prev == bs[i].prev && bs'[i].next == bs[i].next
    ensures Circle(bs', f)
  {
    forall i: nat | i < |f|
      ensures LinksAt(bs', f, i)
    {
      assert LinksAt(bs, f, i);
    }
  }

  /** The operations of a lock holder on buffer `i`: everything about other blocks stays. */
  lemma HolderKeepsRest(bs: seq<Buf>, f: seq<nat>, stamp: seq<nat>, clock: nat, disk: Disk, i: nat, q: Buf, disk': Disk)
    requires Sound(bs, f, stamp, clock, disk) && i < NBUF && bs[i].locked && bs[i].dev == 1 && bs[i].blockno in disk
    requires q == bs[i].(valid := q.valid, dirty := q.dirty, data := q.data) && BufOk(q, disk') && q.valid
    requires disk'.Keys == disk.Keys && forall b | b in disk && b != q.blockno :: disk'[b] == disk[b]
    ensures var bs' := bs[i := q];
            && Sound(bs', f, stamp, clock, disk') && View(bs', disk', q.blockno) == q.data
            && forall b | b in disk && b != q.blockno :: View(bs', disk', b) == View(bs, disk, b)
  {
    var bs' := bs[i := q];
    LinksSurvive(bs, bs', f);
    assert Caches(bs', i, q.blockno);
    ViewOfCached(bs', disk', i, q.blockno);
    forall b | b in disk && b != q.blockno
      ensures View(bs', disk', b) == View(bs, disk, b)
    {
      ViewAfterUpdate(bs, disk, i, q, disk', b);
    }
    forall j | 0 <= j < NBUF
      ensures BufOk(bs'[j], disk')
    {
      assert BufOk(bs[j], disk);
      if j != i && bs[j].valid {
        assert bs[j].blockno != q.blockno;
      }
    }
  }

  /** Moving a released buffer to the front of the list. */
  lemma MoveKeepsLru(bs: seq<Buf>, f: seq<nat>, stamp: seq<nat>, clock: nat, k: nat)
    requires Lru(bs, f, stamp, clock) && 0 < k < |f|
    ensures var b := f[k];
            && b < NBUF && bs[b].next < |bs| && bs[b].prev < |bs|
            && var bs1 := Unhook(bs, b);
               && HEAD < |bs1| && bs1[HEAD].next < |bs1|
               && Lru(Hook(bs1, b), PutFirst(Remove(f, k), b), stamp[b := clock], clock + 1)
               && SameButLinks(bs, Hook(bs1, b))
  {
    hide Unhook, Hook, Remove, PutFirst;
    var b := f[k];
    UnhookKeepsCircle(bs, f, k);
    var bs1, f1 := Unhook(bs, b), Remove(f, k);
    HookKeepsCircle(bs1, f1, b);
    MoveKeepsOrder(f, stamp, clock, k);
  }

  lemma MoveKeepsOrder(f: seq<nat>, stamp: seq<nat>, clock: nat, k: nat)
    requires |f| == NBUF + 1 && Distinct(f) && f[0] == NBUF && (forall x | 0 <= x <= NBUF :: x in f)
    requires |stamp| == NBUF && (forall i | 1 <= i < |f| :: f[i] < NBUF && stamp[f[i]] < clock)
    requires (forall i, j | 1 <= i < j < |f| :: stamp[f[i]] > stamp[f[j]]) && 0 < k < |f|
    ensures var b := f[k];
            var f2, stamp' := PutFirst(Remove(f, k), b), stamp[b := clock];
            && |f2| == NBUF + 1 && (forall x | 0 <= x <= NBUF :: x in f2)
            && (forall i | 1 <= i < |f2| :: f2[i] < NBUF && stamp'[f2[i]] < clock + 1)
            && (forall i, j | 1 <= i < j < |f2| :: stamp'[f2[i]] > stamp'[f2[j]])
  {
    var b := f[k];
    var f1 := Remove(f, k);
    var f2, stamp' := PutFirst(f1, b), stamp[b := clock];
    hide Remove, PutFirst;
    forall i | 2 <= i < |f2|
      ensures f2[i] == f[if i - 1 < k then i - 1 else i] && f2[i] != b
    {
    }
    forall x | 0 <= x <= NBUF
      ensures x in f2
    {
      assert x in f;
      var i :| 0 <= i < |f| && f[i] == x;
      assert f2[if i == 0 then 0 else if i == k then 1 else if i < k then i + 1 else i] == x;
    }
  }

  /** Taking or letting go of the lock of buffer `i`. */
  lemma LockKeepsAll(bs: seq<Buf>, f: seq<nat>, stamp: seq<nat>, clock: nat, disk: Disk, i: nat, locked: bool)
    requires Sound(bs, f, stamp, clock, disk) && i < NBUF && bs[i].refcnt > 0
    requires !locked && bs[i].valid && !bs[i].dirty ==> bs[i].blockno in disk && bs[i].data == disk[bs[i].blockno]
    ensures var bs' := bs[i := bs[i].(locked := locked)];
            Sound(bs', f, stamp, clock, disk) && SameViews(bs, disk, bs', disk)
  {
    var bs' := bs[i := bs[i].(locked := locked)];
    LinksSurvive(bs, bs', f);
    assert BufOk(bs[i], disk);
    forall b | b in disk
      ensures View(bs', disk, b) == View(bs, disk, b)
    {
      ViewAfterTouch(bs, bs', disk, b);
    }
  }

  /** Changed, but neither pinned nor written. */
  ghost predicate Changed(q: Buf, disk: Disk) {
    q.valid && !q.dirty && q.blockno in disk && q.data != disk[q.blockno]
  }

  lemma UnlockKeepsViews(bs: seq<Buf>, disk: Disk, i: nat)
    requires |bs| == NBUF + 1 && Unique(bs) && i < NBUF
    ensures SameViews(bs, disk, bs[i := bs[i].(locked := false)], disk)
  {
    forall b | b in disk
      ensures View(bs[i := bs[i].(locked := false)], disk, b) == View(bs, disk, b)
    {
      ViewAfterTouch(bs, bs[i := bs[i].(locked := false)], disk, b);
    }
  }

  /** What happens to a change that was neither pinned nor written: recycling the buffer undoes it. */
  lemma ForgottenChangeIsLost(bs: seq<Buf>, disk: Disk, i: nat, dev: nat, blockno: nat)
    requires Unique(bs) && |bs| == NBUF + 1 && Idle(bs, i) && bs[i].dev == 1 && Changed(bs[i], disk)
    requires forall j: nat :: !Hit(bs, j, dev, blockno)
    ensures View(bs, disk, bs[i].blockno) == bs[i].data
    ensures View(bs[i := Recycled(bs[i], dev, blockno)], disk, bs[i].blockno) == disk[bs[i].blockno] != bs[i].data
  {
    var b, bs' := bs[i].blockno, bs[i := Recycled(bs[i], dev, blockno)];
    assert Caches(bs, i, b);
    ViewOfCached(bs, disk, i, b);
    forall j: nat
      ensures !Caches(bs', j, b)
    {
      assert Caches(bs', j, b) ==> j != i && Caches(bs, j, b);
    }
  }

  /** Reading a block that no other buffer holds. */
  lemma FillKeepsAll(bs: seq<Buf>, f: seq<nat>, stamp: seq<nat>, clock: nat, disk: Disk, i: nat)
    requires Sound(bs, f, stamp, clock, disk) && i < NBUF && bs[i].locked && !bs[i].valid
    requires bs[i].dev == 1 && bs[i].blockno in disk
    ensures var bs' := bs[i := bs[i].(data := disk[bs[i].blockno], valid := true)];
            && Sound(bs', f, stamp, clock, disk) && SameViews(bs, disk, bs', disk)
            && View(bs', disk, bs[i].blockno) == disk[bs[i].blockno]
  {
    var q := bs[i].(data := disk[bs[i].blockno], valid := true);
    assert BufOk(bs[i], disk);
    HolderKeepsRest(bs, f, stamp, clock, disk, i, q, disk);
    forall j: nat
      ensures !Caches(bs, j, q.blockno)
    {
      assert j == i || i < j || j < i;
    }
  }

  lemma DropKeepsAll(bs: seq<Buf>, f: seq<nat>, stamp: seq<nat>, clock: nat, disk: Disk, i: nat)
    requires Sound(bs, f, stamp, clock, disk) && i < NBUF && bs[i].refcnt > if bs[i].locked then 1 else 0
    ensures var bs' := bs[i := bs[i].(refcnt := bs[i].refcnt - 1)];
            Sound(bs', f, stamp, clock, disk) && SameViews(bs, disk, bs', disk)
  {
    var bs' := bs[i := bs[i].(refcnt := bs[i].refcnt - 1)];
    LinksSurvive(bs, bs', f);
    assert BufOk(bs[i], disk);
    forall b | b in disk
      ensures View(bs', disk, b) == View(bs, disk, b)
    {
      ViewAfterTouch(bs, bs', disk, b);
    }
  }

  lemma Position(bs: seq<Buf>, f: seq<nat>, stamp: seq<nat>, clock: nat, disk: Disk, b: nat) returns (k: nat)
    requires Sound(bs, f, stamp, clock, disk) && b < NBUF
    ensures 0 < k < |f| && f[k] == b && b < |stamp|
  {
    assert b in f;
    k :| 0 <= k < |f| && f[k] == b;
  }

  lemma SameViewsTrans(a: seq<Buf>, b: seq<Buf>, c: seq<Buf>, disk: Disk)
    requires SameViews(a, disk, b, disk) && SameViews(b, disk, c, disk)
    ensures SameViews(a, disk, c, disk)
  {
  }

  lemma MoveKeepsSound(bs: seq<Buf>, f: seq<nat>, stamp: seq<nat>, clock: nat, disk: Disk, k: nat)
    requires Sound(bs, f, stamp, clock, disk) && 0 < k < |f|
    ensures var b := f[k];
            && b < NBUF && bs[b].next < |bs| && bs[b].prev < |bs|
            && var bs1 := Unhook(bs, b);
               && HEAD < |bs1| && bs1[HEAD].next < |bs1|
               && Sound(Hook(bs1, b), PutFirst(Remove(f, k), b), stamp[b := clock], clock + 1, disk)
               && SameButLinks(bs, Hook(bs1, b)) && SameViews(bs, disk, Hook(bs1, b), disk)
  {
    hide Unhook, Hook;
    MoveKeepsLru(bs, f, stamp, clock, k);
    var bs' := Hook(Unhook(bs, f[k]), f[k]);
    forall i | 0 <= i < NBUF
      ensures BufOk(bs'[i], disk)
    {
      assert BufOk(bs[i], disk);
    }
    forall b | b in disk
      ensures View(bs', disk, b) == View(bs, disk, b)
    {
      ViewAfterTouch(bs, bs', disk, b);
    }
  }

  /** A buffer that was never used, as far as anything but its links and its data is concerned. */
  ghost predicate Unused(q: Buf) {
    q.dev == q.blockno == q.refcnt == 0 && !q.valid && !q.dirty && !q.locked
  }

  /** 0, 1, ..., n - 1. */
  ghost function Ramp(n: nat): (r: seq<nat>)
    ensures |r| == n && forall i | 0 <= i < n :: r[i] == i
  {
    if n == 0 then [] else Ramp(n - 1) + [n - 1]
  }

  lemma FirstSound(bs: seq<Buf>, f: seq<nat>, disk: Disk)
    requires |bs| == NBUF + 1 && Circle(bs, f) && |f| == NBUF + 1 && forall i | 1 <= i < |f| :: f[i] == NBUF - i
    requires forall i | 0 <= i < NBUF :: Unused(bs[i])
    ensures Sound(bs, f, Ramp(NBUF), NBUF, disk)
  {
    forall x | 0 <= x <= NBUF
      ensures x in f
    {
      assert f[NBUF - x] == x;
    }
  }

  class Cache {
    const bufs: array<Buf>            // bcache.buf, then bcache.head
    var disk: Disk
    ghost var order: seq<nat>         // the list from the head, most recently released first
    ghost var stamp: seq<nat>
    ghost var clock: nat

    ghost predicate Valid()
      reads this, bufs
    {
      bufs.Length == NBUF + 1 && Sound(bufs[..], order, stamp, clock, disk)
    }

    /** binit. */
    constructor (disk: Disk)
      ensures Valid() && this.disk == disk && fresh(bufs)
      ensures forall i | 0 <= i < NBUF ::
                bufs[i].refcnt == 0 && !bufs[i].valid && !bufs[i].dirty && bufs[i].dev == bufs[i].blockno == 0
    {
      bufs := new Buf[NBUF + 1](_ => Buf(0, 0, 0, false, false, false, ZERO_BLOCK, HEAD, HEAD));
      this.disk := disk;
      order, stamp, clock := [HEAD], Ramp(NBUF), NBUF;
      new;
      hide Hook;
      assert LinksAt(bufs[..], order, 0);
      for b := 0 to NBUF
        invariant Circle(bufs[..], order) && |order| == b + 1 && stamp == Ramp(NBUF) && clock == NBUF
        invariant forall i | 1 <= i < |order| :: order[i] == b - i
        invariant forall i | 0 <= i < NBUF :: Unused(bufs[i])
        modifies bufs, this`order
      {
        HookKeepsCircle(bufs[..], order, b);
        ghost var before := bufs[..];
        HookFront(b);
        order := PutFirst(order, b);
        assert forall i | 0 <= i < NBUF :: bufs[i] == bufs[..][i] && Unused(before[i]);
      }
      FirstSound(bufs[..], order, disk);
    }

    /** Put buffer `b` behind the head. */
    method HookFront(b: nat)
      requires bufs.Length == NBUF + 1 && b < NBUF && bufs[HEAD].next < bufs.Length
      modifies bufs
      ensures bufs[..] == Hook(old(bufs[..]), b)
    {
      var n := bufs[HEAD].next;
      bufs[b] := bufs[b].(next := n, prev := HEAD);
      bufs[n] := bufs[n].(prev := b);
      bufs[HEAD] := bufs[HEAD].(next := b);
    }

    method UnhookFrom(b: nat)
      requires bufs.Length == NBUF + 1 && b < NBUF && bufs[b].next < bufs.Length && bufs[b].prev < bufs.Length
      modifies bufs
      ensures bufs[..] == Unhook(old(bufs[..]), b)
    {
      var n, p := bufs[b].next, bufs[b].prev;
      bufs[n] := bufs[n].(prev := p);
      bufs[p] := bufs[p].(next := bufs[b].next);
    }

    /** The first buffer from the front that holds the block, or NBUF. */
    method Find(dev: nat, blockno: nat) returns (b: nat)
      requires Valid()
      ensures b <= NBUF && (b < NBUF ==> Hit(bufs[..], b, dev, blockno))
      ensures b == NBUF ==> forall j: nat :: !Hit(bufs[..], j, dev, blockno)
    {
      ghost var k := 1;
      assert LinksAt(bufs[..], order, 0);
      b := bufs[HEAD].next;
      while b != HEAD
        invariant 1 <= k <= |order| && b == (if k < |order| then order[k] else HEAD)
        invariant forall i: nat | 1 <= i < k :: !Hit(bufs[..], order[i], dev, blockno)
        decreases |order| - k
      {
        if bufs[b].dev == dev && bufs[b].blockno == blockno {
          return;
        }
        assert LinksAt(bufs[..], order, k);
        b := bufs[b].next;
        k := k + 1;
      }
      forall j: nat
        ensures !Hit(bufs[..], j, dev, blockno)
      {
        if j < NBUF {
          assert j in order;
          var i :| 0 <= i < |order| && order[i] == j;
        }
      }
    }

    /** The last idle buffer of the list, which is the least recently released one, or NBUF. */
    method FindVictim() returns (b: nat)
      requires Valid()
      ensures b <= NBUF && (b < NBUF ==> Idle(bufs[..], b) && forall j: nat | Idle(bufs[..], j) :: stamp[b] <= stamp[j])
      ensures b == NBUF ==> forall j: nat :: !Idle(bufs[..], j)
    {
      ghost var k := |order| - 1;
      assert LinksAt(bufs[..], order, k);
      b := bufs[HEAD].prev;
      while b != HEAD
        invariant 0 <= k < |order| && b == order[k]
        invariant forall i: nat | k < i < |order| :: !Idle(bufs[..], order[i])
        decreases k
      {
        if bufs[b].refcnt == 0 && !bufs[b].dirty {
          break;
        }
        assert LinksAt(bufs[..], order, k - 1);
        b := bufs[b].prev;
        k := k - 1;
      }
      forall j: nat | Idle(bufs[..], j)
        ensures b < NBUF && stamp[b] <= stamp[j]
      {
        assert j in order;
        var i :| 0 <= i < |order| && order[i] == j;
        assert i <= k && i > 0;
      }
    }

    /**
     bget's critical section. A cached block is found; otherwise the least recently released idle buffer is
     recycled; if there is none, the kernel panics. No view of any block changes, and a buffer that is referenced or
     dirty is never taken away from its block.
     */
    method Bget(dev: nat, blockno: nat) returns (panicked: bool, b: nat)
      requires Valid()
      modifies bufs
      ensures Valid() && SameViews(old(bufs[..]), disk, bufs[..], disk)
      ensures panicked <==>
                (forall j: nat :: !Hit(old(bufs[..]), j, dev, blockno)) && forall j: nat :: !Idle(old(bufs[..]), j)
      ensures panicked ==> bufs[..] == old(bufs[..])
      ensures !panicked ==> b < NBUF && bufs[b].dev == dev && bufs[b].blockno == blockno && bufs[b].refcnt > 0
      ensures !panicked && Hit(old(bufs[..]), b, dev, blockno) ==>
                bufs[..] == old(bufs[..])[b := old(bufs[b]).(refcnt := old(bufs[b]).refcnt + 1)]
      ensures !panicked && !Hit(old(bufs[..]), b, dev, blockno) ==>
                && bufs[..] == old(bufs[..])[b := Recycled(old(bufs[b]), dev, blockno)]
                && Idle(old(bufs[..]), b) && forall j: nat | Idle(old(bufs[..]), j) :: stamp[b] <= stamp[j]
    {
      hide Sound, SameViews;
      ArrayFacts();
      b := Find(dev, blockno);
      if b != NBUF {
        HitKeepsAll(bufs[..], order, stamp, clock, disk, b);
        bufs[b] := bufs[b].(refcnt := bufs[b].refcnt + 1);
        assert bufs[..] == old(bufs[..])[b := old(bufs[b]).(refcnt := old(bufs[b]).refcnt + 1)];
        return false, b;
      }
      b := FindVictim();
      if b == NBUF {
        return true, b;
      }
      RecycleKeepsAll(bufs[..], order, stamp, clock, disk, b, dev, blockno);
      bufs[b] := Recycled(bufs[b], dev, blockno);
      assert bufs[..] == old(bufs[..])[b := Recycled(old(bufs[b]), dev, blockno)];
      return false, b;
    }

    lemma ArrayFacts()
      requires Valid()
      ensures bufs.Length == NBUF + 1 && SameViews(bufs[..], disk, bufs[..], disk)
    {
    }

    /** acquiresleep: the caller, which holds a reference, takes a free buffer lock. */
    method Acquire(b: nat)
      requires Valid() && b < NBUF && !bufs[b].locked && bufs[b].refcnt > 0
      modifies bufs
      ensures Valid() && SameViews(old(bufs[..]), disk, bufs[..], disk)
      ensures bufs[..] == old(bufs[..])[b := old(bufs[b]).(locked := true)]
    {
      hide Sound, SameViews;
      LockKeepsAll(bufs[..], order, stamp, clock, disk, b, true);
      bufs[b] := bufs[b].(locked := true);
      assert bufs[..] == old(bufs[..])[b := old(bufs[b]).(locked := true)];
    }

    /** The rest of bread: the locked buffer ends up holding the block's view. */
    method Fill(b: nat) returns (panicked: bool)
      requires Valid() && b < NBUF && bufs[b].locked
      modifies bufs
      ensures Valid() && SameViews(old(bufs[..]), disk, bufs[..], disk)
      ensures panicked <==> !old(bufs[b]).valid && (old(bufs[b]).dev != 1 || old(bufs[b]).blockno !in disk)
      ensures panicked ==> bufs[..] == old(bufs[..])
      ensures !panicked ==>
                && bufs[b].valid && bufs[b].blockno in disk
                && bufs[b].data == View(bufs[..], disk, bufs[b].blockno)
      ensures !panicked ==> bufs[..] == old(bufs[..])[b := old(bufs[b]).(data := bufs[b].data, valid := true)]
    {
      hide SameViews;
      ArrayFacts();
      if bufs[b].valid {
        ViewOfCached(bufs[..], disk, b, bufs[b].blockno) by {
          assert BufOk(bufs[..][b], disk) && Caches(bufs[..], b, bufs[b].blockno);
        }
        return false;
      }
      if bufs[b].dev != 1 || bufs[b].blockno !in disk {
        return true;
      }
      FillKeepsAll(bufs[..], order, stamp, clock, disk, b);
      bufs[b] := bufs[b].(data := disk[bufs[b].blockno], valid := true);
      assert bufs[..] == old(bufs[..])[b := bufs[b]];
      return false;
    }

    /** A lock holder writes into its buffer; log_write or bwrite must follow before it lets go. */
    method Modify(b: nat, data: Block)
      requires Valid() && b < NBUF && bufs[b].locked && bufs[b].valid
      modifies bufs
      ensures Valid() && bufs[..] == old(bufs[..])[b := old(bufs[b]).(data := data)]
      ensures bufs[b].blockno in disk && View(bufs[..], disk, bufs[b].blockno) == data
      ensures forall c | c in disk && c != bufs[b].blockno :: View(bufs[..], disk, c) == old(View(bufs[..], disk, c))
    {
      assert BufOk(bufs[..][b], disk);
      HolderKeepsRest(bufs[..], order, stamp, clock, disk, b, bufs[b].(data := data), disk);
      bufs[b] := bufs[b].(data := data);
      assert bufs[..] == old(bufs[..])[b := old(bufs[b]).(data := data)];
    }

    /** log_write's `b->flags |= B_DIRTY`, which pins the buffer. */
    method Pin(b: nat)
      requires Valid() && b < NBUF && bufs[b].locked && bufs[b].valid
      modifies bufs
      ensures Valid() && bufs[..] == old(bufs[..])[b := old(bufs[b]).(dirty := true)]
      ensures SameViews(old(bufs[..]), disk, bufs[..], disk)
    {
      assert BufOk(bufs[..][b], disk);
      ghost var c := bufs[b].blockno;
      ViewOfCached(bufs[..], disk, b, c) by {
        assert Caches(bufs[..], b, c);
      }
      HolderKeepsRest(bufs[..], order, stamp, clock, disk, b, bufs[b].(dirty := true), disk);
      bufs[b] := bufs[b].(dirty := true);
      assert bufs[..] == old(bufs[..])[b := old(bufs[b]).(dirty := true)];
    }

    /**
     bwrite of a locked buffer, valid or not: the disk and the view of its block become the buffer's contents, which is
     clean, valid and unpinned; nothing changes for other blocks, nor for this one if the buffer was valid.
     */
    method Bwrite(b: nat) returns (panicked: bool)
      requires Valid() && b < NBUF
      modifies bufs, this`disk
      ensures panicked <==> !old(bufs[b]).locked || old(bufs[b]).dev != 1 || old(bufs[b]).blockno !in old(disk)
      ensures Valid() && disk.Keys == old(disk).Keys
      ensures panicked ==> bufs[..] == old(bufs[..]) && disk == old(disk)
      ensures !panicked ==> bufs[..] == old(bufs[..])[b := old(bufs[b]).(valid := true, dirty := false)]
      ensures !panicked ==>
                var c := bufs[b].blockno;
                && disk == old(disk)[c := bufs[b].data] && View(bufs[..], disk, c) == bufs[b].data
                && forall d | d in disk && d != c :: View(bufs[..], disk, d) == old(View(bufs[..], disk, d))
      ensures old(bufs[b]).valid ==> SameViews(old(bufs[..]), old(disk), bufs[..], disk)
    {
      assert BufOk(bufs[..][b], disk);
      if !bufs[b].locked || bufs[b].dev != 1 || bufs[b].blockno !in disk {
        return true;
      }
      ghost var c, q := bufs[b].blockno, bufs[b].(valid := true, dirty := false);
      if bufs[b].valid {
        ViewOfCached(bufs[..], disk, b, c) by {
          assert Caches(bufs[..], b, c);
        }
      }
      HolderKeepsRest(bufs[..], order, stamp, clock, disk, b, q, disk[c := q.data]);
      disk := disk[bufs[b].blockno := bufs[b].data];
      bufs[b] := bufs[b].(valid := true, dirty := false);
      assert bufs[..] == old(bufs[..])[b := q];
      return false;
    }

    /**
     brelse's releasesleep. The holder must have left a changed buffer pinned or written: exactly then the cache stays
     valid, and only a valid cache keeps all views when the buffer is recycled.
     */
    method Unlock(b: nat) returns (panicked: bool)
      requires Valid() && b < NBUF
      modifies bufs
      ensures panicked == !old(bufs[b]).locked
      ensures SameViews(old(bufs[..]), disk, bufs[..], disk)
      ensures bufs[..] == if panicked then old(bufs[..]) else old(bufs[..])[b := old(bufs[b]).(locked := false)]
      ensures Valid() <==> panicked || !Changed(bufs[b], disk)
    {
      hide SameViews;
      ArrayFacts();
      if !bufs[b].locked {
        return true;
      }
      assert BufOk(bufs[..][b], disk);
      if Changed(bufs[b], disk) {
        UnlockKeepsViews(bufs[..], disk, b);
      } else {
        LockKeepsAll(bufs[..], order, stamp, clock, disk, b, false);
      }
      bufs[b] := bufs[b].(locked := false);
      assert bufs[..] == old(bufs[..])[b := old(bufs[b]).(locked := false)];
      assert bufs[..][b] == bufs[b];
      return false;
    }

    /** brelse's critical section: the last reference moves the buffer to the front of the list. */
    method Drop(b: nat)
      requires Valid() && b < NBUF && bufs[b].refcnt > if bufs[b].locked then 1 else 0
      modifies bufs, this`order, this`stamp, this`clock
      ensures Valid() && SameViews(old(bufs[..]), disk, bufs[..], disk)
      ensures bufs[b].refcnt == old(bufs[b]).refcnt - 1
      ensures SameButLinks(old(bufs[..])[b := old(bufs[b]).(refcnt := old(bufs[b]).refcnt - 1)], bufs[..])
      ensures if bufs[b].refcnt > 0 then order == old(order)
              else exists k | 0 < k < |old(order)| && old(order)[k] == b :: order == PutFirst(Remove(old(order), k), b)
    {
      hide SameViews, Hook, Unhook, Sound;
      DropKeepsAll(bufs[..], order, stamp, clock, disk, b);
      bufs[b] := bufs[b].(refcnt := bufs[b].refcnt - 1);
      ghost var mid := bufs[..];
      assert mid == old(bufs[..])[b := old(bufs[b]).(refcnt := old(bufs[b]).refcnt - 1)];
      if bufs[b].refcnt == 0 {
        ghost var k := Position(mid, order, stamp, clock, disk, b);
        MoveKeepsSound(mid, order, stamp, clock, disk, k);
        UnhookFrom(b);
        HookFront(b);
        order := PutFirst(Remove(order, k), b);
        stamp, clock := stamp[b := clock], clock + 1;
        SameViewsTrans(old(bufs[..]), mid, bufs[..], disk);
      }
    }
  }
}
