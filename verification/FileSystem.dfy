/**
 The file layer of part1/fs.c and part1/file.c: block allocation, block maps, reading, writing and truncating.

 Blocks are seen through the buffer cache, so `blocks[b]` is the latest contents of block `b`. The bitmap blocks and the
 inode table lie below the data blocks and have fields of their own. `logged` collects what is passed to log_write.
 */
module FileSystem {
  import opened Blocks
  import opened Bitmap
  import opened FileBlocks
  import opened FileContents
  import opened FileTruncate

  const IPB := 8                           // inodes per block

  datatype Superblock = Superblock(size: nat, bmapstart: nat, inodestart: nat)

  datatype Outcome<T> = Returned(value: T) | Panicked

  function BitmapBlocks(sb: Superblock): (n: nat) {
    sb.size / BPB + 1
  }

  function DataStart(sb: Superblock): (n: nat) {
    sb.bmapstart + BitmapBlocks(sb)
  }

  function InodeBlock(sb: Superblock, inum: nat): (b: nat) {
    sb.inodestart + inum / IPB
  }

  predicate InBitmap(sb: Superblock, b: nat) {
    sb.size > 0 && sb.bmapstart <= b <= sb.bmapstart + (sb.size - 1) / BPB
  }

  /** The parts of the disk as seen through the cache. */
  datatype Disk = Disk(bitmap: seq<Block>, blocks: seq<Block>, table: map<nat, Inode>)

  /** Every block that differs between the two disks is in `logged`. */
  ghost predicate Covered(sb: Superblock, d: Disk, d': Disk, logged: set<nat>) {
    && |d.bitmap| == |d'.bitmap| && |d.blocks| == |d'.blocks| && d.table.Keys == d'.table.Keys
    && (forall i | 0 <= i < |d.bitmap| :: d'.bitmap[i] == d.bitmap[i] || sb.bmapstart + i in logged)
    && (forall b | 0 <= b < |d.blocks| :: d'.blocks[b] == d.blocks[b] || b in logged)
    && (forall i | i in d.table :: d'.table[i] == d.table[i] || InodeBlock(sb, i) in logged)
  }

  /** Besides bitmap blocks, only blocks of `extra` were added to the log. */
  ghost predicate OnlyLogged(sb: Superblock, before: set<nat>, after: set<nat>, extra: set<nat>) {
    before <= after && forall b | b in after :: b in before || b in extra || InBitmap(sb, b)
  }

  /** Everything that changed was logged, and nothing but `extra` and bitmap blocks. */
  ghost predicate LoggedFor(sb: Superblock, d: Disk, logged: set<nat>, d': Disk, logged': set<nat>, extra: set<nat>) {
    Covered(sb, d, d', logged') && OnlyLogged(sb, logged, logged', extra)
  }

  /** What bmap of block `bn` may log besides the bitmap. */
  ghost function MapExtra(fs: Fs, inum: nat, bn: nat, addr: nat): set<nat> {
    if bn < NDIRECT then {addr} else {addr, RootOf(fs, inum)}
  }

  lemma LoggedThen(
    sb: Superblock, d: Disk, l: set<nat>, d1: Disk, l1: set<nat>, x1: set<nat>, d2: Disk, l2: set<nat>, x2: set<nat>,
    x: set<nat>)
    requires LoggedFor(sb, d, l, d1, l1, x1) && LoggedFor(sb, d1, l1, d2, l2, x2) && x1 <= x && x2 <= x
    ensures LoggedFor(sb, d, l, d2, l2, x)
  {
  }

  lemma RoundLogs(
    sb: Superblock, d0: Disk, l0: set<nat>, d: Disk, l: set<nat>, d': Disk, l': set<nat>,
    fs0: Fs, fs: Fs, mid: Fs, fs': Fs, inum: nat, off: nat, src: seq<Byte>, tot: nat, addr: nat, part: seq<Byte>)
    requires inum in fs0.inodes && Writing(fs0, fs, inum, off, src, tot, BlocksFor(fs0.inodes[inum].size))
    requires Mapped(fs, mid, inum, (off + tot) / BSIZE, addr)
    requires Stored(mid, fs', inum, (off + tot) / BSIZE, (off + tot) % BSIZE, part)
    requires LoggedFor(sb, d0, l0, d, l, Touched(fs, inum, off / BSIZE, (off + tot) / BSIZE))
    requires LoggedFor(sb, d, l, d', l', MapExtra(mid, inum, (off + tot) / BSIZE, addr))
    ensures LoggedFor(sb, d0, l0, d', l', Touched(fs', inum, off / BSIZE, (off + tot) / BSIZE + 1))
  {
    hide LoggedFor, Wrote, Mapped, Stored, FreeCount;
    var bn, n := (off + tot) / BSIZE, Max(BlocksFor(fs0.inodes[inum].size), BlocksFor(off + tot));
    TouchedGrows(fs, mid, fs', inum, off / BSIZE, bn, addr, (off + tot) % BSIZE, part, n);
    LoggedThen(sb, d0, l0, d, l, Touched(fs, inum, off / BSIZE, bn), d', l', MapExtra(mid, inum, bn, addr),
               Touched(fs', inum, off / BSIZE, bn + 1));
  }

  lemma LoggedNothing(sb: Superblock, d: Disk, l: set<nat>, x: set<nat>)
    ensures LoggedFor(sb, d, l, d, l, x)
  {
  }

  lemma LoggedStore(sb: Superblock, d: Disk, l: set<nat>, b: nat, data: Block)
    requires b < |d.blocks|
    ensures forall x | b in x :: LoggedFor(sb, d, l, d.(blocks := d.blocks[b := data]), l + {b}, x)
  {
  }

  const T_DEV := 3

  /** The bounds on which writei returns -1. */
  predicate Refused(size: nat, off: nat, n: nat) {
    off > size || off + n > LIMIT
  }

  /** What one writei may log besides the bitmap. */
  ghost function WriteSet(sb: Superblock, fs: Fs, inum: nat, off: nat, n: nat): set<nat> {
    {InodeBlock(sb, inum)} + CopySet(fs, inum, off, n)
  }

  ghost function CopySet(fs: Fs, inum: nat, off: nat, n: nat): set<nat> {
    Touched(fs, inum, off / BSIZE, CopyEnd(off, n))
  }

  /** One past the last file block that `n` bytes at `off` reach. */
  function CopyEnd(off: nat, n: nat): (e: nat) {
    if n == 0 then off / BSIZE else BlocksFor(off + n)
  }

  lemma EndOfWrite(
    sb: Superblock, d0: Disk, l0: set<nat>, d: Disk, l: set<nat>, d': Disk, l': set<nat>, fs: Fs, fs': Fs,
    inum: nat, off: nat, n: nat)
    requires inum in fs.inodes && (fs' == fs || fs' == Resized(fs, inum, off + n))
    requires LoggedFor(sb, d0, l0, d, l, CopySet(fs, inum, off, n))
    requires LoggedFor(sb, d, l, d', l', {}) || LoggedFor(sb, d, l, d', l', {InodeBlock(sb, inum)})
    ensures LoggedFor(sb, d0, l0, d', l', WriteSet(sb, fs', inum, off, n))
  {
    forall s: nat
      ensures RefOf(fs', inum, s) == RefOf(fs, inum, s)
    {
    }
    RefsSameTouched(fs, fs', inum, off / BSIZE, CopyEnd(off, n));
  }

  // ---- filewrite ----

  const CHUNK: nat := 1536                 // ((MAXOPBLOCKS-1-1-2) / 2) * 512

  /** Bytes that filewrite gets into the file: everything, or the whole chunks below the size limit. */
  function Fitting(size: nat, off: nat, n: nat): (k: nat)
    ensures k <= n && (k > 0 ==> off + k <= LIMIT)
  {
    if off > size then 0
    else if off + n <= LIMIT then n
    else if off >= LIMIT then 0
    else Min(n, (LIMIT - off) / CHUNK * CHUNK)
  }

  /** One file system operation: the disk before and after, and what it logged. */
  datatype Op = Op(before: Disk, after: Disk, logged: set<nat>)

  /** Each operation logs all it changes, and at most 7 blocks if one bitmap block covers the disk. */
  ghost predicate OpOk(sb: Superblock, op: Op) {
    Covered(sb, op.before, op.after, op.logged) && (sb.size <= BPB ==> |op.logged| <= 7)
  }

  /** The operations lead from one disk to the other. */
  ghost predicate Chained(sb: Superblock, d: Disk, d': Disk, ops: seq<Op>)
    decreases |ops|
  {
    if ops == [] then d == d'
    else
      var last := ops[|ops| - 1];
      OpOk(sb, last) && last.after == d' && Chained(sb, d, last.before, ops[..|ops| - 1])
  }

  lemma ChainGrows(sb: Superblock, d: Disk, ops: seq<Op>, op: Op)
    requires Chained(sb, d, op.before, ops) && OpOk(sb, op)
    ensures Chained(sb, d, op.after, ops + [op])
  {
    assert (ops + [op])[..|ops|] == ops;
  }

  lemma NothingLogged(sb: Superblock, d0: Disk, d: Disk, ops: seq<Op>)
    requires Chained(sb, d0, d, ops)
    ensures Chained(sb, d0, d, ops + [Op(d, d, {})])
  {
    ChainGrows(sb, d0, ops, Op(d, d, {}));
  }

  /** A chunk logs the bitmap block, the inode's block, the indirect block and at most 4 data blocks. */
  lemma ChunkLogsSeven(sb: Superblock, op: Op, fs: Fs, inum: nat, off: nat, n: nat)
    requires LoggedFor(sb, op.before, {}, op.after, op.logged, WriteSet(sb, fs, inum, off, n)) && 0 < n <= CHUNK
    ensures OpOk(sb, op)
  {
    var lo, hi := off / BSIZE, CopyEnd(off, n);
    var data := RefSet(fs, inum, lo, hi);
    RefSetSize(fs, inum, lo, hi);
    var meta := {sb.bmapstart, InodeBlock(sb, inum), RootOf(fs, inum)};
    if sb.size <= BPB {
      forall b | b in op.logged
        ensures b in meta + data
      {
      }
      AtMost(op.logged, meta, data);
    }
  }

  lemma AtMost(s: set<nat>, a: set<nat>, b: set<nat>)
    requires s <= a + b
    ensures |s| <= |a| + |b|
  {
    SubsetSize(s, a + b);
  }

  lemma {:induction false} SubsetSize(s: set<nat>, t: set<nat>)
    requires s <= t
    ensures |s| <= |t|
  {
    if s != {} {
      var x :| x in s;
      SubsetSize(s - {x}, t - {x});
    }
  }

  /** Blocks that filewrite of `k` bytes takes. */
  ghost function Need(size: nat, off: nat, k: nat): int {
    if k == 0 then 0 else Demand(size, off, k)
  }

  /** `src` written at `off`; nothing at all if `src` is empty. */
  ghost predicate FileWrote(fs: Fs, fs': Fs, inum: nat, off: nat, src: seq<Byte>) {
    if src == [] then fs' == fs else FileWritten(fs, fs', inum, off, src)
  }

  lemma ChunksStart(sb: Superblock, fs: Fs, d: Disk, inum: nat, size: nat, off: nat)
    ensures FileWrote(fs, fs, inum, off, []) && Chained(sb, d, d, []) && Need(size, off, 0) == 0
  {
  }

  lemma ChunkStarts(fs0: Fs, fs: Fs, inum: nat, off: nat, src: seq<Byte>)
    requires inum in fs0.inodes && FileWrote(fs0, fs, inum, off, src)
    ensures inum in fs.inodes && fs.inodes[inum].kind == fs0.inodes[inum].kind
    ensures fs.inodes[inum].size == if src == [] then fs0.inodes[inum].size else Max(fs0.inodes[inum].size, off + |src|)
    ensures src != [] ==> off <= fs0.inodes[inum].size
  {
    if src != [] {
      FileWrittenSize(fs0, fs, inum, off, src);
    }
  }

  /** The chunk at `i` is refused exactly if all that fits has been written. */
  lemma ChunkBounds(size0: nat, off: nat, i: nat, n: nat, n1: nat)
    requires i < n && i <= Fitting(size0, off, n) && i % CHUNK == 0 && n1 == if n - i > CHUNK then CHUNK else n - i
    requires i > 0 ==> off <= size0
    ensures var size := if i == 0 then size0 else Max(size0, off + i);
            if Refused(size, off + i, n1) then i == Fitting(size0, off, n)
            else i + n1 <= Fitting(size0, off, n) && off <= size0
  {
    if off <= size0 && off + n > LIMIT && off < LIMIT {
      var q, room := i / CHUNK, LIMIT - off;
      assert i == q * CHUNK;
      if i + n1 <= room && n1 == CHUNK {
        assert q + 1 <= room / CHUNK;
      }
    }
  }

  /** The demands of the chunks add up. */
  lemma ChunkFits(size0: nat, off: nat, i: nat, n: nat, n1: nat)
    requires i < n && i <= Fitting(size0, off, n) && i % CHUNK == 0 && n1 == if n - i > CHUNK then CHUNK else n - i
    requires i > 0 ==> off <= size0
    ensures var size := if i == 0 then size0 else Max(size0, off + i);
            if Refused(size, off + i, n1) then i == Fitting(size0, off, n)
            else
              && i + n1 <= Fitting(size0, off, n)
              && Need(size0, off, i) + Demand(size, off + i, n1) == Need(size0, off, i + n1)
                 <= Need(size0, off, Fitting(size0, off, n))
  {
    hide Fitting, Demand;
    var k := Fitting(size0, off, n);
    ChunkBounds(size0, off, i, n, n1);
    if off <= size0 && i + n1 <= k {
      DemandStarts(size0, off);
      DemandAdds(size0, off, i, n1);
      DemandAdds(size0, off, i + n1, k - i - n1);
    }
  }

  lemma ChunkWritten(fs0: Fs, fs: Fs, fs': Fs, inum: nat, off: nat, addr: seq<Byte>, i: nat, n1: nat)
    requires i + n1 <= |addr| && n1 > 0
    requires FileWrote(fs0, fs, inum, off, addr[..i]) && FileWritten(fs, fs', inum, off + i, addr[i..i + n1])
    ensures FileWrote(fs0, fs', inum, off, addr[..i + n1])
  {
    if i == 0 {
      assert addr[0..n1] == addr[..n1];
    } else {
      FileWrittenTwice(fs0, fs, fs', inum, off, addr[..i], addr[i..i + n1]);
      assert addr[..i] + addr[i..i + n1] == addr[..i + n1];
    }
  }

  class Volume {
    const sb: Superblock
    var bitmap: seq<Block>
    var blocks: seq<Block>
    var inodes: map<nat, Inode>            // in memory
    var table: map<nat, Inode>             // on disk
    var logged: set<nat>
    ghost var owner: map<nat, Slot>

    ghost predicate Shape()
      reads this
    {
      && 0 < sb.bmapstart && DataStart(sb) <= sb.size < 0x8000_0000
      && |bitmap| == BitmapBlocks(sb) && |blocks| == sb.size
    }

    ghost function View(): Fs
      reads this
    {
      Fs(Bits(bitmap, sb.size), blocks, inodes)
    }

    ghost function OnDisk(): Disk
      reads this
    {
      Disk(bitmap, blocks, table)
    }

    /** Between calls. */
    ghost predicate Valid()
      reads this
    {
      Shape() && Consistent(View(), table, DataStart(sb), owner)
    }

    ghost function File(inum: nat): seq<Byte>
      reads this
      requires Valid() && inum in inodes
    {
      Content(View(), inum)
    }

    /** A freshly made volume: metadata in use, no files. */
    constructor (sb: Superblock, bitmap: seq<Block>, blocks: seq<Block>, inums: set<nat>)
      requires 0 < sb.bmapstart && DataStart(sb) <= sb.size < 0x8000_0000
      requires |bitmap| == BitmapBlocks(sb) && |blocks| == sb.size
      requires forall b | 0 <= b < sb.size :: Bits(bitmap, sb.size)[b] <==> b < DataStart(sb)
      ensures Valid() && this.sb == sb && inodes.Keys == inums
    {
      this.sb, this.bitmap, this.blocks, logged := sb, bitmap, blocks, {};
      inodes := map i | i in inums :: FREE;
      table := map i | i in inums :: FREE;
      owner := map[];
      new;
      EmptyVolume(View(), DataStart(sb));
    }

    /** ialloc: the lowest free inode from 1 on becomes an empty file; panics exactly if there is none. */
    method Ialloc(kind: int, ninodes: nat) returns (r: Outcome<nat>)
      requires Valid() && kind != 0 && forall i | 1 <= i < ninodes :: i in inodes
      modifies this`inodes, this`table, this`logged
      ensures Valid() && inodes.Keys == old(inodes.Keys) && View().used == old(View()).used
      ensures r.Panicked? <==> forall i | 1 <= i < ninodes :: old(inodes)[i].kind != 0
      ensures r.Returned? ==>
                && 1 <= r.value < ninodes && old(inodes)[r.value].kind == 0
                && (forall i | 1 <= i < r.value :: old(inodes)[i].kind != 0)
                && inodes == old(inodes)[r.value := Inode(kind, 0, 0, 0, 0, Zeroed(NDIRECT + 1))]
                && File(r.value) == [] && OthersSame(old(View()), View(), r.value)
                && LoggedFor(sb, old(OnDisk()), old(logged), OnDisk(), logged, {InodeBlock(sb, r.value)})
    {
      hide FreeCount, Owned, Content, OthersSame, MapOk, LoggedFor;
      var inum := 1;
      while inum < ninodes
        invariant 1 <= inum && inodes == old(inodes) && table == old(table) && logged == old(logged)
        invariant forall i | 1 <= i < inum && i < ninodes :: inodes[i].kind != 0
      {
        if table[inum].kind == 0 {
          inodes := inodes[inum := FREE.(kind := kind)];
          ReplaceEmpty(old(View()), View(), DataStart(sb), owner, inum);
          Iupdate(inum);
          return Returned(inum);
        }
        inum := inum + 1;
      }
      return Panicked;
    }

    /** The end of iput on an inode without links: the file's blocks and then the inode become free. */
    method Release(inum: nat)
      requires Valid() && inum in inodes
      modifies this`bitmap, this`inodes, this`table, this`logged, this`owner
      ensures Valid() && inodes.Keys == old(inodes.Keys) && File(inum) == []
      ensures inodes[inum] == old(inodes[inum]).(kind := 0, size := 0, addrs := Zeroed(NDIRECT + 1))
      ensures OthersSame(old(View()), View(), inum)
      ensures FreeCount(View().used) == FreeCount(old(View().used)) + Footprint(BlocksFor(old(inodes[inum].size)))
      ensures LoggedFor(sb, old(OnDisk()), old(logged), OnDisk(), logged, {InodeBlock(sb, inum)})
    {
      hide FreeCount, Owned, Content, MapOk, LoggedFor, Footprint;
      Itrunc(inum);
      ghost var mid, d, l := View(), OnDisk(), logged;
      inodes := inodes[inum := inodes[inum].(kind := 0)];
      ReplaceEmpty(mid, View(), DataStart(sb), owner, inum);
      Iupdate(inum);
      ghost var x := {InodeBlock(sb, inum)};
      LoggedThen(sb, old(OnDisk()), old(logged), d, l, x, OnDisk(), logged, x, x);
    }

    /** The search of balloc: the lowest clear bit. */
    method FindFree() returns (found: bool, b: nat)
      requires Shape()
      ensures found ==> b < sb.size && !View().used[b] && forall c | 0 <= c < b :: View().used[c]
      ensures !found ==> forall c | 0 <= c < sb.size :: View().used[c]
    {
      hide BitOf, Marked;
      b := 0;
      while b < sb.size
        invariant b % BPB == 0
        invariant forall c | 0 <= c < sb.size && c < b :: View().used[c]
      {
        var bp := bitmap[b / BPB];
        var bi: nat := 0;
        while bi < BPB && b + bi < sb.size
          invariant bi <= BPB
          invariant forall c | 0 <= c < sb.size && c < b + bi :: View().used[c]
        {
          assert (b + bi) / BPB == b / BPB && (b + bi) % BPB == bi;
          if !Marked(bp, bi) {
            return true, b + bi;
          }
          bi := bi + 1;
        }
        b := b + BPB;
      }
      return false, 0;
    }

    /** The lowest free block, marked and zeroed; panics exactly if none is free. */
    method Balloc() returns (r: Outcome<Word>)
      requires Shape()
      modifies this`bitmap, this`blocks, this`logged
      ensures Shape()
      ensures r.Panicked? <==> FreeCount(old(View().used)) == 0
      ensures r.Panicked? ==> View() == old(View()) && logged == old(logged)
      ensures r.Returned? ==>
                && r.value < sb.size && !old(View()).used[r.value]
                && (forall c | 0 <= c < r.value :: old(View()).used[c])
                && View() == Allocated(old(View()), r.value, ZERO_BLOCK)
                && FreeCount(View().used) == FreeCount(old(View().used)) - 1
                && LoggedFor(sb, old(OnDisk()), old(logged), OnDisk(), logged, {r.value})
    {
      hide FreeCount, BitOf, WithBit, ByteWithBit, Mark, Marked;
      ghost var used := View().used;
      var found, b := FindFree();
      FullMeansNoneFree(used);
      assert View().used == used;
      if !found {
        return Panicked;
      }
      BitsAfterMark(bitmap, sb.size, b, true);
      FreeCountAfter(View().used, b, true);
      bitmap := bitmap[b / BPB := Mark(bitmap[b / BPB], b % BPB, true)];
      logged := logged + {sb.bmapstart + b / BPB};
      blocks := blocks[b := ZERO_BLOCK];
      logged := logged + {b};
      return Returned(b);
    }

    /** The bit of `b` is cleared; panics exactly if it was clear. */
    method Bfree(b: Word) returns (r: Outcome<()>)
      requires Shape() && b < sb.size
      modifies this`bitmap, this`logged
      ensures Shape()
      ensures r.Panicked? <==> !old(View().used[b])
      ensures r.Returned? ==>
                && View() == old(View()).(used := old(View()).used[b := false])
                && FreeCount(View().used) == FreeCount(old(View().used)) + 1
                && LoggedFor(sb, old(OnDisk()), old(logged), OnDisk(), logged, {})
    {
      hide FreeCount, BitOf, WithBit, ByteWithBit, Mark, Marked;
      var bp := bitmap[b / BPB];
      var bi := b % BPB;
      if !Marked(bp, bi) {
        return Panicked;
      }
      BitsAfterMark(bitmap, sb.size, b, false);
      FreeCountAfter(View().used, b, false);
      bitmap := bitmap[b / BPB := Mark(bp, bi, false)];
      logged := logged + {sb.bmapstart + b / BPB};
      return Returned(());
    }

    /** bmap once the indirect block is there: entry `bn`, allocated if it was 0. */
    method MapEntry(inum: nat, bn: nat) returns (r: Outcome<Word>)
      requires Shape() && Owned(View(), DataStart(sb), owner, {}) && inum in inodes
      requires NDIRECT <= bn < MAXFILE && RootOf(View(), inum) != 0
      modifies this`bitmap, this`blocks, this`logged, this`owner
      ensures Shape()
      ensures r.Panicked? <==> FreeCount(old(View().used)) < Cost(old(View()), inum, bn)
      ensures r.Returned? ==>
                && Owned(View(), DataStart(sb), owner, {}) && Mapped(old(View()), View(), inum, bn, r.value)
                && LoggedFor(sb, old(OnDisk()), old(logged), OnDisk(), logged, MapExtra(View(), inum, bn, r.value))
      ensures bn < MAXFILE && Cost(old(View()), inum, bn) == 0 ==>
                bitmap == old(bitmap) && owner == old(owner) && logged == old(logged)
    {
      hide FreeCount, SetWord, WordAt, Owned, Mapped;
      RootInRange(View(), DataStart(sb), owner, inum);
      var root, j := inodes[inum].addrs[NDIRECT], bn - NDIRECT;
      var addr := WordAt(blocks[root], j);
      assert RefIn(View(), Slot(inum, bn)) == addr;
      if addr == 0 {
        var a := Balloc();
        if a.Panicked? {
          return Panicked;
        }
        addr := a.value;
        EntryMaps(old(View()), DataStart(sb), owner, inum, bn, addr);
        blocks := blocks[root := SetWord(blocks[root], j, addr)];
        logged := logged + {root};
        owner := owner[addr := Slot(inum, bn)];
      } else {
        PresentMaps(View(), inum, bn);
      }
      return Returned(addr);
    }

    /** The disk block of file block `bn`, allocated if it was not there. */
    method Bmap(inum: nat, bn: nat) returns (r: Outcome<Word>)
      requires Shape() && Owned(View(), DataStart(sb), owner, {}) && inum in inodes
      modifies this`bitmap, this`blocks, this`inodes, this`logged, this`owner
      ensures Shape()
      ensures r.Panicked? <==> bn >= MAXFILE || FreeCount(old(View().used)) < Cost(old(View()), inum, bn)
      ensures r.Returned? ==>
                && Owned(View(), DataStart(sb), owner, {}) && Mapped(old(View()), View(), inum, bn, r.value)
                && LoggedFor(sb, old(OnDisk()), old(logged), OnDisk(), logged, MapExtra(View(), inum, bn, r.value))
      ensures bn < MAXFILE && Cost(old(View()), inum, bn) == 0 ==>
                bitmap == old(bitmap) && owner == old(owner) && logged == old(logged)
    {
      hide FreeCount, Owned, Mapped, SameExcept, LoggedFor;
      RootInRange(View(), DataStart(sb), owner, inum);
      if bn < NDIRECT {
        var addr := inodes[inum].addrs[bn];
        if addr == 0 {
          var a := Balloc();
          if a.Panicked? {
            return Panicked;
          }
          addr := a.value;
          DirectMaps(old(View()), DataStart(sb), owner, inum, bn, addr);
          inodes := inodes[inum := inodes[inum].(addrs := inodes[inum].addrs[bn := addr])];
          owner := owner[addr := Slot(inum, bn)];
        } else {
          PresentMaps(View(), inum, bn);
          LoggedNothing(sb, OnDisk(), logged, {addr});
        }
        return Returned(addr);
      }
      if bn >= MAXFILE {
        return Panicked;
      }
      if inodes[inum].addrs[NDIRECT] == 0 {
        var a := Balloc();
        if a.Panicked? {
          return Panicked;
        }
        FreeInData(old(View()), DataStart(sb), owner, a.value);
        RootClaim(old(View()), DataStart(sb), owner, inum, a.value);
        inodes := inodes[inum := inodes[inum].(addrs := inodes[inum].addrs[NDIRECT := a.value])];
        owner := owner[a.value := Slot(inum, ROOT)];
        ghost var fs1, d1, l1 := View(), OnDisk(), logged;
        r := MapEntry(inum, bn);
        if r.Returned? {
          LoggedThen(sb, old(OnDisk()), old(logged), d1, l1, {a.value},
                     OnDisk(), logged, MapExtra(View(), inum, bn, r.value), MapExtra(View(), inum, bn, r.value));
          RootThenEntry(old(View()), a.value, fs1, View(), inum, bn, r.value);
        }
      } else {
        r := MapEntry(inum, bn);
      }
    }

    /** The inode in memory is copied to disk. */
    method Iupdate(inum: nat)
      requires Shape() && inum in inodes && inum in table
      modifies this`table, this`logged
      ensures table == old(table)[inum := inodes[inum]] && InodeBlock(sb, inum) in logged
      ensures LoggedFor(sb, old(OnDisk()), old(logged), OnDisk(), logged, {InodeBlock(sb, inum)})
    {
      table := table[inum := inodes[inum]];
      logged := logged + {InodeBlock(sb, inum)};
    }

    /** One round of writei's loop: map the block, copy `part` into it, log it. */
    method WriteRound(inum: nat, bn: nat, at: nat, part: seq<Byte>) returns (r: Outcome<Word>, ghost mid: Fs)
      requires Shape() && Owned(View(), DataStart(sb), owner, {}) && inum in inodes && at + |part| <= BSIZE
      modifies this`bitmap, this`blocks, this`inodes, this`logged, this`owner
      ensures Shape()
      ensures r.Panicked? <==> bn >= MAXFILE || FreeCount(old(View().used)) < Cost(old(View()), inum, bn)
      ensures r.Returned? ==>
                && Owned(View(), DataStart(sb), owner, {})
                && Mapped(old(View()), mid, inum, bn, r.value) && Stored(mid, View(), inum, bn, at, part)
                && LoggedFor(sb, old(OnDisk()), old(logged), OnDisk(), logged, MapExtra(mid, inum, bn, r.value))
    {
      hide FreeCount, Owned, SameExcept, LoggedFor;
      mid := View();
      r := Bmap(inum, bn);
      if r.Returned? {
        mid := View();
        ghost var d1, l1 := OnDisk(), logged;
        RefInRange(mid, DataStart(sb), owner, Slot(inum, bn));
        var data := blocks[r.value];
        WriteKeepsOwned(mid, DataStart(sb), owner, Slot(inum, bn), Overwrite(data, at, part));
        blocks := blocks[r.value := Overwrite(data, at, part)];
        logged := logged + {r.value};
        LoggedStore(sb, d1, l1, r.value, blocks[r.value]);
        LoggedThen(sb, old(OnDisk()), old(logged), d1, l1, MapExtra(mid, inum, bn, r.value),
                   OnDisk(), logged, MapExtra(mid, inum, bn, r.value), MapExtra(mid, inum, bn, r.value));
      }
    }

    /** The copy loop of writei. */
    method CopyIn(inum: nat, src: seq<Byte>, off: Word) returns (r: Outcome<()>)
      requires Valid() && inum in inodes && inodes[inum].kind != 0 && !Refused(inodes[inum].size, off, |src|)
      modifies this`bitmap, this`blocks, this`inodes, this`logged, this`owner
      ensures r.Panicked? ==> FreeCount(old(View().used)) < Demand(old(inodes[inum].size), off, |src|)
      ensures r.Returned? ==>
                && Shape() && Owned(View(), DataStart(sb), owner, {})
                && Writing(old(View()), View(), inum, off, src, |src|, BlocksFor(old(inodes[inum].size)))
                && LoggedFor(sb, old(OnDisk()), old(logged), OnDisk(), logged, CopySet(View(), inum, off, |src|))
    {
      hide FreeCount, Consistent, Owned, Writing, LoggedFor, Mapped, Stored, Touched;
      ConsistentParts(View(), table, DataStart(sb), owner, inum);
      ghost var fs0, d0, l0, n0 := View(), OnDisk(), logged, BlocksFor(inodes[inum].size);
      ghost var lo, hi := off / BSIZE, off / BSIZE;
      WritingStarts(fs0, inum, off, src);
      LoggedNothing(sb, d0, l0, Touched(fs0, inum, lo, hi));
      var tot, n := 0, |src|;
      while tot < n
        invariant tot <= n
        invariant Shape() && Owned(View(), DataStart(sb), owner, {}) && inum in inodes
        invariant Writing(fs0, View(), inum, off, src, tot, n0)
        invariant lo <= hi && if tot < n then hi == (off + tot) / BSIZE else hi == CopyEnd(off, n)
        invariant LoggedFor(sb, d0, l0, OnDisk(), logged, Touched(View(), inum, lo, hi))
      {
        var bn, at, m := (off + tot) / BSIZE, (off + tot) % BSIZE, RoundLength(off + tot, n - tot);
        ghost var fs, d, l := View(), OnDisk(), logged;
        var a, mid := WriteRound(inum, bn, at, src[tot..tot + m]);
        RoundStarves(fs0, fs, inum, off, src, tot, n0);
        if a.Panicked? {
          return Panicked;
        }
        WritingContinues(fs0, fs, mid, View(), inum, off, src, tot, n0, a.value, m);
        RoundLogs(sb, d0, l0, d, l, OnDisk(), logged, fs0, fs, mid, View(), inum, off, src, tot, a.value,
                  src[tot..tot + m]);
        RoundAligned(off, tot, n - tot, m);
        hi := bn + 1;
        tot := tot + m;
      }
      return Returned(());
    }

    /** writei: -1 exactly on the stated bounds, a panic exactly if the blocks do not suffice, else the whole write. */
    method Writei(inum: nat, src: seq<Byte>, off: Word) returns (r: Outcome<int>)
      requires Valid() && inum in inodes && inodes[inum].kind != 0 && inodes[inum].kind != T_DEV && |src| < WORD_LIMIT
      modifies this`bitmap, this`blocks, this`inodes, this`table, this`logged, this`owner
      ensures r == Returned(-1) <==> Refused(old(inodes[inum].size), off, |src|)
      ensures r == Returned(-1) ==>
                && Valid() && View() == old(View()) && OnDisk() == old(OnDisk())
                && logged == old(logged)
      ensures r.Panicked? <==> !Refused(old(inodes[inum].size), off, |src|)
                               && FreeCount(old(View().used)) < Demand(old(inodes[inum].size), off, |src|)
      ensures r.Returned? && r.value != -1 ==>
                && r.value == |src| && Valid() && FileWritten(old(View()), View(), inum, off, src)
                && FreeCount(View().used) == FreeCount(old(View().used)) - Demand(old(inodes[inum].size), off, |src|)
                && LoggedFor(sb, old(OnDisk()), old(logged), OnDisk(), logged, WriteSet(sb, View(), inum, off, |src|))
    {
      hide FreeCount, Consistent, Owned, Writing, FileWritten, LoggedFor, Touched, Demand;
      var n, size := |src|, inodes[inum].size;
      ConsistentParts(View(), table, DataStart(sb), owner, inum);
      if off > size || (off + n) % WORD_LIMIT < off {
        return Returned(-1);
      }
      if (off + n) % WORD_LIMIT > LIMIT {
        return Returned(-1);
      }
      var a := CopyIn(inum, src, off);
      if a.Panicked? {
        return Panicked;
      }
      WritingEnds(old(View()), View(), old(table), DataStart(sb), old(owner), owner, inum, off, src);
      ghost var fs, d, l := View(), OnDisk(), logged;
      LoggedNothing(sb, d, l, {});
      if n > 0 && off + n > inodes[inum].size {
        inodes := inodes[inum := inodes[inum].(size := off + n)];
        Iupdate(inum);
      }
      EndOfWrite(sb, old(OnDisk()), old(logged), d, l, OnDisk(), logged, fs, View(), inum, off, n);
      return Returned(n);
    }

    /** The copy loop of readi. */
    method CopyOut(inum: nat, off: nat, n: nat) returns (dst: seq<Byte>)
      requires Shape() && Owned(View(), DataStart(sb), owner, {}) && inum in inodes && SizeOk(View(), inum)
      requires off + n <= inodes[inum].size
      modifies this`bitmap, this`blocks, this`inodes, this`logged, this`owner
      ensures View() == old(View()) && logged == old(logged) && owner == old(owner) && bitmap == old(bitmap)
      ensures Readable(View(), inum) && dst == Content(View(), inum)[off..off + n]
    {
      hide FreeCount, Owned, Mapped, Content, DataOf, RefIn, SizeOk, RefOf, Cost;
      SizeOkReadable(View(), inum);
      ghost var fs, own, bits, logs := View(), owner, bitmap, logged;
      ghost var file := Content(fs, inum);
      assert |file| == inodes[inum].size;
      dst := [];
      var tot := 0;
      while tot < n
        invariant tot <= n && View() == fs && bitmap == bits && owner == own && logged == logs
        invariant dst == file[off..off + tot]
      {
        var bn, at, m := (off + tot) / BSIZE, (off + tot) % BSIZE, RoundLength(off + tot, n - tot);
        BlockOfContent(fs, DataStart(sb), own, inum, off + tot, m);
        var a := Bmap(inum, bn);
        MappedPresent(fs, View(), inum, bn, a.value);
        var data := blocks[a.value];
        dst := dst + data[at..at + m];
        assert file[off..off + tot] + file[off + tot..off + tot + m] == file[off..off + tot + m];
        tot := tot + m;
      }
    }

    /** readi: -1 exactly on the stated bounds, else the bytes of the file; nothing is allocated or logged. */
    method Readi(inum: nat, off: Word, n: Word) returns (r: int, dst: seq<Byte>)
      requires Valid() && inum in inodes && inodes[inum].kind != T_DEV
      modifies this`bitmap, this`blocks, this`inodes, this`logged, this`owner
      ensures Valid() && View() == old(View()) && logged == old(logged) && owner == old(owner) && bitmap == old(bitmap)
      ensures r == -1 <==> off > inodes[inum].size || off + n >= WORD_LIMIT
      ensures r != -1 ==> r == |dst| && dst == File(inum)[off..Min(off + n, inodes[inum].size)]
    {
      hide FreeCount, Consistent, Owned, Content, MapOk;
      var size := inodes[inum].size;
      ConsistentParts(View(), table, DataStart(sb), owner, inum);
      if off > size || (off + n) % WORD_LIMIT < off {
        return -1, [];
      }
      var n' := if (off + n) % WORD_LIMIT > size then size - off else n;
      dst := CopyOut(inum, off, n');
      return n', dst;
    }

    /** One direct pointer, freed and cleared if it was set. */
    method FreeOne(inum: nat, i: nat)
      requires Shape() && Owned(View(), DataStart(sb), owner, {}) && inum in inodes && i < NDIRECT
      requires |inodes[inum].addrs| == NDIRECT + 1
      modifies this`bitmap, this`inodes, this`logged, this`owner
      ensures Shape() && Owned(View(), DataStart(sb), owner, {})
      ensures inodes == old(inodes)[inum := old(inodes[inum]).(addrs := old(inodes[inum]).addrs[i := 0])]
      ensures FreeCount(View().used) == FreeCount(old(View().used)) + if old(inodes[inum]).addrs[i] != 0 then 1 else 0
      ensures LoggedFor(sb, old(OnDisk()), old(logged), OnDisk(), logged, {})
    {
      hide FreeCount, Owned, LoggedFor;
      LoggedNothing(sb, OnDisk(), logged, {});
      var b := inodes[inum].addrs[i];
      assert b == 0 ==> inodes[inum].addrs[i := 0] == inodes[inum].addrs;
      if b != 0 {
        FreeDirect(View(), DataStart(sb), owner, inum, i);
        var r := Bfree(b);
        inodes := inodes[inum := inodes[inum].(addrs := inodes[inum].addrs[i := 0])];
        owner := owner - {b};
      }
    }

    /** The direct pointers are freed and cleared; bfree cannot panic. */
    method FreeDirects(inum: nat, ghost n: nat)
      requires Shape() && Owned(View(), DataStart(sb), owner, {}) && MapOk(View(), inum, n)
      modifies this`bitmap, this`inodes, this`logged, this`owner
      ensures Shape() && Owned(View(), DataStart(sb), owner, {}) && Shrunk(old(View()), View(), inum)
      ensures inodes[inum] == old(inodes[inum]).(addrs := Cleared(old(inodes[inum].addrs), NDIRECT))
      ensures FreeCount(View().used) == FreeCount(old(View().used)) + Min(NDIRECT, n)
      ensures LoggedFor(sb, old(OnDisk()), old(logged), OnDisk(), logged, {})
    {
      hide FreeCount, Owned, LoggedFor, MapOk, EntriesUpTo, Cleared;
      MapEntriesUpTo(View(), inum, n);
      LoggedNothing(sb, OnDisk(), logged, {});
      ghost var fs, d0, l0, ino := View(), OnDisk(), logged, inodes[inum];
      ClearedStep(ino.addrs, 0);
      var i := 0;
      while i < NDIRECT
        invariant i <= NDIRECT && Shape() && Owned(View(), DataStart(sb), owner, {})
        invariant inodes == fs.inodes[inum := ino.(addrs := Cleared(ino.addrs, i))]
        invariant FreeCount(View().used) == FreeCount(fs.used) + Min(i, n)
        invariant LoggedFor(sb, d0, l0, OnDisk(), logged, {})
      {
        ghost var d, l := OnDisk(), logged;
        ClearedStep(ino.addrs, i);
        FreeOne(inum, i);
        LoggedThen(sb, d0, l0, d, l, {}, OnDisk(), logged, {}, {});
        i := i + 1;
      }
    }

    /** The entry loop of itrunc; bfree cannot panic. */
    method FreeEntries(inum: nat, bp: Block, ghost n: nat)
      requires Shape() && Owned(View(), DataStart(sb), owner, {}) && EntriesUpTo(View(), inum, n)
      requires inum in inodes && 0 < RootOf(View(), inum) < |blocks| && bp == blocks[RootOf(View(), inum)]
      modifies this`bitmap, this`logged
      ensures Shape() && inum in View().inodes && |inodes[inum].addrs| == NDIRECT + 1
      ensures Owned(WithAddr(View(), inum, NDIRECT, 0), DataStart(sb), Keep(owner, inum, NDIRECT),
                    Tail(owner, inum, ROOT))
      ensures FreeCount(View().used) == FreeCount(old(View().used)) + n - NDIRECT
      ensures LoggedFor(sb, old(OnDisk()), old(logged), OnDisk(), logged, {})
    {
      hide FreeCount, Owned, LoggedFor, Keep, Tail;
      ghost var fs, d0, l0 := View(), OnDisk(), logged;
      RootInRange(fs, DataStart(sb), owner, inum);
      LoggedNothing(sb, OnDisk(), logged, {});
      RootDrop(fs, DataStart(sb), owner, inum);
      var j := 0;
      while j < NINDIRECT
        invariant j <= NINDIRECT && Shape()
        invariant Owned(WithAddr(View(), inum, NDIRECT, 0), DataStart(sb), Keep(owner, inum, NDIRECT),
                        Tail(owner, inum, NDIRECT + j))
        invariant FreeCount(View().used) == FreeCount(fs.used) + Min(j, n - NDIRECT)
        invariant LoggedFor(sb, d0, l0, OnDisk(), logged, {})
      {
        var b := WordAt(bp, j);
        assert b == RefOf(fs, inum, NDIRECT + j);
        EntryFreed(fs, WithAddr(View(), inum, NDIRECT, 0), DataStart(sb), owner, inum, NDIRECT + j);
        if b != 0 {
          ghost var d, l, v := OnDisk(), logged, View();
          var r := Bfree(b);
          LoggedThen(sb, d0, l0, d, l, {}, OnDisk(), logged, {}, {});
          assert WithAddr(View(), inum, NDIRECT, 0) == Freed(WithAddr(v, inum, NDIRECT, 0), b);
        }
        j := j + 1;
      }
    }

    /** The blocks of the indirect block are freed, then the block itself. */
    method FreeIndirect(inum: nat, ghost n: nat)
      requires Shape() && Owned(View(), DataStart(sb), owner, {}) && inum in inodes && EntriesUpTo(View(), inum, n)
      modifies this`bitmap, this`inodes, this`logged, this`owner
      ensures Shape() && Owned(View(), DataStart(sb), owner, {}) && Shrunk(old(View()), View(), inum)
      ensures |old(inodes[inum].addrs)| == NDIRECT + 1
      ensures inodes[inum] == old(inodes[inum]).(addrs := old(inodes[inum].addrs)[NDIRECT := 0])
      ensures FreeCount(View().used) == FreeCount(old(View().used)) + if n > NDIRECT then n - NDIRECT + 1 else 0
      ensures LoggedFor(sb, old(OnDisk()), old(logged), OnDisk(), logged, {})
    {
      hide FreeCount, Owned, LoggedFor, Keep, Tail;
      ghost var fs := View();
      RootInRange(fs, DataStart(sb), owner, inum);
      LoggedNothing(sb, OnDisk(), logged, {});
      var root := inodes[inum].addrs[NDIRECT];
      if root != 0 {
        FreeEntries(inum, blocks[root], n);
        EntryFreed(fs, WithAddr(View(), inum, NDIRECT, 0), DataStart(sb), owner, inum, ROOT);
        TailEnds(fs, DataStart(sb), owner, inum);
        ghost var d, l, v := OnDisk(), logged, View();
        var r := Bfree(root);
        LoggedThen(sb, old(OnDisk()), old(logged), d, l, {}, OnDisk(), logged, {}, {});
        inodes := inodes[inum := inodes[inum].(addrs := inodes[inum].addrs[NDIRECT := 0])];
        owner := Keep(owner, inum, NDIRECT);
        assert View() == Freed(WithAddr(v, inum, NDIRECT, 0), root);
      }
    }

    /** itrunc: the file is empty, all its blocks are free again, all other files are as before. */
    method Itrunc(inum: nat)
      requires Valid() && inum in inodes
      modifies this`bitmap, this`inodes, this`table, this`logged, this`owner
      ensures Valid() && inodes.Keys == old(inodes.Keys) && File(inum) == [] && OthersSame(old(View()), View(), inum)
      ensures inodes[inum] == old(inodes[inum]).(size := 0, addrs := Zeroed(NDIRECT + 1))
      ensures FreeCount(View().used) == FreeCount(old(View().used)) + Footprint(BlocksFor(old(inodes[inum].size)))
      ensures LoggedFor(sb, old(OnDisk()), old(logged), OnDisk(), logged, {InodeBlock(sb, inum)})
    {
      hide FreeCount, Owned, LoggedFor, Consistent, OthersSame, MapOk, EntriesUpTo, SameOthers;
      ghost var fs, n := View(), BlocksFor(inodes[inum].size);
      ConsistentParts(fs, table, DataStart(sb), owner, inum);
      FreeDirects(inum, n);
      MapEntriesUpTo(fs, inum, n);
      DirectsLeaveEntries(fs, View(), inum, n);
      ghost var d, l := OnDisk(), logged;
      FreeIndirect(inum, n);
      LoggedThen(sb, old(OnDisk()), old(logged), d, l, {}, OnDisk(), logged, {}, {});
      d, l := OnDisk(), logged;
      ghost var mid := View();
      inodes := inodes[inum := inodes[inum].(size := 0)];
      FieldsKeepOwned(mid, View(), inum, DataStart(sb), owner);
      Iupdate(inum);
      ghost var x := {InodeBlock(sb, inum)};
      LoggedThen(sb, old(OnDisk()), old(logged), d, l, {}, OnDisk(), logged, x, x);
      Emptied(fs, View(), old(table), DataStart(sb), old(owner), owner, inum);
    }

    /** filewrite's loop for an open file at `off`: chunks of at most CHUNK bytes, each an operation of its own. */
    method Filewrite(inum: nat, addr: seq<Byte>, off: Word) returns (r: Outcome<int>, off': nat, ghost ops: seq<Op>)
      requires Valid() && inum in inodes && inodes[inum].kind != 0 && inodes[inum].kind != T_DEV && |addr| < 0x8000_0000
      modifies this`bitmap, this`blocks, this`inodes, this`table, this`logged, this`owner
      ensures var k := Fitting(old(inodes[inum].size), off, |addr|);
              && (r.Panicked? <==> FreeCount(old(View().used)) < Need(old(inodes[inum].size), off, k))
              && (r.Returned? ==>
                    && Valid() && r.value == (if k == |addr| then k else -1) && off' == off + k
                    && FileWrote(old(View()), View(), inum, off, addr[..k])
                    && Chained(sb, old(OnDisk()), OnDisk(), ops))
    {
      hide FreeCount, Consistent, Need, FileWrote, Chained, LoggedFor, Covered, WriteSet, Fitting, Refused, Demand;
      ghost var fs0, d0, size0, n0 := View(), OnDisk(), inodes[inum].size, FreeCount(View().used);
      ghost var k := Fitting(size0, off, |addr|);
      ChunksStart(sb, fs0, d0, inum, size0, off);
      ops, off' := [], off;
      var i, n := 0, |addr|;
      while i < n
        invariant i <= k && off' == off + i && (i % CHUNK == 0 || i == n)
        invariant Valid() && FileWrote(fs0, View(), inum, off, addr[..i])
        invariant FreeCount(View().used) == n0 - Need(size0, off, i)
        invariant Chained(sb, d0, OnDisk(), ops)
      {
        var n1 := if n - i > CHUNK then CHUNK else n - i;
        ghost var fs, d := View(), OnDisk();
        ChunkStarts(fs0, fs, inum, off, addr[..i]);
        ChunkFits(size0, off, i, n, n1);
        logged := {};
        r := Writei(inum, addr[i..i + n1], off');
        if r.Panicked? {
          return;
        }
        ghost var op := Op(d, OnDisk(), logged);
        if r.value < 0 {
          NothingLogged(sb, d0, d, ops);
          ops := ops + [op];
          break;
        }
        ChunkLogsSeven(sb, op, View(), inum, off', n1);
        ChainGrows(sb, d0, ops, op);
        ChunkWritten(fs0, fs, View(), inum, off, addr, i, n1);
        ops := ops + [op];
        off' := off' + r.value;
        i := i + r.value;
      }
      r := Returned(if i == n then n else -1);
    }
  }
}
