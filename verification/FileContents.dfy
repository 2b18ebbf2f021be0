/** Files as byte sequences: what a block map holds, and what mapping a block and writing into one do to the bytes. */
module FileContents {
  import opened Blocks
  import opened Bitmap
  import opened FileBlocks

  const LIMIT: nat := 71680                // MAXFILE * BSIZE

  function BlocksFor(size: nat): (n: nat) {
    (size + BSIZE - 1) / BSIZE
  }

  /** Disk blocks behind a file of `n` blocks, the indirect block included. */
  function Footprint(n: nat): (k: nat) {
    if n <= NDIRECT then n else n + 1
  }

  function Max(a: nat, b: nat): nat {
    if a < b then b else a
  }

  function Min(a: int, b: int): int {
    if a < b then a else b
  }

  /** The map has no holes: exactly the first `n` blocks are there, and the indirect block if they need it. */
  ghost predicate MapOk(fs: Fs, inum: nat, n: nat) {
    && inum in fs.inodes && |fs.inodes[inum].addrs| == NDIRECT + 1 && n <= MAXFILE
    && (forall k: Slot | k.inum == inum && k.s < MAXFILE :: RefIn(fs, k) != 0 <==> k.s < n)
    && (fs.inodes[inum].addrs[NDIRECT] != 0 <==> n > NDIRECT)
  }

  ghost predicate SizeOk(fs: Fs, inum: nat)
    requires inum in fs.inodes
  {
    fs.inodes[inum].size <= LIMIT && MapOk(fs, inum, BlocksFor(fs.inodes[inum].size))
  }

  /** What holds between operations: exclusive ownership, no holes, and disk inodes equal to the ones in memory. */
  ghost predicate Consistent(fs: Fs, table: map<nat, Inode>, dataStart: nat, owner: map<nat, Slot>) {
    && Owned(fs, dataStart, owner, {})
    && fs.inodes == table
    && (forall i | i in fs.inodes :: SizeOk(fs, i))
    && (forall i | i in fs.inodes && fs.inodes[i].kind == 0 :: fs.inodes[i].size == 0)
  }

  ghost function ByteAt(fs: Fs, inum: nat, i: nat): Byte
    requires IsSlot(fs, Slot(inum, 0)) && i < LIMIT
  {
    DataOf(fs, Slot(inum, i / BSIZE))[i % BSIZE]
  }

  /** The file. */
  ghost function Content(fs: Fs, inum: nat): (c: seq<Byte>)
    requires IsSlot(fs, Slot(inum, 0)) && fs.inodes[inum].size <= LIMIT
    ensures |c| == fs.inodes[inum].size && forall i | 0 <= i < |c| :: c[i] == ByteAt(fs, inum, i)
  {
    var n := fs.inodes[inum].size;
    seq(n, i requires 0 <= i < n => ByteAt(fs, inum, i))
  }

  /** `c` with `src` written over it at `off`, growing if `src` ends past its end. */
  function Overwrite(c: seq<Byte>, off: nat, src: seq<Byte>): (r: seq<Byte>)
    requires off <= |c|
    ensures |r| == Max(|c|, off + |src|)
    ensures forall i | 0 <= i < |r| :: r[i] == if off <= i < off + |src| then src[i - off] else c[i]
  {
    c[..off] + src + if off + |src| < |c| then c[off + |src|..] else []
  }

  /** The other inodes, their pointers and their data are the same. */
  ghost predicate SameOthers(fs: Fs, fs': Fs, inum: nat) {
    && fs'.inodes.Keys == fs.inodes.Keys
    && (forall j | j in fs.inodes && j != inum :: fs'.inodes[j] == fs.inodes[j])
    && (forall k: Slot | IsSlot(fs, k) && k.s < MAXFILE && k.inum != inum ::
          IsSlot(fs', k) && RefIn(fs', k) == RefIn(fs, k) && DataOf(fs', k) == DataOf(fs, k))
  }

  /** Files other than `inum` keep their maps and their bytes. */
  lemma OthersKept(fs: Fs, fs': Fs, inum: nat, j: nat)
    requires SameOthers(fs, fs', inum) && j in fs.inodes && j != inum && SizeOk(fs, j)
    ensures SizeOk(fs', j) && fs'.inodes[j] == fs.inodes[j] && Content(fs', j) == Content(fs, j)
  {
    forall k: Slot | k.inum == j && k.s < MAXFILE
      ensures RefIn(fs', k) != 0 <==> k.s < BlocksFor(fs.inodes[j].size)
    {
      assert IsSlot(fs, k);
    }
    forall i | 0 <= i < fs.inodes[j].size
      ensures ByteAt(fs', j, i) == ByteAt(fs, j, i)
    {
      assert IsSlot(fs, Slot(j, i / BSIZE));
    }
  }

  // ---- Mapping one block ----

  /** The indirect block of an inode, 0 if none. */
  ghost function RootOf(fs: Fs, inum: nat): nat {
    if IsSlot(fs, Slot(inum, ROOT)) then RefIn(fs, Slot(inum, ROOT)) else 0
  }

  /** Blocks that mapping block `bn` has to allocate. */
  ghost function Cost(fs: Fs, inum: nat, bn: nat): nat {
    if !IsSlot(fs, Slot(inum, bn)) || RefIn(fs, Slot(inum, bn)) != 0 then 0
    else if bn < NDIRECT || fs.inodes[inum].addrs[NDIRECT] != 0 then 1 else 2
  }

  /** bmap: block `bn` is `addr`, reads as zeros if it is new, and no pointer and no byte changed besides. */
  ghost predicate Mapped(fs: Fs, fs': Fs, inum: nat, bn: nat, addr: nat) {
    var k := Slot(inum, bn);
    && IsSlot(fs, k) && IsSlot(fs', k) && bn < MAXFILE
    && SameExcept(fs, fs', k)
    && fs'.inodes[inum] == fs.inodes[inum].(addrs := fs'.inodes[inum].addrs)
    && RefIn(fs', k) == addr != 0 && DataOf(fs', k) == DataOf(fs, k)
    && (RefIn(fs, k) != 0 ==> fs' == fs)
    && (fs'.inodes[inum].addrs[NDIRECT] != 0 <==> fs.inodes[inum].addrs[NDIRECT] != 0 || bn >= NDIRECT)
    && (fs.inodes[inum].addrs[NDIRECT] != 0 ==> fs'.inodes[inum].addrs[NDIRECT] == fs.inodes[inum].addrs[NDIRECT])
    && FreeCount(fs'.used) == FreeCount(fs.used) - Cost(fs, inum, bn)
  }

  lemma RootInRange(fs: Fs, dataStart: nat, owner: map<nat, Slot>, inum: nat)
    requires Owned(fs, dataStart, owner, {}) && inum in fs.inodes
    ensures |fs.inodes[inum].addrs| == NDIRECT + 1 && RootOf(fs, inum) == fs.inodes[inum].addrs[NDIRECT] < |fs.blocks|
  {
    assert IsSlot(fs, Slot(inum, ROOT));
  }

  lemma RefInRange(fs: Fs, dataStart: nat, owner: map<nat, Slot>, k: Slot)
    requires Owned(fs, dataStart, owner, {}) && IsSlot(fs, k)
    ensures RefIn(fs, k) < |fs.blocks| && (RefIn(fs, k) != 0 ==> dataStart <= RefIn(fs, k))
  {
  }

  lemma FreeInData(fs: Fs, dataStart: nat, owner: map<nat, Slot>, b: nat)
    requires Owned(fs, dataStart, owner, {}) && b < |fs.used| && !fs.used[b]
    ensures 0 < dataStart <= b
  {
  }

  lemma PresentMaps(fs: Fs, inum: nat, bn: nat)
    requires IsSlot(fs, Slot(inum, bn)) && bn < MAXFILE && RefIn(fs, Slot(inum, bn)) != 0
    ensures Mapped(fs, fs, inum, bn, RefIn(fs, Slot(inum, bn)))
  {
    assert bn >= NDIRECT ==> fs.inodes[inum].addrs[NDIRECT] != 0;
  }

  lemma DirectMaps(fs: Fs, dataStart: nat, owner: map<nat, Slot>, inum: nat, bn: nat, b: nat)
    requires Owned(fs, dataStart, owner, {}) && inum in fs.inodes && bn < NDIRECT && fs.inodes[inum].addrs[bn] == 0
    requires b < |fs.used| && !fs.used[b]
    ensures var fs' := WithAddr(Allocated(fs, b, ZERO_BLOCK), inum, bn, b);
            && Owned(fs', dataStart, owner[b := Slot(inum, bn)], {}) && Mapped(fs, fs', inum, bn, b)
  {
    hide FreeCount;
    assert b >= dataStart;
    DirectClaim(fs, dataStart, owner, inum, bn, b);
    FreeCountAfter(fs.used, b, true);
  }

  lemma EntryMaps(fs: Fs, dataStart: nat, owner: map<nat, Slot>, inum: nat, bn: nat, b: nat)
    requires Owned(fs, dataStart, owner, {}) && inum in fs.inodes && fs.inodes[inum].addrs[NDIRECT] != 0
    requires NDIRECT <= bn < MAXFILE && RefIn(fs, Slot(inum, bn)) == 0 && b < |fs.used| && !fs.used[b]
    ensures fs.inodes[inum].addrs[NDIRECT] < |fs.blocks|
    ensures var fs' := WithEntry(Allocated(fs, b, ZERO_BLOCK), fs.inodes[inum].addrs[NDIRECT], bn - NDIRECT, b);
            && Owned(fs', dataStart, owner[b := Slot(inum, bn)], {}) && Mapped(fs, fs', inum, bn, b)
  {
    hide FreeCount, Owned, SetWord, WordAt, SameExcept;
    FreeInData(fs, dataStart, owner, b);
    RootInRange(fs, dataStart, owner, inum);
    EntryClaim(fs, dataStart, owner, inum, bn - NDIRECT, b);
    FreeCountAfter(fs.used, b, true);
  }

  /** Allocating the indirect block first, then the entry. */
  lemma RootThenEntry(fs: Fs, b: nat, fs1: Fs, fs': Fs, inum: nat, bn: nat, addr: nat)
    requires IsSlot(fs, Slot(inum, ROOT)) && fs.inodes[inum].addrs[NDIRECT] == 0 && NDIRECT <= bn < MAXFILE
    requires 0 < b < |fs.used| == |fs.blocks| && b < WORD_LIMIT && !fs.used[b]
    requires fs1 == WithAddr(Allocated(fs, b, ZERO_BLOCK), inum, NDIRECT, b) && SameExcept(fs, fs1, Slot(inum, ROOT))
    requires Mapped(fs1, fs', inum, bn, addr)
    ensures RefIn(fs1, Slot(inum, bn)) == 0 && Mapped(fs, fs', inum, bn, addr)
  {
    hide FreeCount;
    FreeCountAfter(fs.used, b, true);
    var k := Slot(inum, bn);
    assert IsSlot(fs, k) && RefIn(fs1, k) == RefIn(fs, k) == 0 && DataOf(fs1, k) == DataOf(fs, k);
    forall j: Slot | IsSlot(fs, j) && j.s < MAXFILE && j != k
      ensures IsSlot(fs', j) && RefIn(fs', j) == RefIn(fs, j) && DataOf(fs', j) == DataOf(fs, j)
    {
      assert IsSlot(fs1, j) && RefIn(fs1, j) == RefIn(fs, j) && DataOf(fs1, j) == DataOf(fs, j);
    }
  }

  lemma MapGrows(fs: Fs, fs': Fs, inum: nat, bn: nat, addr: nat, n: nat)
    requires Mapped(fs, fs', inum, bn, addr) && MapOk(fs, inum, n) && bn <= n
    ensures MapOk(fs', inum, Max(n, bn + 1)) && SameOthers(fs, fs', inum)
    ensures bn < n ==> fs' == fs
    ensures Cost(fs, inum, bn) == Footprint(Max(n, bn + 1)) - Footprint(n)
  {
    assert IsSlot(fs, Slot(inum, bn));
    forall k: Slot | k.inum == inum && k.s < MAXFILE
      ensures RefIn(fs', k) != 0 <==> k.s < Max(n, bn + 1)
    {
      assert IsSlot(fs, k);
    }
  }

  lemma MappingKeepsBytes(fs: Fs, fs': Fs, inum: nat, bn: nat, addr: nat, i: nat)
    requires Mapped(fs, fs', inum, bn, addr) && i < LIMIT
    ensures ByteAt(fs', inum, i) == ByteAt(fs, inum, i)
  {
    assert IsSlot(fs, Slot(inum, i / BSIZE));
  }

  // ---- Writing ----

  /** `fs'` has `src` at `off` of inode `inum` and every other byte, of any file, as in `fs`. */
  ghost predicate Wrote(fs: Fs, fs': Fs, inum: nat, off: nat, src: seq<Byte>) {
    && IsSlot(fs, Slot(inum, 0)) && IsSlot(fs', Slot(inum, 0)) && off + |src| <= LIMIT
    && SameOthers(fs, fs', inum)
    && fs'.inodes[inum] == fs.inodes[inum].(addrs := fs'.inodes[inum].addrs)
    && forall i: nat | i < LIMIT ::
         ByteAt(fs', inum, i) == if off <= i < off + |src| then src[i - off] else ByteAt(fs, inum, i)
  }

  /** One round of the copy loop: map block `bn`, then change part of it. */
  lemma RoundWrites(fs: Fs, mid: Fs, fs': Fs, inum: nat, bn: nat, addr: nat, at: nat, part: seq<Byte>)
    requires Mapped(fs, mid, inum, bn, addr) && Stored(mid, fs', inum, bn, at, part)
    ensures Wrote(fs, fs', inum, bn * BSIZE + at, part)
  {
    var k := Slot(inum, bn);
    forall i: nat | i < LIMIT
      ensures ByteAt(fs', inum, i) ==
              if bn * BSIZE + at <= i < bn * BSIZE + at + |part| then part[i - bn * BSIZE - at] else ByteAt(fs, inum, i)
    {
      MappingKeepsBytes(fs, mid, inum, bn, addr, i);
      assert IsSlot(mid, Slot(inum, i / BSIZE));
      if i / BSIZE == bn {
        assert i == bn * BSIZE + i % BSIZE;
      }
    }
    forall j: Slot | IsSlot(fs, j) && j.s < MAXFILE && j.inum != inum
      ensures IsSlot(fs', j) && RefIn(fs', j) == RefIn(fs, j) && DataOf(fs', j) == DataOf(fs, j)
    {
      assert IsSlot(mid, j);
    }
  }

  lemma WroteTwice(fs: Fs, mid: Fs, fs': Fs, inum: nat, off: nat, src: seq<Byte>, more: seq<Byte>)
    requires Wrote(fs, mid, inum, off, src) && Wrote(mid, fs', inum, off + |src|, more)
    ensures Wrote(fs, fs', inum, off, src + more)
  {
    forall j: Slot | IsSlot(fs, j) && j.s < MAXFILE && j.inum != inum
      ensures IsSlot(fs', j) && RefIn(fs', j) == RefIn(fs, j) && DataOf(fs', j) == DataOf(fs, j)
    {
      assert IsSlot(mid, j);
    }
    forall i: nat | i < LIMIT
      ensures ByteAt(fs', inum, i) == if off <= i < off + |src + more| then (src + more)[i - off]
              else ByteAt(fs, inum, i)
    {
      assert ByteAt(mid, inum, i) == if off <= i < off + |src| then src[i - off] else ByteAt(fs, inum, i);
    }
  }

  /** Setting the size makes the file the old one with `src` written over it. */
  lemma WroteOverwrites(fs: Fs, fs': Fs, inum: nat, off: nat, src: seq<Byte>, end: Fs)
    requires Wrote(fs, fs', inum, off, src) && fs.inodes[inum].size <= LIMIT && off <= fs.inodes[inum].size
    requires var ino := fs'.inodes[inum];
             end == fs'.(inodes := fs'.inodes[inum := ino.(size := Max(ino.size, off + |src|))])
    ensures Content(end, inum) == Overwrite(Content(fs, inum), off, src)
  {
    var c := Overwrite(Content(fs, inum), off, src);
    forall i: nat | i < |c|
      ensures Content(end, inum)[i] == c[i]
    {
      assert ByteAt(end, inum, i) == ByteAt(fs', inum, i) by {
        ResizeKeepsRefs(fs', end, inum, Slot(inum, i / BSIZE));
      }
    }
  }

  lemma ResizeKeepsRefs(fs: Fs, fs': Fs, inum: nat, k: Slot)
    requires inum in fs.inodes && IsSlot(fs, k) && inum in fs'.inodes
    requires fs' == fs.(inodes := fs.inodes[inum := fs'.inodes[inum]])
    requires fs'.inodes[inum].addrs == fs.inodes[inum].addrs
    ensures IsSlot(fs', k) && RefIn(fs', k) == RefIn(fs, k) && DataOf(fs', k) == DataOf(fs, k)
  {
  }

  /** Changing an inode's fields other than its pointers keeps ownership and maps. */
  lemma FieldsKeepOwned(fs: Fs, fs': Fs, inum: nat, dataStart: nat, owner: map<nat, Slot>)
    requires Owned(fs, dataStart, owner, {}) && inum in fs.inodes && inum in fs'.inodes
    requires fs' == fs.(inodes := fs.inodes[inum := fs'.inodes[inum]])
    requires fs'.inodes[inum].addrs == fs.inodes[inum].addrs
    ensures Owned(fs', dataStart, owner, {}) && SameOthers(fs, fs', inum)
    ensures forall n | MapOk(fs, inum, n) :: MapOk(fs', inum, n)
  {
    forall k | IsSlot(fs, k)
      ensures IsSlot(fs', k) && RefIn(fs', k) == RefIn(fs, k) && DataOf(fs', k) == DataOf(fs, k)
    {
      ResizeKeepsRefs(fs, fs', inum, k);
    }
    forall k | IsSlot(fs', k)
      ensures IsSlot(fs, k)
    {
    }
  }

  /** Content of `inum` overwritten, all other files and inodes as before. */
  ghost predicate FileWritten(fs: Fs, fs': Fs, inum: nat, off: nat, src: seq<Byte>) {
    && inum in fs.inodes && Readable(fs, inum) && Readable(fs', inum) && fs'.inodes.Keys == fs.inodes.Keys
    && off <= fs.inodes[inum].size && Content(fs', inum) == Overwrite(Content(fs, inum), off, src)
    && fs'.inodes[inum] == fs.inodes[inum].(size := fs'.inodes[inum].size, addrs := fs'.inodes[inum].addrs)
    && OthersSame(fs, fs', inum)
  }

  ghost predicate Readable(fs: Fs, j: nat) {
    IsSlot(fs, Slot(j, 0)) && fs.inodes[j].size <= LIMIT
  }

  ghost predicate OthersSame(fs: Fs, fs': Fs, inum: nat) {
    forall j | j in fs.inodes && j != inum ::
      j in fs'.inodes && fs'.inodes[j] == fs.inodes[j]
      && Readable(fs, j) && Readable(fs', j) && Content(fs', j) == Content(fs, j)
  }

  /** The copy loop after `tot` bytes, on a file that started with `n0` blocks. */
  ghost predicate Writing(fs0: Fs, fs: Fs, inum: nat, off: nat, src: seq<Byte>, tot: nat, n0: nat) {
    var n := Max(n0, BlocksFor(off + tot));
    && tot <= |src| && inum in fs0.inodes && Wrote(fs0, fs, inum, off, src[..tot]) && MapOk(fs, inum, n)
    && (off + tot <= fs0.inodes[inum].size ==> fs.inodes == fs0.inodes)
    && FreeCount(fs.used) == FreeCount(fs0.used) - (Footprint(n) - Footprint(n0))
  }

  lemma WritingStarts(fs: Fs, inum: nat, off: nat, src: seq<Byte>)
    requires inum in fs.inodes && SizeOk(fs, inum) && off <= fs.inodes[inum].size && off <= LIMIT
    ensures Writing(fs, fs, inum, off, src, 0, BlocksFor(fs.inodes[inum].size))
  {
  }

  lemma RoundAligned(off: nat, tot: nat, left: nat, m: nat)
    requires 0 < left && m == RoundLength(off + tot, left)
    ensures if m < left then (off + tot + m) / BSIZE == (off + tot) / BSIZE + 1
            else BlocksFor(off + tot + m) == (off + tot) / BSIZE + 1
  {
  }

  lemma ConsistentParts(fs: Fs, table: map<nat, Inode>, dataStart: nat, owner: map<nat, Slot>, inum: nat)
    requires Consistent(fs, table, dataStart, owner) && inum in fs.inodes
    ensures Owned(fs, dataStart, owner, {}) && SizeOk(fs, inum) && fs.inodes == table
  {
  }

  /** Where one round of the copy loop writes. */
  lemma RoundFits(off: nat, tot: nat, left: nat, m: nat, n0: nat, size: nat)
    requires 0 < left && off <= size && n0 == BlocksFor(size)
    requires m == RoundLength(off + tot, left)
    ensures 0 < m <= left && (off + tot) / BSIZE * BSIZE + (off + tot) % BSIZE == off + tot
            && (off + tot) % BSIZE + m <= BSIZE
    ensures (off + tot) / BSIZE <= Max(n0, BlocksFor(off + tot))
    ensures Max(n0, BlocksFor(off + tot + m)) == Max(Max(n0, BlocksFor(off + tot)), (off + tot) / BSIZE + 1)
    ensures off + tot + m <= size ==> (off + tot) / BSIZE < Max(n0, BlocksFor(off + tot))
  {
  }

  /** `min(n - tot, BSIZE - off%BSIZE)`. */
  function RoundLength(at: nat, left: nat): (m: nat) {
    if left < BSIZE - at % BSIZE then left else BSIZE - at % BSIZE
  }

  /** Block `bn` has `part` at `at`; nothing else changed. */
  ghost predicate Stored(fs: Fs, fs': Fs, inum: nat, bn: nat, at: nat, part: seq<Byte>) {
    var k := Slot(inum, bn);
    && IsSlot(fs, k) && IsSlot(fs', k) && at + |part| <= BSIZE
    && fs'.inodes == fs.inodes && fs'.used == fs.used && SameExcept(fs, fs', k)
    && RefIn(fs', k) == RefIn(fs, k) && DataOf(fs', k) == Overwrite(DataOf(fs, k), at, part)
  }

  lemma RoundMaps(fs: Fs, mid: Fs, fs': Fs, inum: nat, bn: nat, addr: nat, at: nat, part: seq<Byte>, n: nat)
    requires Mapped(fs, mid, inum, bn, addr) && Stored(mid, fs', inum, bn, at, part) && MapOk(fs, inum, n) && bn <= n
    ensures MapOk(fs', inum, Max(n, bn + 1)) && (bn < n ==> fs'.inodes == fs.inodes) && inum in fs'.inodes
    ensures FreeCount(fs'.used) == FreeCount(fs.used) - (Footprint(Max(n, bn + 1)) - Footprint(n))
  {
    MapGrows(fs, mid, inum, bn, addr, n);
    forall k: Slot | k.inum == inum && k.s < MAXFILE
      ensures RefIn(fs', k) == RefIn(mid, k)
    {
      assert IsSlot(mid, k);
    }
  }

  /** The copy loop's next round. */
  lemma WritingContinues(
    fs0: Fs, fs: Fs, mid: Fs, fs': Fs, inum: nat, off: nat, src: seq<Byte>, tot: nat, n0: nat, addr: nat, m: nat)
    requires Writing(fs0, fs, inum, off, src, tot, n0) && off <= fs0.inodes[inum].size && tot < |src|
             && off + |src| <= LIMIT
    requires n0 == BlocksFor(fs0.inodes[inum].size) && m == RoundLength(off + tot, |src| - tot)
    requires Mapped(fs, mid, inum, (off + tot) / BSIZE, addr)
    requires Stored(mid, fs', inum, (off + tot) / BSIZE, (off + tot) % BSIZE, src[tot..tot + m])
    ensures Writing(fs0, fs', inum, off, src, tot + m, n0) && inum in fs'.inodes
  {
    hide FreeCount, Mapped, Stored, MapOk, Wrote, BlocksFor, Footprint;
    var bn, at, part := (off + tot) / BSIZE, (off + tot) % BSIZE, src[tot..tot + m];
    RoundFits(off, tot, |src| - tot, m, n0, fs0.inodes[inum].size);
    var n := Max(n0, BlocksFor(off + tot));
    RoundMaps(fs, mid, fs', inum, bn, addr, at, part, n);
    RoundWrites(fs, mid, fs', inum, bn, addr, at, part);
    WroteTwice(fs0, fs, fs', inum, off, src[..tot], part);
    assert src[..tot] + part == src[..tot + m];
  }

  /** The file system after the size has been brought up to date. */
  function Resized(fs: Fs, inum: nat, end: nat): Fs
    requires inum in fs.inodes
  {
    var ino := fs.inodes[inum];
    fs.(inodes := fs.inodes[inum := ino.(size := Max(ino.size, end))])
  }

  /** The end of writei: the file is overwritten, everything is consistent again. */
  lemma WritingEnds(
    fs0: Fs, fs: Fs, table: map<nat, Inode>, dataStart: nat, owner0: map<nat, Slot>, owner: map<nat, Slot>,
    inum: nat, off: nat, src: seq<Byte>)
    requires Consistent(fs0, table, dataStart, owner0) && inum in fs0.inodes && off <= fs0.inodes[inum].size
    requires fs0.inodes[inum].kind != 0
    requires Writing(fs0, fs, inum, off, src, |src|, BlocksFor(fs0.inodes[inum].size))
             && Owned(fs, dataStart, owner, {})
    ensures inum in fs.inodes && fs.inodes[inum].size == fs0.inodes[inum].size
    ensures FreeCount(fs.used) == FreeCount(fs0.used) - Demand(fs0.inodes[inum].size, off, |src|)
    ensures var end := Resized(fs, inum, off + |src|);
            && FileWritten(fs0, end, inum, off, src)
            && Consistent(end, table[inum := end.inodes[inum]], dataStart, owner)
            && (off + |src| <= fs0.inodes[inum].size ==> table[inum := end.inodes[inum]] == table && end == fs)
  {
    hide FreeCount, Owned, Footprint, MapOk, SameOthers, SameExcept, Content, Overwrite;
    assert src[..|src|] == src;
    var end := Resized(fs, inum, off + |src|);
    assert SizeOk(fs0, inum) && SameOthers(fs0, fs, inum);
    WroteOverwrites(fs0, fs, inum, off, src, end);
    FieldsKeepOwned(fs, end, inum, dataStart, owner);
    OthersFollow(fs0, fs, end, inum);
    assert BlocksFor(Max(fs0.inodes[inum].size, off + |src|))
           == Max(BlocksFor(fs0.inodes[inum].size), BlocksFor(off + |src|));
    assert SizeOk(end, inum);
  }

  lemma OthersFollow(fs: Fs, mid: Fs, fs': Fs, inum: nat)
    requires SameOthers(fs, mid, inum) && SameOthers(mid, fs', inum) && forall j | j in fs.inodes :: SizeOk(fs, j)
    ensures OthersSame(fs, fs', inum) && fs'.inodes.Keys == fs.inodes.Keys
    ensures forall j | j in fs.inodes && j != inum :: SizeOk(fs', j) && fs'.inodes[j] == fs.inodes[j]
  {
    hide MapOk, RefIn, DataOf;
    forall j | j in fs.inodes && j != inum
      ensures SizeOk(fs, j) && SizeOk(fs', j) && fs'.inodes[j] == fs.inodes[j]
      ensures Readable(fs, j) && Readable(fs', j) && Content(fs', j) == Content(fs, j)
    {
      assert SizeOk(fs, j);
      OthersKept(fs, mid, inum, j);
      OthersKept(mid, fs', inum, j);
      SizeOkReadable(fs, j);
      SizeOkReadable(fs', j);
    }
  }

  lemma SizeOkReadable(fs: Fs, j: nat)
    requires j in fs.inodes && SizeOk(fs, j)
    ensures Readable(fs, j)
  {
  }

  // ---- Blocks touched by a write ----

  ghost function RefOf(fs: Fs, inum: nat, s: nat): nat {
    if IsSlot(fs, Slot(inum, s)) then RefIn(fs, Slot(inum, s)) else 0
  }

  ghost function RefSet(fs: Fs, inum: nat, lo: nat, hi: nat): set<nat> {
    if hi <= lo then {} else RefSet(fs, inum, lo, hi - 1) + {RefOf(fs, inum, hi - 1)}
  }

  /** The data blocks `lo..hi` of a file, and its indirect block if one of them is beyond the direct ones. */
  ghost function Touched(fs: Fs, inum: nat, lo: nat, hi: nat): set<nat> {
    RefSet(fs, inum, lo, hi) + if hi > NDIRECT && lo < hi then {RootOf(fs, inum)} else {}
  }

  lemma {:induction false} RefSetSize(fs: Fs, inum: nat, lo: nat, hi: nat)
    requires lo <= hi
    ensures |RefSet(fs, inum, lo, hi)| <= hi - lo
  {
    if lo < hi {
      RefSetSize(fs, inum, lo, hi - 1);
    }
  }

  lemma {:induction false} RefSetSame(fs: Fs, fs': Fs, inum: nat, lo: nat, hi: nat)
    requires forall s: nat | s < hi :: RefOf(fs', inum, s) == RefOf(fs, inum, s)
    ensures RefSet(fs', inum, lo, hi) == RefSet(fs, inum, lo, hi)
  {
    if lo < hi {
      RefSetSame(fs, fs', inum, lo, hi - 1);
    }
  }

  /** The next round touches block `bn` and, if that is not direct, the indirect block. */
  lemma TouchedGrows(
    fs: Fs, mid: Fs, fs': Fs, inum: nat, lo: nat, bn: nat, addr: nat, at: nat, part: seq<Byte>, n: nat)
    requires Mapped(fs, mid, inum, bn, addr) && Stored(mid, fs', inum, bn, at, part) && lo <= bn <= n
             && MapOk(fs, inum, n)
    ensures Touched(fs, inum, lo, bn) <= Touched(fs', inum, lo, bn + 1)
    ensures addr in Touched(fs', inum, lo, bn + 1) && RootOf(fs', inum) == RootOf(mid, inum)
    ensures bn >= NDIRECT ==> RootOf(mid, inum) in Touched(fs', inum, lo, bn + 1)
  {
    forall s: nat | s < bn
      ensures RefOf(fs', inum, s) == RefOf(fs, inum, s)
    {
      assert IsSlot(fs, Slot(inum, s)) && IsSlot(mid, Slot(inum, s));
    }
    RefSetSame(fs, fs', inum, lo, bn);
    assert RefOf(fs', inum, bn) == addr;
  }

  lemma RefsSameTouched(fs: Fs, fs': Fs, inum: nat, lo: nat, hi: nat)
    requires forall s: nat :: RefOf(fs', inum, s) == RefOf(fs, inum, s)
    ensures Touched(fs', inum, lo, hi) == Touched(fs, inum, lo, hi)
  {
    RefSetSame(fs, fs', inum, lo, hi);
    assert RootOf(fs, inum) == RefOf(fs, inum, ROOT) && RootOf(fs', inum) == RefOf(fs', inum, ROOT);
  }

  /** Free blocks that a write of `n` bytes at `off` takes. */
  ghost function Demand(size: nat, off: nat, n: nat): int {
    Footprint(Max(BlocksFor(size), BlocksFor(off + n))) - Footprint(BlocksFor(size))
  }

  /** If a round runs out of blocks, there were too few for the whole write. */
  lemma RoundStarves(fs0: Fs, fs: Fs, inum: nat, off: nat, src: seq<Byte>, tot: nat, n0: nat)
    requires Writing(fs0, fs, inum, off, src, tot, n0) && n0 == BlocksFor(fs0.inodes[inum].size)
    requires tot < |src| && off <= fs0.inodes[inum].size && off + |src| <= LIMIT
    ensures (off + tot) / BSIZE < MAXFILE
    ensures FreeCount(fs.used) < Cost(fs, inum, (off + tot) / BSIZE) ==>
              FreeCount(fs0.used) < Demand(fs0.inodes[inum].size, off, |src|)
  {
    hide FreeCount, Wrote;
    var n, bn := Max(n0, BlocksFor(off + tot)), (off + tot) / BSIZE;
    assert bn <= n && bn + 1 <= BlocksFor(off + |src|);
    assert IsSlot(fs, Slot(inum, bn)) && (RefIn(fs, Slot(inum, bn)) != 0 <==> bn < n);
    assert Cost(fs, inum, bn) == Footprint(Max(n, bn + 1)) - Footprint(n);
  }

  // ---- Reading ----

  /** A stretch of the file that stays in one block is a stretch of that block. */
  lemma BlockOfContent(fs: Fs, dataStart: nat, owner: map<nat, Slot>, inum: nat, at: nat, m: nat)
    requires Owned(fs, dataStart, owner, {}) && inum in fs.inodes && SizeOk(fs, inum)
    requires 0 < m && at + m <= fs.inodes[inum].size && at % BSIZE + m <= BSIZE
    ensures var b := RefOf(fs, inum, at / BSIZE);
            && 0 < b < |fs.blocks| && at / BSIZE < MAXFILE && Cost(fs, inum, at / BSIZE) == 0 && Readable(fs, inum)
            && fs.blocks[b][at % BSIZE..at % BSIZE + m] == Content(fs, inum)[at..at + m]
  {
    hide FreeCount;
    var k := Slot(inum, at / BSIZE);
    assert k.s < BlocksFor(fs.inodes[inum].size);
    assert IsSlot(fs, k) && RefIn(fs, k) != 0;
    RefInRange(fs, dataStart, owner, k);
    hide Owned, MapOk;
    var x, y := fs.blocks[RefIn(fs, k)][at % BSIZE..at % BSIZE + m], Content(fs, inum)[at..at + m];
    forall i | 0 <= i < m
      ensures x[i] == y[i]
    {
      assert (at + i) / BSIZE == k.s && (at + i) % BSIZE == at % BSIZE + i;
      assert y[i] == ByteAt(fs, inum, at + i);
    }
  }

  lemma MappedPresent(fs: Fs, fs': Fs, inum: nat, bn: nat, addr: nat)
    requires Mapped(fs, fs', inum, bn, addr) && Cost(fs, inum, bn) == 0
    ensures fs' == fs && addr == RefOf(fs, inum, bn)
  {
  }

  // ---- Writing in chunks ----

  lemma OverwriteTwice(c: seq<Byte>, off: nat, a: seq<Byte>, b: seq<Byte>)
    requires off <= |c|
    ensures Overwrite(Overwrite(c, off, a), off + |a|, b) == Overwrite(c, off, a + b)
  {
  }

  lemma FileWrittenTwice(fs: Fs, mid: Fs, fs': Fs, inum: nat, off: nat, a: seq<Byte>, b: seq<Byte>)
    requires FileWritten(fs, mid, inum, off, a) && FileWritten(mid, fs', inum, off + |a|, b)
    ensures FileWritten(fs, fs', inum, off, a + b)
  {
    hide Content;
    OverwriteTwice(Content(fs, inum), off, a, b);
  }

  lemma FileWrittenSize(fs: Fs, fs': Fs, inum: nat, off: nat, src: seq<Byte>)
    requires FileWritten(fs, fs', inum, off, src)
    ensures inum in fs'.inodes && fs'.inodes[inum].size == Max(fs.inodes[inum].size, off + |src|)
    ensures fs'.inodes[inum].kind == fs.inodes[inum].kind
  {
    assert |Content(fs', inum)| == Max(|Content(fs, inum)|, off + |src|);
  }

  lemma DemandAdds(size: nat, off: nat, i: nat, n: nat)
    requires off <= size
    ensures 0 <= Demand(size, off, i) <= Demand(size, off, i + n)
    ensures Demand(size, off, i) + Demand(Max(size, off + i), off + i, n) == Demand(size, off, i + n)
  {
    assert BlocksFor(Max(size, off + i)) == Max(BlocksFor(size), BlocksFor(off + i));
    assert BlocksFor(off + i) <= BlocksFor(off + i + n);
  }

  /** Without growth there is no demand. */
  lemma DemandStarts(size: nat, off: nat)
    requires off <= size
    ensures Demand(size, off, 0) == 0
  {
  }
}
