/**
 Inodes, their block maps and the free bitmap of part1/fs.c, as values: which block a pointer names, who owns each
 block, and what one allocation or one release does to that.

 The bitmap is a sequence of bits and the inode table a map of records; both live in the blocks below `dataStart`.
 */
module FileBlocks {
  import opened Blocks

  const NDIRECT := 12
  const NINDIRECT := 128
  const MAXFILE := 140                     // NDIRECT + NINDIRECT
  const ROOT: nat := MAXFILE               // the slot of the indirect block itself

  datatype Inode = Inode(kind: int, major: int, minor: int, nlink: int, size: nat, addrs: seq<Word>)

  /** Bitmap, blocks and inodes. */
  datatype Fs = Fs(used: seq<bool>, blocks: seq<Block>, inodes: map<nat, Inode>)

  /** One pointer: entry `s` of inode `inum` (direct, indirect, or ROOT). */
  datatype Slot = Slot(inum: nat, s: nat)

  ghost predicate Shaped(fs: Fs, dataStart: nat) {
    && 0 < dataStart <= |fs.used| == |fs.blocks| < WORD_LIMIT
    && forall i | i in fs.inodes :: |fs.inodes[i].addrs| == NDIRECT + 1
  }

  /** The block number that pointer `s` of an inode holds, 0 if none. */
  function Ref(blocks: seq<Block>, ino: Inode, s: nat): (b: Word)
    requires |ino.addrs| == NDIRECT + 1 && s <= ROOT
  {
    if s < NDIRECT then ino.addrs[s]
    else if s == ROOT then ino.addrs[NDIRECT]
    else if 0 < ino.addrs[NDIRECT] < |blocks| then WordAt(blocks[ino.addrs[NDIRECT]], s - NDIRECT)
    else 0
  }

  ghost function RefIn(fs: Fs, k: Slot): Word
    requires k.inum in fs.inodes && |fs.inodes[k.inum].addrs| == NDIRECT + 1 && k.s <= ROOT
  {
    Ref(fs.blocks, fs.inodes[k.inum], k.s)
  }

  ghost predicate IsSlot(fs: Fs, k: Slot) {
    k.inum in fs.inodes && |fs.inodes[k.inum].addrs| == NDIRECT + 1 && k.s <= ROOT
  }

  /**
   Exclusive ownership. Every pointer that is set names a data block that is marked used and owned by that pointer
   alone; the bitmap marks the metadata, the owned blocks and the blocks `pending` that are about to be freed.
   */
  ghost predicate Owned(fs: Fs, dataStart: nat, owner: map<nat, Slot>, pending: set<nat>) {
    && Shaped(fs, dataStart)
    && (forall k | IsSlot(fs, k) && RefIn(fs, k) != 0 :: RefIn(fs, k) in owner && owner[RefIn(fs, k)] == k)
    && (forall b | b in owner :: IsSlot(fs, owner[b]) && RefIn(fs, owner[b]) == b && b !in pending)
    && (forall b | b in owner || b in pending :: dataStart <= b < |fs.used|)
    && (forall b | 0 <= b < |fs.used| :: fs.used[b] <==> b < dataStart || b in owner || b in pending)
  }

  /** No two pointers name the same block. */
  lemma PointersAreDistinct(fs: Fs, dataStart: nat, owner: map<nat, Slot>, pending: set<nat>, k: Slot, k': Slot)
    requires Owned(fs, dataStart, owner, pending) && IsSlot(fs, k) && IsSlot(fs, k') && k != k' && RefIn(fs, k) != 0
    ensures RefIn(fs, k) != RefIn(fs, k') && dataStart <= RefIn(fs, k) < |fs.used| && fs.used[RefIn(fs, k)]
  {
    assert owner[RefIn(fs, k)] == k;
  }

  /** Setting pointer `k`, which was 0, to the free block `b`. */
  lemma ClaimKeepsOwned(fs: Fs, fs': Fs, dataStart: nat, owner: map<nat, Slot>, pending: set<nat>, k: Slot, b: nat)
    requires Owned(fs, dataStart, owner, pending) && dataStart <= b < |fs.used| && !fs.used[b]
    requires IsSlot(fs, k) && RefIn(fs, k) == 0
    requires Shaped(fs', dataStart) && fs'.used == fs.used[b := true] && fs'.inodes.Keys == fs.inodes.Keys
    requires RefIn(fs', k) == b && forall k' | IsSlot(fs, k') && k' != k :: RefIn(fs', k') == RefIn(fs, k')
    ensures Owned(fs', dataStart, owner[b := k], pending)
  {
    assert b !in owner && b !in pending;
    forall k' | IsSlot(fs', k') && RefIn(fs', k') != 0
      ensures RefIn(fs', k') in owner[b := k] && owner[b := k][RefIn(fs', k')] == k'
    {
      assert IsSlot(fs, k');
    }
  }

  /** Clearing pointer `k`, whose block joins the pending ones. */
  lemma DropKeepsOwned(fs: Fs, fs': Fs, dataStart: nat, owner: map<nat, Slot>, pending: set<nat>, k: Slot)
    requires Owned(fs, dataStart, owner, pending) && IsSlot(fs, k) && RefIn(fs, k) != 0
    requires Shaped(fs', dataStart) && fs'.used == fs.used && fs'.inodes.Keys == fs.inodes.Keys
    requires RefIn(fs', k) == 0 && forall k' | IsSlot(fs, k') && k' != k :: RefIn(fs', k') == RefIn(fs, k')
    ensures Owned(fs', dataStart, owner - {RefIn(fs, k)}, pending + {RefIn(fs, k)})
  {
    var b := RefIn(fs, k);
    var owner' := owner - {b};
    forall k' | IsSlot(fs', k') && RefIn(fs', k') != 0
      ensures RefIn(fs', k') in owner' && owner'[RefIn(fs', k')] == k'
    {
      assert IsSlot(fs, k') && k' != k;
    }
    forall c | c in owner'
      ensures IsSlot(fs', owner'[c]) && RefIn(fs', owner'[c]) == c
    {
      assert IsSlot(fs, owner[c]) && owner[c] != k;
    }
  }

  /** bfree of a pending block: its bit is set, so "freeing free block" cannot happen. */
  lemma ReleaseKeepsOwned(fs: Fs, dataStart: nat, owner: map<nat, Slot>, pending: set<nat>, b: nat)
    requires Owned(fs, dataStart, owner, pending) && b in pending
    ensures b < |fs.used| && fs.used[b]
    ensures Owned(fs.(used := fs.used[b := false]), dataStart, owner, pending - {b})
  {
    var fs' := fs.(used := fs.used[b := false]);
    forall k | IsSlot(fs', k) && RefIn(fs', k) != 0
      ensures RefIn(fs', k) in owner && owner[RefIn(fs', k)] == k
    {
      assert IsSlot(fs, k) && RefIn(fs, k) == RefIn(fs', k);
    }
    forall c | c in owner
      ensures IsSlot(fs', owner[c]) && RefIn(fs', owner[c]) == c && c !in pending - {b}
    {
      assert IsSlot(fs, owner[c]) && RefIn(fs, owner[c]) == RefIn(fs', owner[c]);
    }
  }

  // ---- Blocks behind the pointers ----

  /** The contents of the block that pointer `k` names; an unset pointer stands for zeros. */
  ghost function DataOf(fs: Fs, k: Slot): Block
    requires IsSlot(fs, k)
  {
    if 0 < RefIn(fs, k) < |fs.blocks| then fs.blocks[RefIn(fs, k)] else ZERO_BLOCK
  }

  /** All pointers except `k` name the same blocks with the same contents. */
  ghost predicate SameExcept(fs: Fs, fs': Fs, k: Slot) {
    && fs'.inodes.Keys == fs.inodes.Keys
    && (forall j | j in fs.inodes && j != k.inum :: fs'.inodes[j] == fs.inodes[j])
    && (forall j: Slot | IsSlot(fs, j) && j.s < MAXFILE && j != k ::
          IsSlot(fs', j) && RefIn(fs', j) == RefIn(fs, j) && DataOf(fs', j) == DataOf(fs, j))
  }

  /** `x` is no inode's indirect block. */
  ghost predicate NoRoot(fs: Fs, x: nat) {
    forall i | i in fs.inodes && |fs.inodes[i].addrs| == NDIRECT + 1 :: fs.inodes[i].addrs[NDIRECT] != x
  }

  /** New contents in a block that is no indirect block move no pointer. */
  lemma RefsSurvive(fs: Fs, x: nat, data: Block, k: Slot)
    requires x < |fs.blocks| && NoRoot(fs, x) && IsSlot(fs, k)
    ensures RefIn(fs.(blocks := fs.blocks[x := data]), k) == RefIn(fs, k)
  {
  }

  /** Free blocks and data blocks are no indirect blocks. */
  lemma FreeIsNoRoot(fs: Fs, dataStart: nat, owner: map<nat, Slot>, pending: set<nat>, b: nat)
    requires Owned(fs, dataStart, owner, pending) && dataStart <= b < |fs.used| && !fs.used[b]
    ensures NoRoot(fs, b) && forall k | IsSlot(fs, k) :: RefIn(fs, k) != b
  {
    forall i | i in fs.inodes
      ensures fs.inodes[i].addrs[NDIRECT] != b
    {
      assert IsSlot(fs, Slot(i, ROOT)) && RefIn(fs, Slot(i, ROOT)) == fs.inodes[i].addrs[NDIRECT];
    }
  }

  lemma DataIsNoRoot(fs: Fs, dataStart: nat, owner: map<nat, Slot>, pending: set<nat>, k: Slot)
    requires Owned(fs, dataStart, owner, pending) && IsSlot(fs, k) && k.s < MAXFILE && RefIn(fs, k) != 0
    ensures NoRoot(fs, RefIn(fs, k))
  {
    forall i | i in fs.inodes
      ensures fs.inodes[i].addrs[NDIRECT] != RefIn(fs, k)
    {
      assert IsSlot(fs, Slot(i, ROOT)) && RefIn(fs, Slot(i, ROOT)) == fs.inodes[i].addrs[NDIRECT];
      PointersAreDistinct(fs, dataStart, owner, pending, k, Slot(i, ROOT));
    }
  }

  /** balloc: block `b` is marked and zeroed. */
  function Allocated(fs: Fs, b: nat, zero: Block): Fs
    requires b < |fs.used| && b < |fs.blocks|
  {
    fs.(used := fs.used[b := true], blocks := fs.blocks[b := zero])
  }

  function WithAddr(fs: Fs, inum: nat, i: nat, b: Word): Fs
    requires inum in fs.inodes && i < |fs.inodes[inum].addrs|
  {
    fs.(inodes := fs.inodes[inum := fs.inodes[inum].(addrs := fs.inodes[inum].addrs[i := b])])
  }

  function WithEntry(fs: Fs, root: nat, j: nat, b: Word): Fs
    requires root < |fs.blocks| && j < NINDIRECT
  {
    fs.(blocks := fs.blocks[root := SetWord(fs.blocks[root], j, b)])
  }

  /** bmap gives direct entry `bn`, which was unset, the free block `b`. */
  lemma DirectClaim(fs: Fs, dataStart: nat, owner: map<nat, Slot>, inum: nat, bn: nat, b: nat)
    requires Owned(fs, dataStart, owner, {}) && inum in fs.inodes && bn < NDIRECT && fs.inodes[inum].addrs[bn] == 0
    requires dataStart <= b < |fs.used| && !fs.used[b]
    ensures var fs' := WithAddr(Allocated(fs, b, ZERO_BLOCK), inum, bn, b);
            && Owned(fs', dataStart, owner[b := Slot(inum, bn)], {}) && SameExcept(fs, fs', Slot(inum, bn))
            && RefIn(fs', Slot(inum, bn)) == b && DataOf(fs', Slot(inum, bn)) == ZERO_BLOCK
  {
    var k := Slot(inum, bn);
    var fs' := WithAddr(Allocated(fs, b, ZERO_BLOCK), inum, bn, b);
    FreeIsNoRoot(fs, dataStart, owner, {}, b);
    forall k' | IsSlot(fs, k') && k' != k
      ensures RefIn(fs', k') == RefIn(fs, k')
    {
      RefsSurvive(fs, b, ZERO_BLOCK, k');
    }
    ClaimKeepsOwned(fs, fs', dataStart, owner, {}, k, b);
  }

  /** bmap gives an inode without indirect block the free block `b` for it. */
  lemma RootClaim(fs: Fs, dataStart: nat, owner: map<nat, Slot>, inum: nat, b: nat)
    requires Owned(fs, dataStart, owner, {}) && inum in fs.inodes && fs.inodes[inum].addrs[NDIRECT] == 0
    requires dataStart <= b < |fs.used| && !fs.used[b]
    ensures var fs' := WithAddr(Allocated(fs, b, ZERO_BLOCK), inum, NDIRECT, b);
            && Owned(fs', dataStart, owner[b := Slot(inum, ROOT)], {}) && SameExcept(fs, fs', Slot(inum, ROOT))
            && fs'.inodes[inum].addrs[NDIRECT] == b
  {
    var k := Slot(inum, ROOT);
    var fs' := WithAddr(Allocated(fs, b, ZERO_BLOCK), inum, NDIRECT, b);
    FreeIsNoRoot(fs, dataStart, owner, {}, b);
    forall k' | IsSlot(fs, k') && k' != k
      ensures RefIn(fs', k') == RefIn(fs, k')
    {
      if k'.inum == inum && k'.s >= NDIRECT {
        ZeroBlockWords(k'.s - NDIRECT);
      } else {
        RefsSurvive(fs, b, ZERO_BLOCK, k');
      }
    }
    ClaimKeepsOwned(fs, fs', dataStart, owner, {}, k, b);
  }

  /** bmap sets entry `j` of the indirect block, which was 0, to the free block `b`. */
  lemma EntryClaim(fs: Fs, dataStart: nat, owner: map<nat, Slot>, inum: nat, j: nat, b: nat)
    requires Owned(fs, dataStart, owner, {}) && inum in fs.inodes && fs.inodes[inum].addrs[NDIRECT] != 0
             && j < NINDIRECT
    requires RefIn(fs, Slot(inum, NDIRECT + j)) == 0 && dataStart <= b < |fs.used| && !fs.used[b]
    ensures fs.inodes[inum].addrs[NDIRECT] < |fs.blocks|
    ensures var k := Slot(inum, NDIRECT + j);
            var fs' := WithEntry(Allocated(fs, b, ZERO_BLOCK), fs.inodes[inum].addrs[NDIRECT], j, b);
            && Owned(fs', dataStart, owner[b := k], {}) && SameExcept(fs, fs', k)
            && RefIn(fs', k) == b && DataOf(fs', k) == ZERO_BLOCK
  {
    var k, root := Slot(inum, NDIRECT + j), fs.inodes[inum].addrs[NDIRECT];
    assert IsSlot(fs, Slot(inum, ROOT)) && RefIn(fs, Slot(inum, ROOT)) == root;
    FreeIsNoRoot(fs, dataStart, owner, {}, b);
    var fs1 := Allocated(fs, b, ZERO_BLOCK);
    var fs' := WithEntry(fs1, root, j, b);
    WordAfterSetWord(fs.blocks[root], j, b, j);
    forall k' | IsSlot(fs, k') && k' != k
      ensures RefIn(fs', k') == RefIn(fs, k') && (k'.s < MAXFILE && RefIn(fs, k') != 0 ==> RefIn(fs, k') != root)
    {
      EntryFrame(fs, dataStart, owner, inum, j, b, k');
    }
    ClaimKeepsOwned(fs, fs', dataStart, owner, {}, k, b);
  }

  lemma EntryFrame(fs: Fs, dataStart: nat, owner: map<nat, Slot>, inum: nat, j: nat, b: nat, k: Slot)
    requires Owned(fs, dataStart, owner, {}) && inum in fs.inodes && 0 < fs.inodes[inum].addrs[NDIRECT] < |fs.blocks|
    requires j < NINDIRECT && b < |fs.blocks| && NoRoot(fs, b) && b < WORD_LIMIT
    requires IsSlot(fs, k) && k != Slot(inum, NDIRECT + j)
    ensures RefIn(WithEntry(Allocated(fs, b, ZERO_BLOCK), fs.inodes[inum].addrs[NDIRECT], j, b), k) == RefIn(fs, k)
    ensures k.s < MAXFILE && RefIn(fs, k) != 0 ==> RefIn(fs, k) != fs.inodes[inum].addrs[NDIRECT]
  {
    var root := fs.inodes[inum].addrs[NDIRECT];
    if k.inum == inum {
      if NDIRECT <= k.s < MAXFILE {
        WordAfterSetWord(fs.blocks[root], j, b, k.s - NDIRECT);
      }
    } else {
      assert IsSlot(fs, Slot(k.inum, ROOT)) && RefIn(fs, Slot(k.inum, ROOT)) == fs.inodes[k.inum].addrs[NDIRECT];
      PointersAreDistinct(fs, dataStart, owner, {}, Slot(inum, ROOT), Slot(k.inum, ROOT));
    }
    PointersAreDistinct(fs, dataStart, owner, {}, Slot(inum, ROOT), if k.s < MAXFILE then k else Slot(inum, 0));
  }

  /** New contents for the block behind data pointer `k`. */
  lemma WriteKeepsOwned(fs: Fs, dataStart: nat, owner: map<nat, Slot>, k: Slot, data: Block)
    requires Owned(fs, dataStart, owner, {}) && IsSlot(fs, k) && k.s < MAXFILE && RefIn(fs, k) != 0
    ensures RefIn(fs, k) < |fs.blocks|
    ensures var fs' := fs.(blocks := fs.blocks[RefIn(fs, k) := data]);
            && Owned(fs', dataStart, owner, {}) && SameExcept(fs, fs', k)
            && RefIn(fs', k) == RefIn(fs, k) && DataOf(fs', k) == data
  {
    var x := RefIn(fs, k);
    DataIsNoRoot(fs, dataStart, owner, {}, k);
    var fs' := fs.(blocks := fs.blocks[x := data]);
    forall k' | IsSlot(fs, k')
      ensures IsSlot(fs', k') && RefIn(fs', k') == RefIn(fs, k') && (k' != k ==> RefIn(fs, k') != x)
    {
      RefsSurvive(fs, x, data, k');
      if k' != k {
        PointersAreDistinct(fs, dataStart, owner, {}, k, k');
      }
    }
  }
}
