/** What itrunc does to ownership, pointer by pointer. */
module FileTruncate {
  import opened Blocks
  import opened Bitmap
  import opened FileBlocks
  import opened FileContents

  function Freed(fs: Fs, b: nat): Fs
    requires b < |fs.used|
  {
    fs.(used := fs.used[b := false])
  }

  /** Blocks of `inum` from slot `from` on; slot ROOT comes last. */
  ghost function Tail(owner: map<nat, Slot>, inum: nat, from: nat): set<nat> {
    set b | b in owner && owner[b].inum == inum && owner[b].s >= from
  }

  ghost function Keep(owner: map<nat, Slot>, inum: nat, from: nat): map<nat, Slot> {
    owner - Tail(owner, inum, from)
  }

  /** Freeing a direct block and clearing its pointer. */
  lemma FreeDirect(fs: Fs, dataStart: nat, owner: map<nat, Slot>, inum: nat, i: nat)
    requires Owned(fs, dataStart, owner, {}) && inum in fs.inodes && i < NDIRECT && fs.inodes[inum].addrs[i] != 0
    ensures var b := fs.inodes[inum].addrs[i];
            b < |fs.used| && fs.used[b] && Owned(WithAddr(Freed(fs, b), inum, i, 0), dataStart, owner - {b}, {})
  {
    var b, k := fs.inodes[inum].addrs[i], Slot(inum, i);
    var mid := WithAddr(fs, inum, i, 0);
    assert IsSlot(fs, k) && RefIn(fs, k) == b;
    forall k' | IsSlot(fs, k') && k' != k
      ensures RefIn(mid, k') == RefIn(fs, k')
    {
    }
    DropKeepsOwned(fs, mid, dataStart, owner, {}, k);
    ReleaseKeepsOwned(mid, dataStart, owner - {b}, {} + {b}, b);
    assert {} + {b} - {b} == {};
    assert Freed(mid, b) == WithAddr(Freed(fs, b), inum, i, 0);
  }

  /** With the indirect block's pointer out of the way, it and its entries await freeing. */
  lemma RootDrop(fs: Fs, dataStart: nat, owner: map<nat, Slot>, inum: nat)
    requires Owned(fs, dataStart, owner, {}) && inum in fs.inodes
    ensures Owned(WithAddr(fs, inum, NDIRECT, 0), dataStart, Keep(owner, inum, NDIRECT), Tail(owner, inum, NDIRECT))
  {
    var fs', owner' := WithAddr(fs, inum, NDIRECT, 0), Keep(owner, inum, NDIRECT);
    forall k | IsSlot(fs', k) && RefIn(fs', k) != 0
      ensures RefIn(fs', k) in owner' && owner'[RefIn(fs', k)] == k
    {
      assert IsSlot(fs, k) && RefIn(fs, k) == RefIn(fs', k);
    }
    forall b | b in owner'
      ensures IsSlot(fs', owner'[b]) && RefIn(fs', owner'[b]) == b
    {
      assert IsSlot(fs, owner[b]) && RefIn(fs, owner[b]) == b;
    }
  }

  /** One entry of the indirect block: it is the next block of the tail, or the tail has none for it. */
  lemma TailStep(fs: Fs, dataStart: nat, owner: map<nat, Slot>, inum: nat, s: nat)
    requires Owned(fs, dataStart, owner, {}) && inum in fs.inodes && s <= ROOT
    ensures var b := RefOf(fs, inum, s);
            if b == 0 then Tail(owner, inum, s + 1) == Tail(owner, inum, s)
            else b in Tail(owner, inum, s) && Tail(owner, inum, s + 1) == Tail(owner, inum, s) - {b}
  {
    var k := Slot(inum, s);
    assert IsSlot(fs, k) && RefOf(fs, inum, s) == RefIn(fs, k);
    forall b | b in owner && owner[b].inum == inum && owner[b].s == s
      ensures b == RefIn(fs, k)
    {
      assert owner[b] == k;
    }
  }

  lemma TailEnds(fs: Fs, dataStart: nat, owner: map<nat, Slot>, inum: nat)
    requires Owned(fs, dataStart, owner, {})
    ensures Tail(owner, inum, ROOT + 1) == {}
  {
    forall b | b in owner
      ensures IsSlot(fs, owner[b])
    {
    }
  }

  /** Blocks untouched, other inodes untouched: only pointers of `inum` may have gone. */
  ghost predicate Shrunk(fs: Fs, fs': Fs, inum: nat) {
    && fs'.blocks == fs.blocks && fs'.inodes.Keys == fs.inodes.Keys
    && forall j | j in fs.inodes && j != inum :: fs'.inodes[j] == fs.inodes[j]
  }

  lemma ShrunkKeepsOthers(fs: Fs, fs': Fs, inum: nat)
    requires Shrunk(fs, fs', inum)
    ensures SameOthers(fs, fs', inum)
  {
  }

  /** The end of itrunc: an empty, consistent file. */
  lemma Emptied(
    fs: Fs, fs': Fs, table: map<nat, Inode>, dataStart: nat, owner: map<nat, Slot>, owner': map<nat, Slot>, inum: nat)
    requires Consistent(fs, table, dataStart, owner) && inum in fs.inodes
    requires Shrunk(fs, fs', inum) && Owned(fs', dataStart, owner', {})
    requires fs'.inodes[inum].size == 0 && fs'.inodes[inum].addrs == Zeroed(NDIRECT + 1)
    ensures Consistent(fs', table[inum := fs'.inodes[inum]], dataStart, owner')
    ensures Readable(fs', inum) && Content(fs', inum) == [] && OthersSame(fs, fs', inum)
  {
    hide Owned, Content, SameOthers;
    ShrunkKeepsOthers(fs, fs', inum);
    SameAsItself(fs, inum);
    OthersFollow(fs, fs, fs', inum);
    assert |Content(fs', inum)| == 0;
    forall k: Slot | k.inum == inum && k.s < MAXFILE
      ensures RefIn(fs', k) == 0
    {
    }
    assert MapOk(fs', inum, 0);
  }

  lemma SameAsItself(fs: Fs, inum: nat)
    ensures SameOthers(fs, fs, inum)
  {
  }

  function Zeroed(n: nat): (z: seq<Word>)
    ensures |z| == n && forall i | 0 <= i < n :: z[i] == 0
  {
    seq(n, _ => 0)
  }

  /** Exactly the indirect entries below `n` are set, and the indirect block is there if any is. */
  ghost predicate EntriesUpTo(fs: Fs, inum: nat, n: nat) {
    && (forall s: nat | NDIRECT <= s < MAXFILE :: RefOf(fs, inum, s) != 0 <==> s < n)
    && (RootOf(fs, inum) != 0 <==> n > NDIRECT) && n <= MAXFILE
  }

  lemma MapEntriesUpTo(fs: Fs, inum: nat, n: nat)
    requires MapOk(fs, inum, n)
    ensures inum in fs.inodes && |fs.inodes[inum].addrs| == NDIRECT + 1
    ensures EntriesUpTo(fs, inum, n) && forall i: nat | i < NDIRECT :: fs.inodes[inum].addrs[i] != 0 <==> i < n
  {
    forall s: nat | s < MAXFILE
      ensures RefOf(fs, inum, s) != 0 <==> s < n
    {
      assert IsSlot(fs, Slot(inum, s)) && RefOf(fs, inum, s) == RefIn(fs, Slot(inum, s));
    }
    forall i: nat | i < NDIRECT
      ensures fs.inodes[inum].addrs[i] != 0 <==> i < n
    {
      assert RefOf(fs, inum, i) == fs.inodes[inum].addrs[i];
    }
  }

  /** Clearing direct pointers leaves the entries. */
  lemma DirectsLeaveEntries(fs: Fs, fs': Fs, inum: nat, n: nat)
    requires EntriesUpTo(fs, inum, n) && inum in fs.inodes && inum in fs'.inodes && fs'.blocks == fs.blocks
    requires |fs.inodes[inum].addrs| == |fs'.inodes[inum].addrs| == NDIRECT + 1
    requires fs'.inodes[inum].addrs[NDIRECT] == fs.inodes[inum].addrs[NDIRECT]
    ensures EntriesUpTo(fs', inum, n)
  {
    forall s: nat | NDIRECT <= s < MAXFILE
      ensures RefOf(fs', inum, s) == RefOf(fs, inum, s)
    {
    }
  }

  /** One bfree of the entry loop. */
  lemma EntryFreed(fs: Fs, v: Fs, dataStart: nat, owner: map<nat, Slot>, inum: nat, s: nat)
    requires Owned(fs, dataStart, owner, {}) && inum in fs.inodes && NDIRECT <= s <= ROOT
    requires Owned(v, dataStart, Keep(owner, inum, NDIRECT), Tail(owner, inum, s))
    ensures var b := RefOf(fs, inum, s);
            if b == 0 then Owned(v, dataStart, Keep(owner, inum, NDIRECT), Tail(owner, inum, s + 1))
            else b < |v.used| && v.used[b]
                 && Owned(Freed(v, b), dataStart, Keep(owner, inum, NDIRECT), Tail(owner, inum, s + 1))
  {
    var b := RefOf(fs, inum, s);
    TailStep(fs, dataStart, owner, inum, s);
    if b != 0 {
      ReleaseKeepsOwned(v, dataStart, Keep(owner, inum, NDIRECT), Tail(owner, inum, s), b);
    }
  }

  /** The first `i` pointers cleared. */
  function Cleared(addrs: seq<Word>, i: nat): (r: seq<Word>)
    requires i <= |addrs|
  {
    Zeroed(i) + addrs[i..]
  }

  lemma ClearedStep(addrs: seq<Word>, i: nat)
    requires i < |addrs|
    ensures Cleared(addrs, 0) == addrs && |Cleared(addrs, i)| == |addrs| && Cleared(addrs, i)[i] == addrs[i]
    ensures Cleared(addrs, i)[i := 0] == Cleared(addrs, i + 1)
  {
  }

  // ---- Making and releasing inodes ----

  const FREE: Inode := Inode(0, 0, 0, 0, 0, Zeroed(NDIRECT + 1))

  lemma EmptyVolume(fs: Fs, dataStart: nat)
    requires 0 < dataStart <= |fs.used| == |fs.blocks| < WORD_LIMIT
    requires forall b | 0 <= b < |fs.used| :: fs.used[b] <==> b < dataStart
    requires forall i | i in fs.inodes :: fs.inodes[i] == FREE
    ensures Consistent(fs, fs.inodes, dataStart, map[])
  {
    forall k | IsSlot(fs, k)
      ensures RefIn(fs, k) == 0
    {
    }
    forall i | i in fs.inodes
      ensures SizeOk(fs, i)
    {
      assert MapOk(fs, i, 0);
    }
  }

  /** An empty file's inode can be set to any other empty one. */
  lemma ReplaceEmpty(fs: Fs, fs': Fs, dataStart: nat, owner: map<nat, Slot>, inum: nat)
    requires Consistent(fs, fs.inodes, dataStart, owner) && inum in fs.inodes && inum in fs'.inodes
             && fs.inodes[inum].size == 0
    requires fs' == fs.(inodes := fs.inodes[inum := fs'.inodes[inum]])
    requires fs'.inodes[inum].size == 0 && fs'.inodes[inum].addrs == Zeroed(NDIRECT + 1)
    ensures Consistent(fs', fs'.inodes, dataStart, owner)
    ensures Readable(fs', inum) && Content(fs', inum) == [] && OthersSame(fs, fs', inum)
  {
    hide FreeCount, Content;
    assert SizeOk(fs, inum);
    MapEntriesUpTo(fs, inum, 0);
    assert fs.inodes[inum].addrs == Zeroed(NDIRECT + 1);
    FieldsKeepOwned(fs, fs', inum, dataStart, owner);
    Emptied(fs, fs', fs.inodes, dataStart, owner, owner, inum);
  }
}
