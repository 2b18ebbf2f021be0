/** The reference-counting checks of part2/linux/fsChecker.c: what they count, and exactly what they accept. */
module ImageChecker {
  import opened Blocks
  import opened Bitmap
  import opened FileBlocks

  /** A file system image; `inodes` is its inode table. */
  datatype Image = Image(size: nat, bmapstart: nat, inodes: seq<Inode>, blocks: seq<Block>)

  ghost predicate Wf(img: Image) {
    && |img.blocks| == img.size && 0 < img.bmapstart && img.bmapstart + img.size / BPB < img.size < WORD_LIMIT
    && forall i | 0 <= i < |img.inodes| :: |img.inodes[i].addrs| == NDIRECT + 1
  }

  ghost predicate InUse(img: Image, k: Slot) {
    k.inum < |img.inodes| && img.inodes[k.inum].kind != 0 && k.s <= ROOT
  }

  ghost function RefAt(img: Image, k: Slot): Word
    requires Wf(img) && k.inum < |img.inodes| && k.s <= ROOT
  {
    Ref(img.blocks, img.inodes[k.inum], k.s)
  }

  /** BBLOCK(size): the lowest address that checkValidAddr takes for a data block. */
  function Lowest(img: Image): (b: nat) {
    img.size / BPB + img.bmapstart
  }

  predicate GoodAddr(img: Image, a: Word) {
    a == 0 || Lowest(img) <= a < img.size
  }

  /** Every pointer of every inode, in use or not, is 0 or in range. */
  ghost predicate AddrsOk(img: Image)
    requires Wf(img)
  {
    forall k: Slot | k.inum < |img.inodes| && k.s <= ROOT :: GoodAddr(img, RefAt(img, k))
  }

  /** The bit of block `b`. */
  predicate IsMarked(img: Image, b: nat)
    requires |img.blocks| == img.size && img.bmapstart + b / BPB < img.size
  {
    Marked(img.blocks[img.bmapstart + b / BPB], b % BPB)
  }

  /** Every data block of an inode in use is marked; an indirect block's own bit is not looked at. */
  ghost predicate DataMarked(img: Image)
    requires Wf(img) && AddrsOk(img)
  {
    forall k | InUse(img, k) && k.s < MAXFILE && RefAt(img, k) != 0 ::
      GoodAddr(img, RefAt(img, k)) && img.bmapstart + RefAt(img, k) / BPB < img.size && IsMarked(img, RefAt(img, k))
  }

  /** The pointers among `done` that name `b`. */
  ghost function Hits(img: Image, done: set<Slot>, b: nat): set<Slot>
    requires Wf(img)
  {
    set k | k in done && InUse(img, k) && RefAt(img, k) == b
  }

  /** All pointers of inodes in use. */
  ghost predicate AllSlots(img: Image, done: set<Slot>) {
    forall k :: k in done <==> InUse(img, k)
  }

  ghost predicate Counted(img: Image, addresses: seq<int>, done: set<Slot>)
    requires Wf(img)
  {
    && |addresses| == img.size && addresses[0] == 0 && (forall k | k in done :: InUse(img, k))
    && forall b | 1 <= b < img.size :: addresses[b] == |Hits(img, done, b)|
  }

  /** Counting one more pointer. */
  lemma CountOne(img: Image, addresses: seq<int>, done: set<Slot>, k: Slot)
    requires Wf(img) && Counted(img, addresses, done) && InUse(img, k) && k !in done && GoodAddr(img, RefAt(img, k))
    ensures var a := RefAt(img, k);
            Counted(img, if a == 0 then addresses else addresses[a := addresses[a] + 1], done + {k})
  {
    var a := RefAt(img, k);
    forall b | 1 <= b < img.size
      ensures |Hits(img, done + {k}, b)| == |Hits(img, done, b)| + if a == b then 1 else 0
    {
      if a == b {
        assert Hits(img, done + {k}, b) == Hits(img, done, b) + {k};
      } else {
        assert Hits(img, done + {k}, b) == Hits(img, done, b);
      }
    }
  }

  // ---- The checks ----

  /** checkValidAddr. */
  method CheckValidAddr(img: Image) returns (ok: bool)
    requires Wf(img)
    ensures ok <==> AddrsOk(img)
  {
    var i := 0;
    while i < |img.inodes|
      invariant i <= |img.inodes|
      invariant forall k: Slot | k.inum < i && k.s <= ROOT :: GoodAddr(img, RefAt(img, k))
    {
      ok := CheckInodeAddrs(img, i);
      if !ok {
        return;
      }
      i := i + 1;
    }
    return true;
  }

  method CheckInodeAddrs(img: Image, i: nat) returns (ok: bool)
    requires Wf(img) && i < |img.inodes|
    ensures ok <==> forall k: Slot | k.inum == i && k.s <= ROOT :: GoodAddr(img, RefAt(img, k))
  {
    var ino := img.inodes[i];
    var j := 0;
    while j < NDIRECT + 1
      invariant j <= NDIRECT + 1 && forall s | 0 <= s < j :: GoodAddr(img, ino.addrs[s])
    {
      if !GoodAddr(img, ino.addrs[j]) {
        assert RefAt(img, Slot(i, if j < NDIRECT then j else ROOT)) == ino.addrs[j];
        return false;
      }
      j := j + 1;
    }
    if ino.addrs[NDIRECT] != 0 {
      var bp := img.blocks[ino.addrs[NDIRECT]];
      j := 0;
      while j < NINDIRECT
        invariant j <= NINDIRECT && forall s | 0 <= s < j :: GoodAddr(img, WordAt(bp, s))
      {
        if !GoodAddr(img, WordAt(bp, j)) {
          assert RefAt(img, Slot(i, NDIRECT + j)) == WordAt(bp, j);
          return false;
        }
        j := j + 1;
      }
    }
    forall k: Slot | k.inum == i && k.s <= ROOT
      ensures GoodAddr(img, RefAt(img, k))
    {
    }
    return true;
  }

  /** getBit. */
  method GetBit(img: Image, addr: Word) returns (b: bool)
    requires Wf(img) && addr < img.size
    ensures img.bmapstart + addr / BPB < img.size && b == IsMarked(img, addr)
  {
    var buf := img.blocks[img.bmapstart + addr / BPB];
    var index, shift := addr % BPB / 8, addr % 8;
    assert addr % 8 == addr % BPB % 8;
    b := BitOf(buf[index], shift) == 1;
  }

  /** checkBitmap's counting of one pointer: true if its block is marked or it is 0. */
  method CountPointer(img: Image, addresses: array<int>, a: Word, ghost done: set<Slot>, ghost k: Slot)
    returns (ok: bool)
    requires Wf(img) && AddrsOk(img) && Counted(img, addresses[..], done)
    requires InUse(img, k) && k !in done && RefAt(img, k) == a
    modifies addresses
    ensures Counted(img, addresses[..], done + {k})
    ensures ok <==> a == 0 || (img.bmapstart + a / BPB < img.size && IsMarked(img, a))
  {
    hide Counted, Ref;
    CountOne(img, addresses[..], done, k);
    ok := true;
    if a != 0 {
      LengthOf(img, addresses[..], done);
      addresses[a] := addresses[a] + 1;
      assert addresses[..] == old(addresses[..])[a := old(addresses[a]) + 1];
      ok := GetBit(img, a);
    }
  }

  lemma LengthOf(img: Image, addresses: seq<int>, done: set<Slot>)
    requires Wf(img) && Counted(img, addresses, done)
    ensures |addresses| == img.size
  {
  }

  /** The slots that belong to inode `i`, from the first direct one up to `s`. */
  ghost predicate UpTo(done: set<Slot>, i: nat, s: nat) {
    && (forall k | k in done :: k.inum < i || (k.inum == i && k.s < s))
    && (forall k: Slot | k.inum == i && k.s < s :: k in done)
  }

  ghost predicate SlotMarked(img: Image, k: Slot)
    requires Wf(img)
  {
    InUse(img, k) && RefAt(img, k) != 0 ==>
      img.bmapstart + RefAt(img, k) / BPB < img.size && IsMarked(img, RefAt(img, k))
  }

  /** The direct pointers of inode `i`. */
  method CountDirect(img: Image, addresses: array<int>, i: nat, ghost before: set<Slot>)
    returns (ok: bool, ghost done: set<Slot>)
    requires Wf(img) && AddrsOk(img) && Counted(img, addresses[..], before) && UpTo(before, i, 0)
    requires i < |img.inodes| && img.inodes[i].kind != 0
    modifies addresses
    ensures Counted(img, addresses[..], done) && before <= done
    ensures ok ==> (forall k :: k in done <==> k in before || (k.inum == i && k.s < NDIRECT))
    ensures ok <==> forall s: nat | s < NDIRECT :: SlotMarked(img, Slot(i, s))
  {
    hide Counted;
    ok, done := true, before;
    var j: nat := 0;
    while j < NDIRECT
      invariant j <= NDIRECT && Counted(img, addresses[..], done)
      invariant forall k :: k in done <==> k in before || (k.inum == i && k.s < j)
      invariant forall s: nat | s < j :: SlotMarked(img, Slot(i, s))
    {
      ghost var k := Slot(i, j);
      ok := CountPointer(img, addresses, img.inodes[i].addrs[j], done, k);
      done := done + {k};
      assert ok <==> SlotMarked(img, k);
      if !ok {
        return;
      }
      j := j + 1;
    }
  }

  /** The indirect block of inode `i` and its entries. */
  method CountIndirect(img: Image, addresses: array<int>, i: nat, ghost before: set<Slot>)
    returns (ok: bool, ghost done: set<Slot>)
    requires Wf(img) && AddrsOk(img) && Counted(img, addresses[..], before)
    requires i < |img.inodes| && img.inodes[i].kind != 0 && forall k | k in before && k.inum == i :: k.s < NDIRECT
    modifies addresses
    ensures Counted(img, addresses[..], done) && before <= done
    ensures ok ==> (forall k :: k in done <==> k in before || (k.inum == i && NDIRECT <= k.s <= ROOT))
    ensures ok <==> forall s: nat | NDIRECT <= s < MAXFILE :: SlotMarked(img, Slot(i, s))
  {
    hide Counted;
    var root := img.inodes[i].addrs[NDIRECT];
    ghost var k := Slot(i, ROOT);
    assert RefAt(img, k) == root && GoodAddr(img, root);
    CountOne(img, addresses[..], before, k);
    done := before + {k};
    if root == 0 {
      done := AddUnset(img, addresses[..], done, i);
      return true, done;
    }
    LengthOf(img, addresses[..], before);
    addresses[root] := addresses[root] + 1;
    assert addresses[..] == old(addresses[..])[root := old(addresses[root]) + 1];
    var bp := img.blocks[root];
    ok := true;
    var j: nat := 0;
    while j < NINDIRECT
      invariant j <= NINDIRECT && Counted(img, addresses[..], done)
      invariant forall k :: k in done <==> k in before || (k.inum == i && (NDIRECT <= k.s < NDIRECT + j || k.s == ROOT))
      invariant forall s: nat | NDIRECT <= s < NDIRECT + j :: SlotMarked(img, Slot(i, s))
    {
      k := Slot(i, NDIRECT + j);
      ok := CountPointer(img, addresses, WordAt(bp, j), done, k);
      done := done + {k};
      assert ok <==> SlotMarked(img, k);
      if !ok {
        return;
      }
      j := j + 1;
    }
  }

  /** Entries of an absent indirect block are 0 and count for nothing. */
  ghost method AddUnset(img: Image, addresses: seq<int>, before: set<Slot>, i: nat) returns (done: set<Slot>)
    requires Wf(img) && Counted(img, addresses, before) && i < |img.inodes| && img.inodes[i].kind != 0
    requires img.inodes[i].addrs[NDIRECT] == 0 && forall k | k in before && k.inum == i :: k.s < NDIRECT || k.s == ROOT
    ensures Counted(img, addresses, done)
    ensures forall k :: k in done <==> k in before || (k.inum == i && NDIRECT <= k.s < MAXFILE)
  {
    hide Counted;
    done := before;
    var j: nat := NDIRECT;
    while j < MAXFILE
      invariant NDIRECT <= j <= MAXFILE && Counted(img, addresses, done)
      invariant forall k :: k in done <==> k in before || (k.inum == i && NDIRECT <= k.s < j)
    {
      CountOne(img, addresses, done, Slot(i, j));
      done := done + {Slot(i, j)};
      j := j + 1;
    }
  }

  /** checkBitmap: counts every pointer of every inode in use; -1 exactly if a data block is not marked. */
  method CheckBitmap(img: Image, addresses: array<int>) returns (ok: bool)
    requires Wf(img) && AddrsOk(img) && addresses.Length == img.size
    requires forall b | 0 <= b < img.size :: addresses[b] == 0
    modifies addresses
    ensures ok <==> DataMarked(img)
    ensures ok ==> exists done :: AllSlots(img, done) && Counted(img, addresses[..], done)
  {
    ghost var done: set<Slot> := {};
    assert Counted(img, addresses[..], done) by {
      assert forall b: nat :: Hits(img, {}, b) == {};
    }
    hide Counted;
    var i: nat := 0;
    while i < |img.inodes|
      invariant i <= |img.inodes| && Counted(img, addresses[..], done)
      invariant forall k :: k in done <==> InUse(img, k) && k.inum < i
      invariant forall k: Slot | k.inum < i && k.s < MAXFILE :: SlotMarked(img, k)
    {
      if img.inodes[i].kind != 0 {
        ghost var done1, done2;
        ok, done1 := CountDirect(img, addresses, i, done);
        if !ok {
          UnmarkedData(img, i);
          return;
        }
        ok, done2 := CountIndirect(img, addresses, i, done1);
        if !ok {
          UnmarkedData(img, i);
          return;
        }
        done := done2;
      }
      i := i + 1;
    }
    assert AllSlots(img, done);
    return true;
  }

  lemma UnmarkedData(img: Image, i: nat)
    requires Wf(img) && AddrsOk(img) && i < |img.inodes| && exists s: nat :: s < MAXFILE && !SlotMarked(img, Slot(i, s))
    ensures !DataMarked(img)
  {
    var s: nat :| s < MAXFILE && !SlotMarked(img, Slot(i, s));
    assert InUse(img, Slot(i, s));
  }

  /** A marked block above the bitmap, with its bit in the first bitmap block, that no counter has seen. */
  ghost predicate Unseen(img: Image, addresses: seq<int>, b: nat)
    requires Wf(img) && |addresses| == img.size
  {
    img.bmapstart < b < img.size && b < BPB && Marked(img.blocks[img.bmapstart], b) && addresses[b] == 0
  }

  datatype Scan = AllSeen | SomeUnseen | Overrun

  /** checkUsedBlock; it has the first bitmap block only, and reads past that buffer if the image is larger. */
  method CheckUsedBlock(img: Image, addresses: array<int>) returns (r: Scan)
    requires Wf(img) && addresses.Length == img.size
    ensures r == SomeUnseen <==> exists b: nat :: Unseen(img, addresses[..], b)
    ensures r == Overrun <==> img.size > BPB && forall b: nat :: !Unseen(img, addresses[..], b)
  {
    var buf := img.blocks[img.bmapstart];
    var i := img.bmapstart + 1;
    while i < img.size
      invariant img.bmapstart < i <= img.size && (i <= BPB || i == img.bmapstart + 1)
      invariant forall b: nat | b < i :: !Unseen(img, addresses[..], b)
    {
      if i >= BPB {
        return Overrun;
      }
      if BitOf(buf[i / 8], i % 8) == 1 {
        if addresses[i] == 0 {
          assert Unseen(img, addresses[..], i);
          return SomeUnseen;
        }
      }
      i := i + 1;
    }
    return AllSeen;
  }

  /** checkUsedTimes. */
  method CheckUsedTimes(img: Image, addresses: array<int>) returns (ok: bool)
    requires addresses.Length == img.size
    ensures ok <==> forall b | 0 <= b < img.size :: addresses[b] <= 1
  {
    var i := 0;
    while i < img.size
      invariant 0 <= i <= img.size && forall b | 0 <= b < i :: addresses[b] <= 1
    {
      if addresses[i] > 1 {
        return false;
      }
      i := i + 1;
    }
    return true;
  }

  // ---- All four checks ----

  /** Every block above the bitmap that the first bitmap block marks is named by a pointer. */
  ghost predicate MarkedUsed(img: Image)
    requires Wf(img)
  {
    forall b: nat | img.bmapstart < b < img.size && b < BPB && Marked(img.blocks[img.bmapstart], b) ::
      exists k :: Names(img, k, b)
  }

  ghost predicate Names(img: Image, k: Slot, b: nat)
    requires Wf(img)
  {
    InUse(img, k) && RefAt(img, k) == b
  }

  /** No block is named by two pointers. */
  ghost predicate Exclusive(img: Image)
    requires Wf(img)
  {
    forall k, k', b: nat | b != 0 && Names(img, k, b) && Names(img, k', b) :: k == k'
  }

  ghost predicate Clean(img: Image)
    requires Wf(img)
  {
    AddrsOk(img) && DataMarked(img) && MarkedUsed(img) && Exclusive(img)
  }

  lemma HitsDecide(img: Image, done: set<Slot>, b: nat)
    requires Wf(img) && AllSlots(img, done)
    ensures Hits(img, done, b) != {} <==> exists k :: Names(img, k, b)
    ensures |Hits(img, done, b)| <= 1 <==> forall k, k' | Names(img, k, b) && Names(img, k', b) :: k == k'
  {
    var hits := Hits(img, done, b);
    assert forall k :: k in hits <==> Names(img, k, b);
    if hits != {} {
      var k :| k in hits;
      var others := hits - {k};
      assert hits == others + {k};
      if others != {} {
        var k' :| k' in others;
        assert Names(img, k, b) && Names(img, k', b) && k != k';
      } else {
        assert forall k' | Names(img, k', b) :: k' == k;
      }
    }
  }

  lemma CountsDecide(img: Image, addresses: seq<int>, done: set<Slot>)
    requires Wf(img) && AddrsOk(img) && AllSlots(img, done) && Counted(img, addresses, done)
    ensures forall b: nat | 1 <= b < img.size :: addresses[b] != 0 <==> exists k :: Names(img, k, b)
    ensures (forall b: nat | b < img.size :: addresses[b] <= 1) <==> Exclusive(img)
  {
    hide RefAt;
    forall b: nat | 1 <= b < img.size
      ensures addresses[b] != 0 <==> exists k :: Names(img, k, b)
      ensures addresses[b] <= 1 <==> forall k, k' | Names(img, k, b) && Names(img, k', b) :: k == k'
    {
      HitsDecide(img, done, b);
      assert addresses[b] == |Hits(img, done, b)|;
    }
    if forall b: nat | b < img.size :: addresses[b] <= 1 {
      forall k, k', b: nat | b != 0 && Names(img, k, b) && Names(img, k', b)
        ensures k == k'
      {
        assert GoodAddr(img, RefAt(img, k));
        assert addresses[b] <= 1;
      }
    }
  }

  datatype Verdict = Passed | BadAddress | MarkedFree | MarkedUnused | UsedTwice | Overran

  /**
   The four checks in the checker's order: they pass exactly the clean images that one bitmap block covers, report the
   first thing wrong with the others, and read past a buffer on a larger image in which they have found nothing yet.
   */
  method Check(img: Image) returns (v: Verdict)
    requires Wf(img)
    ensures v == Passed <==> Clean(img) && img.size <= BPB
    ensures v == BadAddress <==> !AddrsOk(img)
    ensures v == MarkedFree <==> AddrsOk(img) && !DataMarked(img)
    ensures v == MarkedUnused <==> AddrsOk(img) && DataMarked(img) && !MarkedUsed(img)
    ensures v == Overran <==> AddrsOk(img) && DataMarked(img) && MarkedUsed(img) && img.size > BPB
  {
    hide Counted, AllSlots, RefAt;
    var ok := CheckValidAddr(img);
    if !ok {
      return BadAddress;
    }
    var addresses := new int[img.size](_ => 0);
    ok := CheckBitmap(img, addresses);
    if !ok {
      return MarkedFree;
    }
    ghost var done :| AllSlots(img, done) && Counted(img, addresses[..], done);
    CountsDecide(img, addresses[..], done);
    forall b: nat | b < img.size
      ensures addresses[..][b] == addresses[b]
    {
    }
    var r := CheckUsedBlock(img, addresses);
    UnseenDecides(img, addresses[..]);
    if r == SomeUnseen {
      return MarkedUnused;
    } else if r == Overrun {
      return Overran;
    }
    ok := CheckUsedTimes(img, addresses);
    if !ok {
      return UsedTwice;
    }
    forall b: nat | b < img.size
      ensures addresses[..][b] <= 1
    {
    }
    return Passed;
  }

  lemma UnseenDecides(img: Image, addresses: seq<int>)
    requires Wf(img) && |addresses| == img.size
    requires forall b: nat | 1 <= b < img.size :: addresses[b] != 0 <==> exists k :: Names(img, k, b)
    ensures MarkedUsed(img) <==> forall b: nat :: !Unseen(img, addresses, b)
  {
    forall b: nat | img.bmapstart < b < img.size && b < BPB && Marked(img.blocks[img.bmapstart], b)
      ensures Unseen(img, addresses, b) <==> !exists k :: Names(img, k, b)
    {
    }
  }

  /**
   A clean image may still have a file that owns the bitmap block: the lowest accepted address is one too low. Here
   blocks 0 to 4 are boot block, superblock, inodes, bitmap and data, and the file's one pointer names block 3.
   */
  lemma BitmapBlockPasses()
    ensures var bitmap := ZERO_BLOCK[0 := 15];
            var file := Inode(2, 0, 0, 1, 1, [3] + Zeros(NDIRECT));
            var img := Image(5, 3, [file], [ZERO_BLOCK, ZERO_BLOCK, ZERO_BLOCK, bitmap, ZERO_BLOCK]);
            Wf(img) && Clean(img) && img.size <= BPB && RefAt(img, Slot(0, 0)) == img.bmapstart
  {
    var bitmap := ZERO_BLOCK[0 := 15];
    var file := Inode(2, 0, 0, 1, 1, [3] + Zeros(NDIRECT));
    var img := Image(5, 3, [file], [ZERO_BLOCK, ZERO_BLOCK, ZERO_BLOCK, bitmap, ZERO_BLOCK]);
    assert BitOf(15, 3) == 1 && BitOf(15, 4) == 0;
    forall k: Slot | k.inum < 1 && k.s <= ROOT
      ensures RefAt(img, k) == if k.s == 0 then 3 else 0
    {
    }
  }
}
