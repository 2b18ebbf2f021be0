/** The memory image that exec of part1/exec.c builds from a program's segments. */
module ProgramImage {
  import opened Blocks
  import opened Frames
  import opened AddressSpace

  /** A program header of type LOAD, and what the file holds from its offset on. */
  datatype Segment = Segment(vaddr: Word, filesz: Word, memsz: Word, data: seq<Byte>)

  /** exec's tests on a segment, and a file that is long enough. */
  predicate Sane(s: Segment) {
    s.filesz <= s.memsz && s.vaddr + s.memsz < WORD_LIMIT && s.vaddr % PGSIZE == 0 && s.filesz <= |s.data|
  }

  /** exec maps no page 0, but does not refuse a segment there. */
  predicate AtZero(s: Segment) {
    s.vaddr == 0 && s.filesz > 0
  }

  /** The first segment passes exec's tests and has bytes at address 0, and `free` frames are enough to reach it. */
  predicate StartsAtZero(segs: seq<Segment>, free: nat) {
    && segs != [] && Sane(segs[0]) && AtZero(segs[0]) && segs[0].memsz < KVPN * PGSIZE
    && free >= 2 * Pages(segs[0].memsz)
  }

  /** The highest address behind page 0 and all segments. */
  function ImageEnd(segs: seq<Segment>): (end: nat)
    ensures PGSIZE <= end && forall s | s in segs :: s.vaddr + s.memsz <= end
    ensures end == PGSIZE || exists s :: s in segs && end == s.vaddr + s.memsz
  {
    if segs == [] then PGSIZE
    else
      var s, end := segs[|segs| - 1], ImageEnd(segs[..|segs| - 1]);
      assert segs == segs[..|segs| - 1] + [s];
      if end <= s.vaddr + s.memsz then s.vaddr + s.memsz else end
  }

  lemma ImageEndOf(segs: seq<Segment>, s: Segment)
    ensures ImageEnd(segs + [s]) == Max(ImageEnd(segs), s.vaddr + s.memsz)
  {
    assert (segs + [s])[..|segs|] == segs;
  }

  lemma {:induction false} ImageEndOfSome(segs: seq<Segment>, i: nat)
    requires i <= |segs|
    ensures ImageEnd(segs[..i]) <= ImageEnd(segs)
    decreases |segs| - i
  {
    hide ImageEnd;
    if i < |segs| {
      ImageEndOfSome(segs, i + 1);
      assert segs[..i + 1] == segs[..i] + [segs[i]];
      ImageEndOf(segs[..i], segs[i]);
    } else {
      assert segs[..i] == segs;
    }
  }

  /** Every segment passes exec's tests and ends below KERNBASE, and `free` frames are enough for image and stack. */
  ghost predicate Fits(segs: seq<Segment>, free: int) {
    && (forall s | s in segs :: Sane(s) && !AtZero(s) && s.vaddr + s.memsz < KVPN * PGSIZE)
    && free >= 2 * (Pages(ImageEnd(segs)) - 1 + 2)
  }

  /** What is left when `i` segments are loaded is enough for the next one, and at the end for guard and stack. */
  lemma FitsOn(segs: seq<Segment>, i: nat, free0: nat, free: nat, sz: nat)
    requires Fits(segs, free0) && i <= |segs| && sz == ImageEnd(segs[..i]) && free + 2 * (Pages(sz) - 1) >= free0
    ensures i < |segs| ==> Sane(segs[i]) && !AtZero(segs[i]) && segs[i].vaddr + segs[i].memsz < KVPN * PGSIZE
    ensures i < |segs| ==> free >= 2 * (Pages(segs[i].vaddr + segs[i].memsz) - Pages(sz))
    ensures i == |segs| ==> free >= 4
  {
    ImageEndOfSome(segs, i);
    if i == |segs| {
      assert segs[..i] == segs;
    }
  }

  // ---- Flags ----

  ghost predicate AllUser(m: Mem, d: nat, n: nat) {
    forall v: nat | 1 <= v < n :: PteOf(m, d, v).Present? && PteOf(m, d, v).flags == USER
  }

  /** The last but one of `n` pages is there without PTE_U; all others from page 1 on have the flags of user pages. */
  ghost predicate GuardSet(m: Mem, d: nat, n: nat) {
    && n >= 3
    && forall v: nat | 1 <= v < n ::
         && PteOf(m, d, v).Present?
         && var flags := PteOf(m, d, v).flags;
            if v == n - 2 then flags / PTE_U % 2 == 0 && flags + PTE_U == USER else flags == USER
  }

  lemma AllUserGrows(m: Mem, m': Mem, d: nat, lo: nat, hi: nat)
    requires AllUser(m, d, lo) && SameOutside(m, m', d, lo, hi) && d in m.dirs
    requires forall v: nat | lo <= v < hi :: Fresh(m', d, v)
    ensures AllUser(m', d, hi)
  {
    hide PteOf, Content;
    forall v: nat | 1 <= v < hi
      ensures PteOf(m', d, v).Present? && PteOf(m', d, v).flags == USER
    {
      if v < lo {
        assert SameAt(m, m', d, v);
      } else {
        assert Fresh(m', d, v);
      }
    }
  }

  lemma AllUserSame(m: Mem, m': Mem, d: nat, n: nat)
    requires AllUser(m, d, n) && forall v: nat :: PteOf(m', d, v) == PteOf(m, d, v)
    ensures AllUser(m', d, n)
  {
  }

  lemma GuardIsSet(m: Mem, m': Mem, d: nat, n: nat)
    requires AllUser(m, d, n) && 3 <= n && SameOutside(m, m', d, n - 2, n - 1) && d in m.dirs
    requires PteOf(m', d, n - 2) == Present(PteOf(m, d, n - 2).frame, WithoutUser(PteOf(m, d, n - 2).flags))
    ensures GuardSet(m', d, n)
  {
    hide PteOf, Content;
    forall v: nat | 1 <= v < n && v != n - 2
      ensures PteOf(m', d, v).Present? && PteOf(m', d, v).flags == USER
    {
      assert SameAt(m, m', d, v);
    }
  }

  lemma GuardStays(m: Mem, m': Mem, gone: set<nat>, d: nat, n: nat)
    requires GuardSet(m, d, n) && Kept(m, m', gone) && d in m.dirs && d !in gone
    ensures GuardSet(m', d, n)
  {
    hide PteOf, Content;
    forall v: nat
      ensures PteOf(m', d, v) == PteOf(m, d, v)
    {
      assert SameAt(m, m', d, v);
    }
  }

  /** The byte at address `a`: that of the last segment whose file part covers it, or else 0. */
  function LoadedByte(segs: seq<Segment>, a: nat): (b: Byte)
    requires forall s | s in segs :: s.filesz <= |s.data|
  {
    if segs == [] then 0
    else
      var s := segs[|segs| - 1];
      if s.vaddr <= a < s.vaddr + s.filesz then s.data[a - s.vaddr] else LoadedByte(segs[..|segs| - 1], a)
  }

  ghost predicate PageHas(m: Mem, d: nat, v: nat, segs: seq<Segment>)
    requires forall s | s in segs :: s.filesz <= |s.data|
  {
    WholePage(m, d, v) && forall b: nat | b < PGSIZE :: Content(m, d, v)[b] == LoadedByte(segs, v * PGSIZE + b)
  }

  /** A space of size `sz` with the segments `segs` loaded: pages from 1 on hold their bytes, page 0 is not there. */
  ghost predicate Image(m: Mem, d: nat, sz: nat, segs: seq<Segment>) {
    && (forall s | s in segs :: Sane(s) && !AtZero(s) && s.vaddr + s.memsz <= sz)
    && PteOf(m, d, 0) == Absent && (Pages(sz) <= 1 ==> TableOf(m, d, 0) == 0)
    && forall v: nat | 1 <= v < Pages(sz) :: PageHas(m, d, v, segs)
  }

  lemma ImageStarts(m: Mem, d: nat)
    requires PteOf(m, d, 0) == Absent && TableOf(m, d, 0) == 0
    ensures Image(m, d, PGSIZE, [])
  {
  }

  lemma {:induction false} BeyondIsZero(segs: seq<Segment>, a: nat)
    requires forall s | s in segs :: s.filesz <= |s.data| && s.vaddr + s.filesz <= a
    ensures LoadedByte(segs, a) == 0
  {
    if segs != [] {
      BeyondIsZero(segs[..|segs| - 1], a);
    }
  }

  /** New pages are zero, as are the bytes beyond all segments. */
  lemma ImageGrows(m: Mem, m': Mem, d: nat, sz: nat, newsz: nat, segs: seq<Segment>)
    requires Image(m, d, sz, segs) && PGSIZE <= sz <= newsz && d in m.dirs && Pages(newsz) <= UVPN
    requires SameOutside(m, m', d, Pages(sz), Pages(newsz)) && (Pages(newsz) == Pages(sz) ==> m' == m)
    requires forall v: nat | Pages(sz) <= v < Pages(newsz) :: Fresh(m', d, v)
    ensures Image(m', d, newsz, segs)
  {
    hide PteOf, Content, TableOf;
    assert SameAt(m, m', d, 0);
    forall v: nat | 1 <= v < Pages(newsz)
      ensures PageHas(m', d, v, segs)
    {
      if v < Pages(sz) {
        assert SameAt(m, m', d, v) && PageHas(m, d, v, segs);
      } else {
        assert Fresh(m', d, v);
        forall b: nat | b < PGSIZE
          ensures Content(m', d, v)[b] == LoadedByte(segs, v * PGSIZE + b)
        {
          BeyondIsZero(segs, v * PGSIZE + b);
        }
      }
    }
  }

  /** What loaduvm leaves. */
  lemma ImageLoaded(m: Mem, m': Mem, d: nat, sz: nat, segs: seq<Segment>, s: Segment)
    requires Image(m, d, sz, segs) && Sane(s) && !AtZero(s) && s.vaddr + s.memsz <= sz && d in m.dirs
    requires Pages(sz) <= UVPN && m'.dirs == m.dirs
    requires SameOutside(m, m', d, s.vaddr / PGSIZE, Pages(s.vaddr + s.filesz))
    requires forall v: nat | 1 <= v && s.vaddr <= v * PGSIZE < s.vaddr + s.filesz ::
               && PteOf(m', d, v) == PteOf(m, d, v) && WholePage(m, d, v)
               && Content(m', d, v) == Patched(Content(m, d, v), v, s.vaddr, s.data[..s.filesz])
    ensures Image(m', d, sz, segs + [s])
  {
    hide PteOf, Content;
    assert forall x | x in segs + [s] :: x in segs || x == s;
    assert (segs + [s])[..|segs|] == segs;
    ZeroUntouched(m, m', d, s);
    forall v: nat | 1 <= v < Pages(sz)
      ensures PageHas(m', d, v, segs + [s])
    {
      assert PageHas(m, d, v, segs);
      if !(s.vaddr <= v * PGSIZE < s.vaddr + s.filesz) {
        forall b: nat | b < PGSIZE
          ensures Content(m, d, v)[b] == LoadedByte(segs + [s], v * PGSIZE + b)
        {
          NotCovered(s.vaddr, s.filesz, v, b);
        }
        NotCovered(s.vaddr, s.filesz, v, 0);
        if !(s.vaddr / PGSIZE <= v < Pages(s.vaddr + s.filesz)) {
          assert SameAt(m, m', d, v);
        }
      }
    }
  }

  lemma ZeroUntouched(m: Mem, m': Mem, d: nat, s: Segment)
    requires d in m.dirs && Sane(s) && !AtZero(s) && SameOutside(m, m', d, s.vaddr / PGSIZE, Pages(s.vaddr + s.filesz))
    ensures PteOf(m', d, 0) == PteOf(m, d, 0)
  {
    hide PteOf, Content;
    assert SameAt(m, m', d, 0);
  }

  /** A page that does not start in an aligned segment holds none of its bytes. */
  lemma NotCovered(addr: nat, n: nat, v: nat, b: nat)
    requires addr % PGSIZE == 0 && !(addr <= v * PGSIZE < addr + n) && b < PGSIZE
    ensures !(addr / PGSIZE <= v < Pages(addr + n)) && !(addr <= v * PGSIZE + b < addr + n)
  {
  }

  /** Entries and bytes of pages 1 to the end are what counts. */
  lemma ImageKept(m: Mem, m': Mem, d: nat, sz: nat, segs: seq<Segment>)
    requires Image(m, d, sz, segs) && 1 < Pages(sz) && forall v: nat | v < Pages(sz) :: SameButFlags(m, m', d, v)
    ensures Image(m', d, sz, segs)
  {
    hide PteOf, Content;
    assert SameButFlags(m, m', d, 0);
    forall v: nat | 1 <= v < Pages(sz)
      ensures PageHas(m', d, v, segs)
    {
      assert SameButFlags(m, m', d, v) && PageHas(m, d, v, segs);
    }
  }

  ghost predicate SameButFlags(m: Mem, m': Mem, d: nat, v: nat) {
    (PteOf(m', d, v).Present? <==> PteOf(m, d, v).Present?) && Content(m', d, v) == Content(m, d, v)
  }

  /** The pages of a segment are there to load it into. */
  lemma SegmentPages(m: Mem, d: nat, sz: nat, segs: seq<Segment>, s: Segment)
    requires Image(m, d, sz, segs) && s.vaddr + s.filesz <= sz
    ensures forall v: nat | 1 <= v && s.vaddr <= v * PGSIZE < s.vaddr + s.filesz :: WholePage(m, d, v)
    ensures Pages(sz) > 1 ==> TableOf(m, d, 0) != 0
  {
    hide Content;
    forall v: nat | 1 <= v && s.vaddr <= v * PGSIZE < s.vaddr + s.filesz
      ensures WholePage(m, d, v)
    {
      assert v < Pages(sz) && PageHas(m, d, v, segs);
    }
    if Pages(sz) > 1 {
      assert PageHas(m, d, 1, segs);
    }
  }
}
