/** kalloc, kfree and the address-space operations of part1/vm.c. */
module AddressSpace {
  import opened Blocks
  import opened Frames

  const PGSIZE: nat := 4096
  const USER := 6                          // PTE_W | PTE_U
  const PTE_U := 4
  const PHYSPAGES: nat := 0xE000           // PHYSTOP / PGSIZE
  const SHARED_SLOT: nat := 511            // the directory slot of the shared pages

  /** PGROUNDUP in pages. */
  function Pages(sz: nat): (n: nat) {
    (sz + PGSIZE - 1) / PGSIZE
  }

  function NoTables(): (r: seq<nat>)
    ensures |r| == NPDE && forall i | 0 <= i < NPDE :: r[i] == 0
  {
    seq(NPDE, _ => 0)
  }

  function NoEntries(): (r: seq<Pte>)
    ensures |r| == NPDE && forall i | 0 <= i < NPDE :: r[i] == Absent
  {
    seq(NPDE, _ => Absent)
  }

  /** A row of the kernel's map: `count` pages from page `v`, at frame `frame`. */
  datatype Range = Range(v: nat, count: nat, frame: nat, flags: int)

  /** How mappages of one page ends; Remap is the panic. */
  datatype MapResult = Mapped | NoMemory | Remap

  /** How allocuvm ends: the new size, 0, the panic, or a shared frame put on the free list. */
  datatype AllocResult = Grown(sz: nat) | Failed | Panicked | LostShared

  class Vm {
    const sm: seq<nat>                     // sm_addr
    const kmap: seq<Range>
    ghost const frames: set<nat>           // all there are
    var m: Mem
    ghost var owner: map<nat, Use>

    /** Every frame there is has one use; those in `loose` are in use elsewhere. */
    ghost predicate Valid(loose: set<nat>)
      reads this
    {
      Owned(m, owner, sm, loose) && owner.Keys == frames && |frames| <= PHYSPAGES
    }

    /** After kinit and shmem_init: the shared pages are taken, all other frames are free. */
    constructor (frames: seq<nat>, sm: seq<nat>, kmap: seq<Range>)
      requires |sm| == NSHARE && NoDup(frames + sm) && 0 !in frames + sm && |frames + sm| <= PHYSPAGES && KmapOk(kmap)
      ensures Valid({}) && this.sm == sm && this.kmap == kmap && m.free == frames && m.dirs == map[]
      ensures this.frames == AsSet(frames + sm)
    {
      this.sm, this.kmap := sm, kmap;
      this.frames := AsSet(frames + sm);
      m := Mem(frames, map[], map[], map[]);
      owner := Booted(frames, sm);
      new;
      hide Owned;
      BootIsOwned(frames, sm);
      AsSetSize(frames + sm);
    }

    /** The first frame of the free list, 0 if it is empty. */
    method Kalloc(ghost loose: set<nat>) returns (f: nat)
      requires Valid(loose)
      modifies this
      ensures f == 0 <==> old(m.free) == []
      ensures f == 0 ==> m == old(m) && owner == old(owner)
      ensures f != 0 ==> Valid(loose + {f}) && f !in loose && SameOutside(old(m), m, 0, 0, 0)
      ensures f != 0 ==> f == old(m.free)[0] && m == old(m).(free := old(m.free)[1..])
    {
      hide Owned, SameOutside;
      if m.free == [] {
        return 0;
      }
      f := m.free[0];
      TakeFrame(m, owner, sm, loose);
      FreeListUnseen(m, m.free[1..]);
      m := m.(free := m.free[1..]);
      owner := owner[f := Loose];
    }

    /** The frame goes to the front of the list, filled with ones. */
    method Kfree(f: nat, ghost loose: set<nat>)
      requires Valid(loose) && f in loose
      modifies this
      ensures Valid(loose - {f}) && SameOutside(old(m), m, 0, 0, 0)
      ensures m.free == [f] + old(m.free) && m.dirs == old(m.dirs) && m.tabs == old(m.tabs)
    {
      hide Owned, SameOutside;
      ghost var m0 := m;
      LooseUse(m, owner, sm, loose, f);
      FillPage(f, Ones(), loose);
      ghost var m1 := m;
      GiveFrame(m, owner, sm, loose, f);
      FreeListUnseen(m, [f] + m.free);
      m := m.(free := [f] + m.free);
      owner := owner[f := Free];
      SameThen(m0, m1, m, 0, 0, 0, 0, 0);
    }

    /** memset or memmove of a whole loose frame. */
    method FillPage(f: nat, data: Page, ghost loose: set<nat>)
      requires Valid(loose) && f in loose
      modifies this`m
      ensures Valid(loose) && SameOutside(old(m), m, 0, 0, 0) && m == old(m).(pages := old(m.pages)[f := data])
    {
      LooseUse(m, owner, sm, loose, f);
      hide Owned, SameOutside;
      UnseenPage(m, owner, sm, loose, f, m.pages[f := data]);
      m := m.(pages := m.pages[f := data]);
    }

    /** walkpgdir: fails exactly if the table is not there and is not wanted or cannot be had. */
    method Walkpgdir(d: nat, v: nat, alloc: bool, ghost loose: set<nat>) returns (ok: bool)
      requires Valid(loose) && d in m.dirs && v < NVPN
      modifies this
      ensures Valid(loose) && SameOutside(old(m), m, 0, 0, 0) && m.pages == old(m.pages)
      ensures ok <==> TableOf(old(m), d, v / NPDE) != 0 || (alloc && old(m.free) != [])
      ensures ok ==> TableOf(m, d, v / NPDE) != 0 && Slots(m, d) == Slots(old(m), d) + {v / NPDE}
      ensures if ok && TableOf(old(m), d, v / NPDE) == 0 then m.free == old(m.free)[1..] else m == old(m)
    {
      hide Owned, SameOutside;
      SameSelf(m);
      if TableOf(m, d, v / NPDE) != 0 {
        return true;
      }
      if !alloc {
        return false;
      }
      var f := Kalloc(loose);
      if f == 0 {
        return false;
      }
      ghost var mid := m;
      LooseUse(m, owner, sm, loose + {f}, f);
      NewTable(m, owner, sm, loose + {f}, d, v / NPDE, f, NoEntries());
      TableUnseen(m, owner, sm, loose + {f}, d, v / NPDE, f, NoEntries());
      m := WithTable(m, d, v / NPDE, f, NoEntries());
      owner := owner[f := Table(d, v / NPDE)];
      assert loose + {f} - {f} == loose;
      SameThen(old(m), mid, m, 0, 0, 0, 0, 0);
      return true;
    }

    /**
     mappages of one private page: panics exactly if the entry is present, fails exactly without memory for a table.
     */
    method MapUser(d: nat, v: nat, f: nat, flags: int, ghost loose: set<nat>) returns (r: MapResult)
      requires Valid(loose) && f in loose && d in m.dirs && v < UVPN
      modifies this
      ensures r == Remap <==> PteOf(old(m), d, v).Present?
      ensures r == NoMemory <==> TableOf(old(m), d, v / NPDE) == 0 && old(m.free) == []
      ensures r == Mapped ==>
                && Valid(loose - {f}) && SameOutside(old(m), m, d, v, v + 1)
                && PteOf(m, d, v) == Present(f, flags)
      ensures r == Mapped ==> Taken(old(m), m, d, v) && |m.free| == |old(m.free)| - TableCost(old(m), d, v)
      ensures r != Mapped ==> Valid(loose) && m == old(m)
      ensures m.pages == old(m.pages)
    {
      hide Owned, SameOutside, PteOf, Slots, Taken;
      AbsentWithoutTable(m, d, v);
      var ok := Walkpgdir(d, v, true, loose);
      if !ok {
        return NoMemory;
      }
      SameHere(old(m), m, d, v);
      if PteOf(m, d, v).Present? {
        return Remap;
      }
      ghost var mid := m;
      WalkTakes(old(m), mid, d, v);
      LooseUse(m, owner, sm, loose, f);
      MapPrivate(m, owner, sm, loose, d, v, f, flags);
      PteSeen(m, owner, sm, loose, d, v, Present(f, flags));
      m := WithPte(m, d, v, Present(f, flags));
      owner := owner[f := Private(d, v)];
      SameThenOther(old(m), mid, m, d, v, v + 1);
      TakenKept(old(m), mid, m, d, v);
      return Mapped;
    }

    /** mappages of one kernel page or one shared page. */
    method MapOther(d: nat, v: nat, e: Pte, ghost loose: set<nat>) returns (r: MapResult)
      requires Valid(loose) && d in m.dirs && UVPN <= v < NVPN && e.Present?
      requires |sm| == NSHARE && (v < KVPN ==> e.frame == sm[KVPN - 1 - v])
      modifies this
      ensures Valid(loose) && m.pages == old(m.pages)
      ensures r == Remap <==> PteOf(old(m), d, v).Present?
      ensures r == NoMemory <==> TableOf(old(m), d, v / NPDE) == 0 && old(m.free) == []
      ensures r == Mapped ==> SameOutside(old(m), m, d, v, v + 1) && PteOf(m, d, v) == e && Taken(old(m), m, d, v)
      ensures r != Mapped ==> m == old(m)
    {
      hide Owned, SameOutside, PteOf, Slots, Taken;
      AbsentWithoutTable(m, d, v);
      var ok := Walkpgdir(d, v, true, loose);
      if !ok {
        return NoMemory;
      }
      SameHere(old(m), m, d, v);
      if PteOf(m, d, v).Present? {
        return Remap;
      }
      ghost var mid := m;
      WalkTakes(old(m), mid, d, v);
      MapUnowned(m, owner, sm, loose, d, v, e);
      PteSeen(m, owner, sm, loose, d, v, e);
      m := WithPte(m, d, v, e);
      SameThenOther(old(m), mid, m, d, v, v + 1);
      TakenKept(old(m), mid, m, d, v);
      return Mapped;
    }

    /** clearpteu: panics exactly if there is no table; the page keeps its frame and its bytes. */
    method Clearpteu(d: nat, v: nat, ghost loose: set<nat>) returns (panicked: bool)
      requires Valid(loose) && d in m.dirs && v < UVPN
      modifies this
      ensures Valid(loose) && (panicked <==> TableOf(old(m), d, v / NPDE) == 0) && m.free == old(m.free)
      ensures panicked || !PteOf(old(m), d, v).Present? ==> m == old(m)
      ensures !panicked && PteOf(old(m), d, v).Present? ==>
                && SameOutside(old(m), m, d, v, v + 1) && Content(m, d, v) == Content(old(m), d, v)
                && PteOf(m, d, v) == Present(PteOf(old(m), d, v).frame, WithoutUser(PteOf(old(m), d, v).flags))
    {
      hide Owned, SameOutside, PteOf;
      var ok := Walkpgdir(d, v, false, loose);
      if !ok {
        return true;
      }
      var e := PteOf(m, d, v);
      if e.Present? {
        FlagsKeepOwned(m, owner, sm, loose, d, v, WithoutUser(e.flags));
        PteSeen(m, owner, sm, loose, d, v, Present(e.frame, WithoutUser(e.flags)));
        m := WithPte(m, d, v, Present(e.frame, WithoutUser(e.flags)));
      }
      return false;
    }

    /** One private page of deallocuvm's loop: its frame, if it has one, goes on the free list. */
    method FreePage(d: nat, v: nat, ghost loose: set<nat>)
      requires Valid(loose) && d in m.dirs && v < UVPN && TableOf(m, d, v / NPDE) != 0
      modifies this
      ensures Valid(loose) && SameOutside(old(m), m, d, v, v + 1) && PteOf(m, d, v) == Absent
      ensures m.free == (if PteOf(old(m), d, v).Present? then [PteOf(old(m), d, v).frame] else []) + old(m.free)
      ensures m.dirs == old(m.dirs)
    {
      hide Owned, SameOutside;
      var e := PteOf(m, d, v);
      if e.Present? {
        UnmapPrivate(m, owner, sm, loose, d, v);
        PteSeen(m, owner, sm, loose, d, v, Absent);
        m := WithPte(m, d, v, Absent);
        owner := owner[e.frame := Loose];
        ghost var mid := m;
        Kfree(e.frame, loose + {e.frame});
        assert loose + {e.frame} - {e.frame} == loose;
        SameThenNone(old(m), mid, m, d, v, v + 1);
      } else {
        SameSelf(m);
        Widen(m, m, d, v, v + 1);
        assert [] + m.free == m.free;
      }
    }

    /**
     deallocuvm: all pages between the two sizes go to the free list; whole absent tables are skipped. If the range
     reaches a shared page that is mapped, its frame goes there too, and `lost` says so.
     */
    method Deallocuvm(d: nat, oldsz: nat, newsz: nat, ghost loose: set<nat>) returns (r: nat, lost: bool)
      requires Valid(loose) && d in m.dirs && oldsz <= KVPN * PGSIZE
      modifies this
      ensures lost <==> newsz < oldsz && !Clear(old(m), d, Max(UVPN, Pages(newsz)), Pages(oldsz))
      ensures lost ==> exists n: nat :: n < NSHARE && n < |sm| && sm[n] in m.free
      ensures !lost ==> Valid(loose) && r == (if newsz >= oldsz then oldsz else newsz) && m.dirs == old(m.dirs)
      ensures newsz >= oldsz ==> m == old(m)
      ensures !lost && newsz < oldsz ==>
                && SameOutside(old(m), m, d, Pages(newsz), Pages(oldsz)) && Clear(m, d, Pages(newsz), Pages(oldsz))
                && Released(old(m), m, d, Pages(newsz), Pages(oldsz)) && |m.free| >= |old(m.free)|
    {
      hide Owned, SameOutside, PteOf, Clear, Released;
      lost := false;
      if newsz >= oldsz {
        return oldsz, false;
      }
      ghost var m0, lo, hi := m, Pages(newsz), Pages(oldsz);
      SameSelf(m);
      Widen(m, m, d, lo, hi);
      DeallocStarts(m, d, lo);
      ClearNone(m, d, Max(UVPN, lo), lo);
      var a := Pages(newsz);
      while a * PGSIZE < oldsz
        invariant lo <= a && Valid(loose) && SameOutside(m0, m, d, lo, hi) && d in m.dirs && m.dirs == m0.dirs
        invariant Clear(m, d, lo, Min(a, hi)) && Released(m0, m, d, lo, Min(a, hi)) && Pending(m0, m, d, Min(a, hi))
        invariant Clear(m0, d, Max(UVPN, lo), Min(a, hi)) && |m.free| >= |m0.free|
        decreases hi - a
      {
        ghost var mid := m;
        var there := Walkpgdir(d, a, false, loose);
        if !there {
          SkippedAbsent(m, d, a);
          DeallocSkips(m0, m, d, lo, hi, a);
          a := (a / NPDE + 1) * NPDE;
        } else if a < UVPN {
          FreePage(d, a, loose);
          StepInside(m0, mid, m, d, lo, hi, a);
          DeallocSteps(m0, mid, m, d, lo, hi, a);
          a := a + 1;
        } else {
          PendingHere(m0, m, d, a);
          var e := PteOf(m, d, a);
          if e.Present? {
            SharedHere(m, owner, sm, loose, d, a);
            m := m.(free := [e.frame] + m.free);
            assert m.free[0] == sm[KVPN - 1 - a];
            NotClear(m0, d, Max(UVPN, lo), hi, a);
            return 0, true;
          }
          DeallocSees(m0, m, d, lo, hi, a);
          a := a + 1;
        }
      }
      return newsz, false;
    }

    /** A new private page with the given bytes; a frame that cannot be mapped is left to the caller. */
    method AddPage(d: nat, v: nat, data: Page, flags: int, ghost loose: set<nat>) returns (f: nat, r: MapResult)
      requires Valid(loose) && d in m.dirs && v < UVPN
      modifies this
      ensures f == 0 <==> old(m.free) == []
      ensures f == 0 ==> r == NoMemory && m == old(m) && Valid(loose)
      ensures r == NoMemory <==> |old(m.free)| < 1 + TableCost(old(m), d, v)
      ensures r == Mapped ==> |m.free| == |old(m.free)| - 1 - TableCost(old(m), d, v)
      ensures r == Remap <==> f != 0 && PteOf(old(m), d, v).Present?
      ensures f != 0 && r != Mapped ==> f !in loose && Valid(loose + {f})
      ensures r != Mapped ==> SameOutside(old(m), m, 0, 0, 0) && m.dirs == old(m.dirs)
      ensures f != 0 && r != Mapped ==> |m.free| == |old(m.free)| - 1
      ensures r == Mapped ==> Valid(loose) && SameOutside(old(m), m, d, v, v + 1)
      ensures r == Mapped ==> f != 0 && PteOf(m, d, v) == Present(f, flags) && Content(m, d, v) == data
      ensures r == Mapped ==> Slots(m, d) == Slots(old(m), d) + {v / NPDE}
    {
      hide Owned, SameOutside, PteOf, Taken, TableOf, Slots;
      SameSelf(m);
      f := Kalloc(loose);
      if f == 0 {
        return 0, NoMemory;
      }
      ghost var m1 := m;
      FillPage(f, data, loose + {f});
      ghost var m2 := m;
      SameThen(old(m), m1, m2, 0, 0, 0, 0, 0);
      SameHere(old(m), m2, d, v);
      SameTable(old(m), m2, d, v / NPDE);
      r := MapUser(d, v, f, flags, loose + {f});
      assert loose + {f} - {f} == loose;
      if r == Mapped {
        SameThenOther(old(m), m2, m, d, v, v + 1);
        SameSlots(old(m), m2, d);
        TakenSlots(m2, m, d, v);
      }
    }

    /**
     inituvm: page 0 with the given bytes. The result of mappages is not looked at: without memory for the table, the
     frame belongs to nobody and page 0 is not there.
     */
    method Inituvm(d: nat, init: Page, ghost loose: set<nat>) returns (f: nat, ghost mapped: bool)
      requires Valid(loose) && d in m.dirs && PteOf(m, d, 0) == Absent && TableOf(m, d, 0) == 0
      modifies this
      ensures f == 0 <==> old(m.free) == []
      ensures mapped <==> |old(m.free)| >= 2
      ensures f != 0 ==> SameOutside(old(m), m, d, 0, 1)
      ensures mapped ==>
                && Valid(loose) && |m.free| == |old(m.free)| - 2
                && PteOf(m, d, 0) == Present(f, USER) && Content(m, d, 0) == init
      ensures f != 0 && !mapped ==> f !in loose && Valid(loose + {f}) && m.free == [] && PteOf(m, d, 0) == Absent
    {
      hide Owned, SameOutside, PteOf, Slots;
      var r;
      f, r := AddPage(d, 0, init, USER, loose);
      mapped := r == Mapped;
      if f != 0 && !mapped {
        Widen(old(m), m, d, 0, 1);
        SameHere(old(m), m, d, 0);
      }
    }

    /**
     allocuvm: new zeroed pages up to `newsz`, or failure with everything as it was. On a space without pages from
     `oldsz` up to the shared ones it cannot panic; and when it fails it frees a shared frame exactly if `newsz`
     reaches a shared page that is mapped.
     */
    method Allocuvm(d: nat, oldsz: nat, newsz: nat, ghost loose: set<nat>) returns (r: AllocResult)
      requires Valid(loose) && d in m.dirs && oldsz <= (PHYSPAGES + 1) * PGSIZE
      modifies this
      ensures newsz >= KVPN * PGSIZE ==> r == Failed && m == old(m)
      ensures newsz < KVPN * PGSIZE && newsz < oldsz ==> r == Grown(oldsz) && m == old(m)
      ensures r.Grown? || r.Failed? ==> Valid(loose) && m.dirs.Keys == old(m.dirs.Keys)
      ensures r.Failed? && Clear(old(m), d, Pages(oldsz), UVPN) ==> SameOutside(old(m), m, 0, 0, 0)
      ensures r.Grown? && oldsz <= newsz ==>
                && r.sz == newsz && Pages(newsz) <= UVPN && SameOutside(old(m), m, d, Pages(oldsz), Pages(newsz))
                && (Pages(newsz) == Pages(oldsz) ==> m == old(m))
                && |old(m.free)| <= |m.free| + 2 * (Pages(newsz) - Pages(oldsz))
                && forall v: nat | Pages(oldsz) <= v < Pages(newsz) :: Fresh(m, d, v)
      ensures r.Failed? && newsz < KVPN * PGSIZE ==> |old(m.free)| < 2 * (Pages(newsz) - Pages(oldsz))
      ensures r.LostShared? ==> exists n: nat :: n < NSHARE && n < |sm| && sm[n] in m.free
      ensures Clear(old(m), d, Pages(oldsz), UVPN) ==>
                && !r.Panicked?
                && (r.LostShared? <==> oldsz <= newsz < KVPN * PGSIZE && !Clear(old(m), d, UVPN, Pages(newsz)))
    {
      hide Owned, SameOutside, PteOf, Content, Fresh, Clear;
      SameSelf(m);
      if newsz >= KVPN * PGSIZE {
        return Failed;
      }
      if newsz < oldsz {
        return Grown(oldsz);
      }
      ghost var m0, lo, hi := m, Pages(oldsz), Pages(newsz);
      Widen(m, m, d, lo, lo);
      ClearNone(m, d, lo, lo);
      var a := Pages(oldsz);
      while a * PGSIZE < newsz
        invariant lo <= a <= hi && Valid(loose) && d in m.dirs && m.dirs.Keys == m0.dirs.Keys
                  && SameOutside(m0, m, d, lo, a)
        invariant forall v: nat | lo <= v < a :: Fresh(m, d, v)
        invariant Clear(m0, d, lo, a) && a <= UVPN && |m0.free| <= |m.free| + 2 * (a - lo) && (a == lo ==> m == m0)
        decreases hi - a
      {
        ghost var mid := m;
        NeverThatFar(m, owner, sm, loose, d, lo, a);
        var f, mapped := AddPage(d, a, Zeros(PGSIZE), USER, loose);
        PageBeyond(m0, mid, d, lo, a);
        if mapped == Remap {
          NotClear(m0, d, lo, UVPN, a);
          return Panicked;
        }
        if mapped == NoMemory {
          r := GiveUp(d, oldsz, newsz, f, m0, mid, a, loose);
          return;
        }
        FreshNow(m, d, a, f);
        FreshKept(m0, mid, m, d, lo, a);
        ClearMore(m0, d, lo, a);
        a := a + 1;
      }
      NeverThatFar(m, owner, sm, loose, d, lo, a);
      ClearNone(m0, d, UVPN, hi);
      return Grown(newsz);
    }

    /** allocuvm's way out: deallocuvm from the size wanted, and the frame that could not be mapped. */
    method GiveUp(
      d: nat, oldsz: nat, newsz: nat, f: nat, ghost m0: Mem, ghost mid: Mem, ghost a: nat, ghost loose: set<nat>)
      returns (r: AllocResult)
      requires Valid(if f == 0 then loose else loose + {f}) && (f == 0 || f !in loose)
      requires d in m.dirs && m.dirs.Keys == m0.dirs.Keys && oldsz < newsz < KVPN * PGSIZE
      requires Pages(oldsz) <= a < Pages(newsz) && a <= UVPN
      requires SameOutside(m0, mid, d, Pages(oldsz), a) && SameOutside(mid, m, 0, 0, 0)
      modifies this
      ensures r.Failed? || r.LostShared?
      ensures r.LostShared? <==> !Clear(m0, d, UVPN, Pages(newsz))
      ensures r.LostShared? ==> exists n: nat :: n < NSHARE && n < |sm| && sm[n] in m.free
      ensures r.Failed? ==> Valid(loose) && m.dirs.Keys == m0.dirs.Keys
      ensures r.Failed? && Clear(m0, d, Pages(oldsz), UVPN) ==> SameOutside(m0, m, 0, 0, 0)
    {
      hide Owned, SameOutside, PteOf, Content, Clear;
      ghost var m1, lo, hi := m, Pages(oldsz), Pages(newsz);
      ClearSame(m0, mid, m1, d, lo, a, hi);
      var _, lost := Deallocuvm(d, newsz, oldsz, if f == 0 then loose else loose + {f});
      if lost {
        return LostShared;
      }
      if Clear(m0, d, lo, UVPN) {
        Restored(m0, mid, m1, m, d, lo, a, hi);
      }
      if f != 0 {
        ghost var m2 := m;
        Kfree(f, loose + {f});
        assert loose + {f} - {f} == loose;
        if Clear(m0, d, lo, UVPN) {
          SameThen(m0, m2, m, 0, 0, 0, 0, 0);
        }
      }
      return Failed;
    }

    /** readi into a mapped page. */
    method StorePage(d: nat, v: nat, page: Page, ghost loose: set<nat>)
      requires Valid(loose) && d in m.dirs && v < UVPN && PteOf(m, d, v).Present?
      modifies this`m
      ensures Valid(loose) && SameOutside(old(m), m, d, v, v + 1) && m.free == old(m.free) && m.dirs == old(m.dirs)
      ensures PteOf(m, d, v) == PteOf(old(m), d, v) && Content(m, d, v) == page
    {
      hide Owned, SameOutside;
      PrivatePage(m, owner, sm, loose, d, v, page);
      m := m.(pages := m.pages[PteOf(m, d, v).frame := page]);
    }

    /**
     loaduvm of `sz` bytes at `addr`, of which the file has `data`, into pages that are there but for page 0. A load at
     address 0 panics exactly if the table of page 0 is not there; otherwise it goes to the frame that an entry of 0
     names, physical address 0, which no space owns.
     */
    method Loaduvm(d: nat, addr: nat, sz: nat, data: seq<Byte>, ghost loose: set<nat>) returns (r: LoadResult)
      requires Valid(loose) && d in m.dirs && addr % PGSIZE == 0 && addr + sz <= UVPN * PGSIZE
      requires PteOf(m, d, 0) == Absent
      requires forall v: nat | 1 <= v && addr <= v * PGSIZE < addr + sz :: WholePage(m, d, v)
      modifies this
      ensures r == NoTable <==> sz > 0 && addr == 0 && TableOf(old(m), d, 0) == 0
      ensures r == Astray <==> sz > 0 && addr == 0 && TableOf(old(m), d, 0) != 0
      ensures r == Loaded || r == ShortFile ==>
                && Valid(loose) && m.dirs == old(m.dirs) && m.free == old(m.free)
                && SameOutside(old(m), m, d, addr / PGSIZE, Pages(addr + sz))
                && (r == Loaded <==> sz <= |data|) && forall v: nat :: PteOf(m, d, v) == PteOf(old(m), d, v)
      ensures r == Loaded ==> forall v: nat | 1 <= v && addr <= v * PGSIZE < addr + sz ::
                && WholePage(old(m), d, v)
                && Content(m, d, v) == Patched(Content(old(m), d, v), v, addr, data[..sz])
    {
      hide Owned, SameOutside, PteOf, Content, TableOf, LoadedSoFar;
      ghost var m0, bytes := m, data[..Min(sz, |data|)];
      LoadStarts(m, d, addr, sz, bytes);
      var i := 0;
      while i < sz
        invariant 0 <= i && i % PGSIZE == 0 && (addr == 0 ==> i == 0 && m == m0)
        invariant if i < sz then i <= |data| else sz <= |data|
        invariant Valid(loose) && m.dirs == m0.dirs && m.free == m0.free && LoadedSoFar(m0, m, d, addr, sz, bytes, i)
      {
        var v := (addr + i) / PGSIZE;
        ghost var mid := m;
        var there := Walkpgdir(d, v, false, loose);
        LoadHere(m0, m, d, addr, sz, bytes, i);
        if !there {
          return NoTable;
        }
        if !PteOf(m, d, v).Present? {
          return Astray;
        }
        var n := if sz - i < PGSIZE then sz - i else PGSIZE;
        if i + n > |data| {
          LoadEnds(m0, m, d, addr, sz, bytes, i);
          return ShortFile;
        }
        StorePage(d, v, data[i..i + n] + Content(m, d, v)[n..], loose);
        LoadContinues(m0, mid, m, d, addr, sz, bytes, i, n);
        i := i + PGSIZE;
      }
      LoadEnds(m0, m, d, addr, sz, bytes, i);
      return Loaded;
    }

    /** freevm: private pages, tables and directory are on the free list, shared pages are not. */
    method Freevm(d: nat, ghost loose: set<nat>)
      requires Valid(loose) && d in m.dirs
      modifies this
      ensures Valid(loose) && m.dirs.Keys == old(m.dirs.Keys) - {d} && Kept(old(m), m, {d})
      ensures Released(old(m), m, d, 0, UVPN) && d in m.free
      ensures forall i: nat | i < NPDE && TableOf(old(m), d, i) != 0 :: TableOf(old(m), d, i) in m.free
    {
      hide Owned, SameOutside, PteOf, Kept, Tables, Dropped, Clear, Released;
      ClearNone(m, d, UVPN, UVPN);
      var _, lost := Deallocuvm(d, UVPN * PGSIZE, 0, loose);
      ghost var m0, m1, o1 := old(m), m, owner;
      NoPrivate(m1, d);
      KeptAfterDrop(m0, m1, d);
      DropSpace(m1, o1, sm, loose, d);
      assert Dropped(o1, d).Keys == o1.Keys by {
        DroppedKeys(o1, d);
      }
      owner := Dropped(o1, d);
      var row := m.dirs[d];
      RowLength(m1, o1, sm, loose, d);
      m := m.(dirs := m.dirs - {d});
      NotLoose(m1, o1, sm, loose, d);
      ghost var left := loose + {d} + Tables(o1, d, 0);
      ghost var m2 := m;
      SameSelf(m2);
      var i := 0;
      while i < NPDE
        invariant i <= NPDE && left == loose + {d} + Tables(o1, d, i) && Valid(left)
        invariant SameOutside(m2, m, 0, 0, 0)
        invariant forall f | f in m1.free :: f in m.free
        invariant forall j | 0 <= j < i && row[j] != 0 :: row[j] in m.free
      {
        TablesStep(m1, o1, sm, loose, d, i);
        if row[i] != 0 {
          ghost var before := m;
          Kfree(row[i], left);
          SameThen(m2, before, m, 0, 0, 0, 0, 0);
          left := left - {row[i]};
        }
        i := i + 1;
      }
      TablesEnd(m1, o1, sm, loose, d);
      ghost var before := m;
      assert left == loose + {d};
      Kfree(d, left);
      SameThen(m2, before, m, 0, 0, 0, 0, 0);
      assert loose + {d} - {d} == loose;
      KeptThenSame(m0, m2, m, d);
      ReleasedMore(m0, m1, m, d, 0, UVPN);
      assert forall j: nat | j < NPDE :: TableOf(m0, d, j) == TableOf(m1, d, j);
    }

    /** mappages of one row of the kernel's map; fails exactly without memory for its tables. */
    method MapRange(d: nat, k: Range, ghost loose: set<nat>) returns (ok: bool)
      requires Valid(loose) && d in m.dirs && InKernel(k) && |sm| == NSHARE
      requires Clear(m, d, k.v, k.v + k.count)
      modifies this
      ensures Valid(loose) && d in m.dirs && SameOutside(old(m), m, d, k.v, k.v + k.count)
      ensures ok ==> RangeMapped(m, d, k, k.count) && Slots(m, d) == Slots(old(m), d) + RowSlots(k.v, k.count)
      ensures ok ==> |m.free| + |Slots(m, d)| == |old(m.free)| + |Slots(old(m), d)|
      ensures !ok ==> |old(m.free)| + |Slots(old(m), d)| < |Slots(old(m), d) + RowSlots(k.v, k.count)|
    {
      hide Owned, SameOutside, PteOf, Slots, Taken, RowSlots, RangeMapped, Clear, TableOf, RowSoFar;
      ghost var m0 := m;
      RowBegins(m, d, k);
      var j := 0;
      while j < k.count
        invariant j <= k.count && Valid(loose) && RowSoFar(m0, m, d, k, j)
      {
        ghost var mid := m;
        RowHere(m0, m, d, k, j);
        var r := MapOther(d, k.v + j, Present(k.frame + j, k.flags), loose);
        if r != Mapped {
          RowFails(m0, m, d, k, j);
          return false;
        }
        RowContinues(m0, mid, m, d, k, j);
        j := j + 1;
      }
      RowEnds(m0, m, d, k, j);
      return true;
    }

    /**
     setupkvm: a directory with the kernel's map and an empty user part, or 0 and everything as it was; 0 exactly if
     there are too few frames for the directory and the kernel's tables.
     */
    method Setupkvm(ghost loose: set<nat>) returns (d: nat)
      requires Valid(loose) && KmapOk(kmap) && |sm| == NSHARE
      modifies this
      ensures Valid(loose) && Kept(old(m), m, {})
      ensures d == 0 <==> |old(m.free)| < 1 + KernelTables(kmap)
      ensures d == 0 ==> m.dirs.Keys == old(m.dirs.Keys)
      ensures d != 0 ==> d !in old(m.dirs) && m.dirs.Keys == old(m.dirs.Keys) + {d}
      ensures d != 0 ==> |m.free| == |old(m.free)| - 1 - KernelTables(kmap)
      ensures d != 0 ==> forall v: nat | v < KVPN :: PteOf(m, d, v) == Absent
      ensures d != 0 ==> forall i: nat | i < KVPN / NPDE :: TableOf(m, d, i) == 0
      ensures d != 0 ==> RowsMapped(m, d, kmap, |kmap|)
    {
      hide Owned, SameOutside, PteOf, Kept, RangeMapped, Slots, RowsMapped, Clear, KernelSlots, KernelSoFar, RowSlots;
      ghost var m0 := m;
      KeptSelf(m);
      d := Kalloc(loose);
      if d == 0 {
        return;
      }
      ghost var m1 := m;
      LooseUse(m, owner, sm, loose + {d}, d);
      NewDir(m, owner, sm, loose + {d}, d, NoTables());
      m := m.(dirs := m.dirs[d := NoTables()]);
      owner := owner[d := Dir];
      assert loose + {d} - {d} == loose;
      ghost var m2 := m;
      DirAdded(m0, m1, m2, d, NoTables());
      NoSlots(m2, d, NoTables());
      KernelBegins(m2, d, kmap);
      var i := 0;
      while i < |kmap|
        invariant 0 <= i <= |kmap| && Valid(loose) && KernelSoFar(m2, m, d, kmap, i)
      {
        ghost var mid := m;
        KernelHere(m2, m, d, kmap, i);
        var ok := MapRange(d, kmap[i], loose);
        if !ok {
          KernelFails(m2, mid, m, d, kmap, i);
          KeptNew(m0, m2, m, d, KVPN, NVPN);
          ghost var last := m;
          Freevm(d, loose);
          KeptNotNew(m0, last, m, d);
          return 0;
        }
        KernelContinues(m2, mid, m, d, kmap, i);
        i := i + 1;
      }
      KernelEnds(m2, m, d, kmap, i);
      KeptNew(m0, m2, m, d, KVPN, NVPN);
      UserPartSame(m2, m, d);
    }

    /** copyuvm's page loop; page 0 is not copied. Missing is its panic. */
    method CopyPages(d: nat, sz: nat, c: nat, ghost m0: Mem, ghost loose: set<nat>) returns (r: CopyResult)
      requires Valid(loose) && sz <= UVPN * PGSIZE && d in m0.dirs && c !in m0.dirs && OneMore(m0, m, c)
      requires forall v: nat | v < KVPN :: PteOf(m, c, v) == Absent
      modifies this
      ensures Valid(loose) && OneMore(m0, m, c)
      ensures r == Missing ==> FirstAbsent(m0, d, 1, Pages(sz)) < Pages(sz)
      ensures r == Done ==> forall v: nat | v < KVPN ::
                if 1 <= v < Pages(sz) then Copied(m0, m, d, c, v) else PteOf(m, c, v) == Absent
      ensures LowSlots(old(m), c, 0) ==>
                var k := FirstAbsent(m0, d, 1, Pages(sz));
                && (r == OutOfMemory <==> |old(m.free)| < PageCost(k))
                && (r == Missing <==> k < Pages(sz) && |old(m.free)| >= PageCost(k))
      ensures LowSlots(old(m), c, 0) && r == Done ==>
                && |m.free| == |old(m.free)| - PageCost(Pages(sz)) && TableOf(m, c, SHARED_SLOT) == 0
    {
      hide Owned, SameOutside, PteOf, Content, Kept, Copied, TableOf, PagesSoFar, LowSlots, Slots, CostSoFar, TableCost;
      hide PageCost, FirstAbsent, OneMore, PageTables;
      PagesBegin(m0, m, d, c);
      ghost var m1, own := m, owner;
      CostStarts(m, c);
      var i := 1;
      while i * PGSIZE < sz
        invariant 1 <= i && (i == 1 || i <= Pages(sz))
        invariant FirstAbsent(m0, d, 1, Pages(sz)) == FirstAbsent(m0, d, i, Pages(sz))
        invariant Valid(loose) && PagesSoFar(m0, m, d, c, i) && CostSoFar(m1, m, c, i)
        decreases Pages(sz) - i
      {
        AbsentFrom(m0, d, i, Pages(sz));
        r := CopyPage(d, i, c, Pages(sz), m0, m1, loose);
        if r != Done {
          return;
        }
        i := i + 1;
      }
      AbsentFrom(m0, d, i, Pages(sz));
      PagesEnd(m0, m, d, c, i, sz);
      FreeBound(m1, own, sm, loose);
      CostEnds(m1, m, c, i, Pages(sz));
      return Done;
    }

    /** kfree of the frame that could not be mapped, if there is one. */
    method GiveBack(f: nat, ghost mid: Mem, ghost loose: set<nat>)
      requires Valid(if f == 0 then loose else loose + {f}) && (f == 0 || f !in loose) && SameOutside(mid, m, 0, 0, 0)
      modifies this
      ensures Valid(loose) && SameOutside(mid, m, 0, 0, 0)
    {
      hide Owned, SameOutside;
      if f != 0 {
        ghost var last := m;
        Kfree(f, loose + {f});
        assert loose + {f} - {f} == loose;
        SameThen(mid, last, m, 0, 0, 0, 0, 0);
      }
    }

    /** One round of that loop. */
    method CopyPage(d: nat, i: nat, c: nat, n: nat, ghost m0: Mem, ghost m1: Mem, ghost loose: set<nat>)
      returns (r: CopyResult)
      requires Valid(loose) && 1 <= i < n <= UVPN && PagesSoFar(m0, m, d, c, i) && CostSoFar(m1, m, c, i)
      modifies this
      ensures Valid(loose) && (r != Done ==> OneMore(m0, m, c))
      ensures r == Missing <==> PteOf(m0, d, i) == Absent
      ensures r == OutOfMemory && LowSlots(m1, c, 0) ==> |m1.free| < PageCost(FirstAbsent(m0, d, i, n))
      ensures r == Missing && LowSlots(m1, c, 0) ==> |m1.free| >= PageCost(i)
      ensures r == Done ==> PagesSoFar(m0, m, d, c, i + 1) && CostSoFar(m1, m, c, i + 1)
    {
      hide Owned, SameOutside, PteOf, Content, Kept, Copied, TableOf, PagesSoFar, LowSlots, Slots, CostSoFar, TableCost;
      hide PageCost, FirstAbsent;
      ghost var mid := m;
      AbsentFrom(m0, d, i, n);
      PagesHere(m0, m, d, c, i);
      var e, data := PteOf(m, d, i), Content(m, d, i);
      if e == Absent {
        CostCovered(m1, m, c, i);
        return Missing;
      }
      var f, mapped := AddPage(c, i, data, e.flags, loose);
      if mapped != Mapped {
        CostExceeds(m1, mid, c, i, FirstAbsent(m0, d, i, n));
        GiveBack(f, mid, loose);
        Widen(mid, m, c, i, i + 1);
        KeptNew(m0, mid, m, c, i, i + 1);
        return OutOfMemory;
      }
      CostContinues(m1, mid, m, c, i);
      PagesContinue(m0, mid, m, d, c, i, f);
      return Done;
    }

    /**
     copyuvm's loop over the shared pages: the child's flags are set for those before `marked`, each ahead of its
     mapping.
     */
    method CopyShared(c: nat, shared: seq<bool>, ghost m0: Mem, ghost loose: set<nat>) returns (ok: bool, marked: nat)
      requires Valid(loose) && c !in m0.dirs && OneMore(m0, m, c) && |shared| == |sm| == NSHARE
      requires TableOf(m, c, SHARED_SLOT) == 0 && forall v: nat | UVPN <= v < KVPN :: PteOf(m, c, v) == Absent
      modifies this
      ensures Valid(loose) && OneMore(m0, m, c) && SameOutside(old(m), m, c, UVPN, KVPN)
      ensures ok <==> |old(m.free)| >= SharedCost(shared)
      ensures marked == if ok then NSHARE else 1 + FirstSet(shared, 0)
      ensures ok ==> |m.free| == |old(m.free)| - SharedCost(shared)
      ensures ok ==> forall v: nat | UVPN <= v < KVPN :: PteOf(m, c, v) == SharedEntry(sm, shared, NSHARE, v)
    {
      hide Owned, SameOutside, PteOf, Kept, Taken, Slots, SharedEntry, TableOf, SharedSoFar, FirstSet, OneMore;
      ghost var m1 := m;
      SharedBegins(m0, m, sm, c, shared);
      var n := 0;
      while n < NSHARE
        invariant n <= NSHARE && Valid(loose) && SharedSoFar(m0, m1, m, sm, c, shared, n)
        invariant FirstSet(shared, 0) == FirstSet(shared, n) ==> m == m1
        invariant FirstSet(shared, 0) != FirstSet(shared, n) ==>
                    && FirstSet(shared, 0) < n && TableOf(m, c, SHARED_SLOT) != 0 && |m.free| == |m1.free| - 1
      {
        SetFrom(shared, n);
        SharedHereNow(m0, m1, m, sm, c, shared, n);
        SharedTable(n);
        if shared[n] {
          ghost var mid := m;
          var r := MapOther(c, KVPN - 1 - n, Present(sm[n], USER), loose);
          if r != Mapped {
            return false, n + 1;
          }
          SharedTaken(mid, m, c, KVPN - 1 - n);
          SharedContinues(m0, m1, mid, m, sm, c, shared, n);
        } else {
          SharedSkips(m0, m1, m, sm, c, shared, n);
        }
        n := n + 1;
      }
      SharedHereNow(m0, m1, m, sm, c, shared, n);
      return true, NSHARE;
    }

    /**
     copyuvm: a new space with equal pages on frames of its own and the same shared pages, or 0 and all as it was. It
     panics only if a page below `sz`, other than page 0, is not there.
     */
    method Copyuvm(d: nat, sz: nat, shared: seq<bool>, ghost loose: set<nat>)
      returns (c: nat, marked: nat, panicked: bool)
      requires Valid(loose) && KmapOk(kmap) && |shared| == |sm| == NSHARE && d in m.dirs && sz <= UVPN * PGSIZE
      modifies this
      ensures panicked <==>
                var k := FirstAbsent(old(m), d, 1, Pages(sz));
                k < Pages(sz) && |old(m.free)| >= 1 + KernelTables(kmap) + PageCost(k)
      ensures !panicked ==> Valid(loose) && Kept(old(m), m, {})
      ensures !panicked ==>
                (c != 0 <==> FirstAbsent(old(m), d, 1, Pages(sz)) >= Pages(sz)
                             && |old(m.free)| >= CopyCost(kmap, sz, shared))
      ensures !panicked ==> marked == MarkedBy(|old(m.free)|, kmap, sz, shared) <= NSHARE
      ensures !panicked && c != 0 ==> |m.free| == |old(m.free)| - CopyCost(kmap, sz, shared)
      ensures !panicked && c == 0 ==> m.dirs.Keys == old(m.dirs.Keys)
      ensures !panicked && c != 0 ==> c !in old(m.dirs) && m.dirs.Keys == old(m.dirs.Keys) + {c}
      ensures !panicked && c != 0 ==> forall v: nat | v < UVPN ::
                if 1 <= v < Pages(sz) then Copied(old(m), m, d, c, v) && FramesDiffer(m, d, c, v)
                else PteOf(m, c, v) == Absent
      ensures !panicked && c != 0 ==>
                forall v: nat | UVPN <= v < KVPN :: PteOf(m, c, v) == SharedEntry(sm, shared, NSHARE, v)
    {
      hide Owned, SameOutside, PteOf, Content, Kept, Copied, Slots, FirstSet, TableOf, LowSlots, KernelTables;
      hide FirstAbsent, PageCost;
      ghost var m0 := m;
      AbsentCosts(m, d, Pages(sz));
      c := Setupkvm(loose);
      if c == 0 {
        return 0, 0, false;
      }
      NoLowSlots(m, c);
      var r := CopyPages(d, sz, c, m0, loose);
      if r == Missing {
        return 0, 0, true;
      }
      ghost var m1 := m;
      var ok := r == Done;
      marked := 0;
      if ok {
        ok, marked := CopyShared(c, shared, m0, loose);
      }
      if !ok {
        ghost var last := m;
        Freevm(c, loose);
        KeptNotNew(m0, last, m, c);
        return 0, marked, false;
      }
      panicked := false;
      forall v: nat | v < UVPN
        ensures if 1 <= v < Pages(sz) then Copied(m0, m, d, c, v) && FramesDiffer(m, d, c, v)
                else PteOf(m, c, v) == Absent
      {
        UserPageSame(m1, m, c, v);
        if 1 <= v < Pages(sz) {
          CopiedStays(m0, m1, m, d, c, v);
          KeptAt(m0, m, d, v);
          OwnFrames(m, owner, sm, loose, d, c, v);
        }
      }
    }

    /**
     shmem_access of page `n` by a process whose shared_page flag for it is `flag`; -1 if refused, a panic exactly
     without memory for the table or if the page is mapped although the flag is clear. With the flag set nothing is
     looked at, so the address returned is mapped exactly if the flag is right.
     */
    method ShmemAccess(d: nat, sz: Word, n: int, flag: bool, ghost loose: set<nat>) returns (va: int, panicked: bool)
      requires Valid(loose) && d in m.dirs && |sm| == NSHARE && sz <= KVPN * PGSIZE
      modifies this
      ensures Valid(loose) && m.dirs.Keys == old(m.dirs.Keys)
      ensures n < 0 || n >= NSHARE ==> va == -1 && !panicked && m == old(m)
      ensures 0 <= n < NSHARE && flag ==> va == (KVPN - 1 - n) * PGSIZE && !panicked && m == old(m)
      ensures 0 <= n < NSHARE && !flag ==>
                (panicked <==> PteOf(old(m), d, KVPN - 1 - n).Present?
                               || (TableOf(old(m), d, SHARED_SLOT) == 0 && old(m.free) == []))
      ensures 0 <= n < NSHARE && !flag && !panicked ==>
                && va == (KVPN - 1 - n) * PGSIZE && SameOutside(old(m), m, d, KVPN - 1 - n, KVPN - n)
                && PteOf(m, d, KVPN - 1 - n) == Present(sm[n], USER) && Taken(old(m), m, d, KVPN - 1 - n)
      ensures panicked ==> m == old(m)
    {
      hide Owned, SameOutside, PteOf;
      if n < 0 || n >= NSHARE {
        return -1, false;
      }
      var v := KVPN - 1 - n;
      if flag {
        return v * PGSIZE, false;
      }
      GuardNeverFires(sz, n);
      if sz > V2P(v * PGSIZE) {
        return -1, false;
      }
      SharedTable(n);
      var r := MapOther(d, v, Present(sm[n], USER), loose);
      if r != Mapped {
        return -1, true;
      }
      SameKeys(old(m), m, d, v, v + 1);
      return v * PGSIZE, false;
    }
  }

  ghost function Booted(frames: seq<nat>, sm: seq<nat>): map<nat, Use>
    requires |sm| == NSHARE
  {
    map f | f in frames + sm ::
      if f == sm[0] then Shared(0) else if f == sm[1] then Shared(1) else if f == sm[2] then Shared(2)
      else if f == sm[3] then Shared(3) else Free
  }

  lemma BootIsOwned(frames: seq<nat>, sm: seq<nat>)
    requires |sm| == NSHARE && NoDup(frames + sm) && 0 !in frames + sm
    ensures Owned(Mem(frames, map[], map[], map[]), Booted(frames, sm), sm, {})
    ensures Booted(frames, sm).Keys == AsSet(frames + sm)
  {
    hide PteOf, TableOf;
    var all, o := frames + sm, Booted(frames, sm);
    assert forall i | 0 <= i < |frames| :: all[i] == frames[i];
    forall n: nat | n < NSHARE
      ensures all[|frames| + n] == sm[n] && sm[n] in o && o[sm[n]] == Shared(n)
    {
      assert all[|frames|] == sm[0] && all[|frames| + 1] == sm[1] && all[|frames| + 2] == sm[2]
             && all[|frames| + 3] == sm[3];
      assert sm[n] in all;
    }
    forall f | f in frames
      ensures f in o && o[f] == Free
    {
      var i :| 0 <= i < |frames| && frames[i] == f;
      assert all[i] == f;
    }
  }

  /** V2P in 32-bit arithmetic. */
  function V2P(va: nat): (pa: nat) {
    (va - KVPN * PGSIZE) % WORD_LIMIT
  }

  /** shmem_access means to refuse a process that reaches the page, but below KERNBASE its V2P wraps to the top. */
  lemma GuardNeverFires(sz: nat, n: int)
    requires 0 <= n < NSHARE
    ensures sz <= KVPN * PGSIZE ==> !(sz > V2P((KVPN - 1 - n) * PGSIZE))
  {
  }

  predicate InKernel(k: Range) {
    KVPN <= k.v && k.v + k.count <= NVPN
  }

  /** Rows of kernel pages that do not overlap. */
  ghost predicate KmapOk(kmap: seq<Range>) {
    && (forall i | 0 <= i < |kmap| :: InKernel(kmap[i]))
    && (forall i, j | 0 <= i < j < |kmap| ::
          kmap[i].v + kmap[i].count <= kmap[j].v || kmap[j].v + kmap[j].count <= kmap[i].v)
  }

  ghost predicate RangeMapped(m: Mem, d: nat, k: Range, n: nat) {
    forall v: nat | k.v <= v < k.v + n :: PteOf(m, d, v) == Present(k.frame + (v - k.v), k.flags)
  }

  /** The entry for user page `v` above UVPN once the first `n` shared pages have been mapped. */
  function SharedEntry(sm: seq<nat>, shared: seq<bool>, n: nat, v: nat): (e: Pte)
    requires |sm| == |shared| == NSHARE && UVPN <= v < KVPN
  {
    var k := KVPN - 1 - v;
    if k < n && shared[k] then Present(sm[k], USER) else Absent
  }

  /** Space `c` besides those of `m0`. */
  ghost predicate OneMore(m0: Mem, m: Mem, c: nat) {
    Kept(m0, m, {}) && m.dirs.Keys == m0.dirs.Keys + {c}
  }

  /** copyuvm's loop over the shared pages, at page `n`. */
  ghost predicate SharedSoFar(m0: Mem, m1: Mem, m: Mem, sm: seq<nat>, c: nat, shared: seq<bool>, n: nat) {
    && |sm| == |shared| == NSHARE && Kept(m0, m, {}) && m.dirs.Keys == m0.dirs.Keys + {c} && c !in m0.dirs
    && SameOutside(m1, m, c, UVPN, KVPN)
    && forall v: nat | UVPN <= v < KVPN :: PteOf(m, c, v) == SharedEntry(sm, shared, n, v)
  }

  lemma SharedBegins(m0: Mem, m: Mem, sm: seq<nat>, c: nat, shared: seq<bool>)
    requires |sm| == |shared| == NSHARE && OneMore(m0, m, c) && c !in m0.dirs
    requires forall v: nat | UVPN <= v < KVPN :: PteOf(m, c, v) == Absent
    ensures SharedSoFar(m0, m, m, sm, c, shared, 0)
  {
    hide PteOf, Kept;
    SameSelf(m);
    Widen(m, m, c, UVPN, KVPN);
  }

  lemma SharedHereNow(m0: Mem, m1: Mem, m: Mem, sm: seq<nat>, c: nat, shared: seq<bool>, n: nat)
    requires SharedSoFar(m0, m1, m, sm, c, shared, n)
    ensures OneMore(m0, m, c) && c in m.dirs && SameOutside(m1, m, c, UVPN, KVPN)
    ensures forall v: nat | UVPN <= v < KVPN :: PteOf(m, c, v) == SharedEntry(sm, shared, n, v)
    ensures n < NSHARE ==> PteOf(m, c, KVPN - 1 - n) == Absent
  {
    hide PteOf, Kept;
    if n < NSHARE {
      SharedSteps(sm, shared, n, n + 1);
    }
  }

  lemma SharedContinues(
    m0: Mem, m1: Mem, m: Mem, m': Mem, sm: seq<nat>, c: nat, shared: seq<bool>, n: nat)
    requires SharedSoFar(m0, m1, m, sm, c, shared, n) && n < NSHARE && shared[n]
    requires SameOutside(m, m', c, KVPN - 1 - n, KVPN - n) && PteOf(m', c, KVPN - 1 - n) == Present(sm[n], USER)
    ensures SharedSoFar(m0, m1, m', sm, c, shared, n + 1)
  {
    hide PteOf, Kept, SameOutside, SharedEntry;
    StepInside(m1, m, m', c, UVPN, KVPN, KVPN - 1 - n);
    KeptNew(m0, m, m', c, KVPN - 1 - n, KVPN - n);
    SharedSteps(sm, shared, n, n + 1);
  }

  lemma SharedSkips(m0: Mem, m1: Mem, m: Mem, sm: seq<nat>, c: nat, shared: seq<bool>, n: nat)
    requires SharedSoFar(m0, m1, m, sm, c, shared, n) && n < NSHARE && !shared[n]
    ensures SharedSoFar(m0, m1, m, sm, c, shared, n + 1)
  {
    hide PteOf, Kept, SameOutside, SharedEntry;
    SharedSteps(sm, shared, n, n + 1);
  }

  /** All shared pages lie under the same table. */
  lemma SharedTable(n: int)
    ensures 0 <= n < NSHARE ==> (KVPN - 1 - n) / NPDE == SHARED_SLOT
  {
  }

  lemma SharedSteps(sm: seq<nat>, shared: seq<bool>, n: nat, n': nat)
    requires |sm| == |shared| == NSHARE && n < NSHARE && n' == n + 1
    ensures forall v: nat | UVPN <= v < KVPN && v != KVPN - 1 - n ::
              SharedEntry(sm, shared, n', v) == SharedEntry(sm, shared, n, v)
    ensures SharedEntry(sm, shared, n', KVPN - 1 - n) == if shared[n] then Present(sm[n], USER) else Absent
    ensures SharedEntry(sm, shared, n, KVPN - 1 - n) == Absent
  {
  }

  ghost predicate FramesDiffer(m: Mem, d: nat, c: nat, v: nat) {
    PteOf(m, c, v).Present? && PteOf(m, d, v).Present? ==> PteOf(m, c, v).frame != PteOf(m, d, v).frame
  }

  /** The page of `c` has the bytes and the flags of the page of `d`. */
  ghost predicate Copied(m0: Mem, m: Mem, d: nat, c: nat, v: nat) {
    && PteOf(m, c, v).Present? && PteOf(m0, d, v).Present? && PteOf(m, c, v).flags == PteOf(m0, d, v).flags
    && Content(m, c, v) == Content(m0, d, v)
  }

  function Ones(): (p: Page) {
    seq(PGSIZE, _ => 1)
  }

  lemma LooseUse(m: Mem, o: map<nat, Use>, sm: seq<nat>, loose: set<nat>, f: nat)
    requires Owned(m, o, sm, loose) && f in loose
    ensures f in o && o[f] == Loose
  {
  }

  lemma SameSelf(m: Mem)
    ensures SameOutside(m, m, 0, 0, 0)
  {
  }

  lemma Widen(m: Mem, m': Mem, d: nat, lo: nat, hi: nat)
    requires SameOutside(m, m', 0, 0, 0)
    ensures SameOutside(m, m', d, lo, hi)
  {
  }

  lemma SameHere(m: Mem, m': Mem, d: nat, v: nat)
    requires SameOutside(m, m', 0, 0, 0) && d in m.dirs
    ensures d in m'.dirs && PteOf(m', d, v) == PteOf(m, d, v)
  {
    assert SameAt(m, m', d, v);
  }

  lemma SameThenOther(m: Mem, m1: Mem, m2: Mem, d: nat, lo: nat, hi: nat)
    requires SameOutside(m, m1, 0, 0, 0) && SameOutside(m1, m2, d, lo, hi)
    ensures SameOutside(m, m2, d, lo, hi)
  {
    Widen(m, m1, d, lo, lo);
    SameThen(m, m1, m2, d, lo, lo, lo, hi);
  }

  lemma SameThenNone(m: Mem, m1: Mem, m2: Mem, d: nat, lo: nat, hi: nat)
    requires SameOutside(m, m1, d, lo, hi) && SameOutside(m1, m2, 0, 0, 0) && lo < hi
    ensures SameOutside(m, m2, d, lo, hi) && (d in m.dirs ==> PteOf(m2, d, lo) == PteOf(m1, d, lo))
  {
    Widen(m1, m2, d, lo, lo);
    SameThen(m, m1, m2, d, lo, hi, lo, lo);
    if d in m.dirs {
      assert SameAt(m1, m2, d, lo);
    }
  }

  /** If the table is absent, so are all entries it would hold. */
  lemma SkippedAbsent(m: Mem, d: nat, a: nat)
    requires TableOf(m, d, a / NPDE) == 0
    ensures forall v: nat | a <= v < (a / NPDE + 1) * NPDE :: PteOf(m, d, v) == Absent
  {
    forall v: nat | a <= v < (a / NPDE + 1) * NPDE
      ensures PteOf(m, d, v) == Absent
    {
      assert v / NPDE == a / NPDE;
    }
  }

  lemma StepInside(m: Mem, m1: Mem, m2: Mem, d: nat, lo: nat, hi: nat, a: nat)
    requires SameOutside(m, m1, d, lo, hi) && SameOutside(m1, m2, d, a, a + 1) && lo <= a < hi && d in m1.dirs
    ensures SameOutside(m, m2, d, lo, hi) && d in m2.dirs
    ensures forall v: nat | v != a :: PteOf(m2, d, v) == PteOf(m1, d, v)
  {
    SameThen(m, m1, m2, d, lo, hi, a, a + 1);
    forall v: nat | v != a
      ensures PteOf(m2, d, v) == PteOf(m1, d, v)
    {
      assert SameAt(m1, m2, d, v);
    }
  }

  /** A page as allocuvm makes it. */
  ghost predicate Fresh(m: Mem, d: nat, v: nat) {
    PteOf(m, d, v).Present? && PteOf(m, d, v).flags == USER && Content(m, d, v) == Zeros(PGSIZE)
  }

  lemma FreshNow(m: Mem, d: nat, v: nat, f: nat)
    requires PteOf(m, d, v) == Present(f, USER) && Content(m, d, v) == Zeros(PGSIZE)
    ensures Fresh(m, d, v)
  {
  }

  /** Adding page `a` leaves the pages before it. */
  lemma FreshKept(m0: Mem, m: Mem, m': Mem, d: nat, lo: nat, a: nat)
    requires SameOutside(m0, m, d, lo, a) && SameOutside(m, m', d, a, a + 1) && lo <= a < UVPN && d in m.dirs
    requires forall v: nat | lo <= v < a :: Fresh(m, d, v)
    ensures SameOutside(m0, m', d, lo, a + 1) && d in m'.dirs && m'.dirs.Keys == m0.dirs.Keys
    ensures forall v: nat | lo <= v < a :: Fresh(m', d, v)
  {
    SameThen(m0, m, m', d, lo, a, a, a + 1);
    forall v: nat | lo <= v < a
      ensures Fresh(m', d, v)
    {
      assert Fresh(m, d, v) && SameAt(m, m', d, v);
    }
  }

  /** What was absent before the attempt and is absent after it is as it was. */
  lemma Restored(m0: Mem, mid: Mem, m1: Mem, m2: Mem, d: nat, lo: nat, a: nat, hi: nat)
    requires SameOutside(m0, mid, d, lo, a) && SameOutside(mid, m1, 0, 0, 0) && SameOutside(m1, m2, d, lo, hi)
    requires lo <= a < hi && d in m1.dirs && Clear(m0, d, lo, UVPN) && Clear(m0, d, UVPN, hi) && Clear(m2, d, lo, hi)
    ensures SameOutside(m0, m2, 0, 0, 0)
  {
    forall d', v: nat | d' in m0.dirs
      ensures SameAt(m0, m2, d', v)
    {
      if !(d' == d && lo <= v < hi) {
        assert SameAt(m0, mid, d', v) && SameAt(mid, m1, d', v) && SameAt(m1, m2, d', v);
      }
    }
  }

  /** Directories outside `gone` are there and look the same. */
  ghost predicate Kept(m: Mem, m': Mem, gone: set<nat>) {
    forall d | d in m.dirs && d !in gone :: d in m'.dirs && forall v: nat :: SameAt(m, m', d, v)
  }

  lemma NoPrivate(m: Mem, d: nat)
    requires Clear(m, d, Pages(0), Pages(UVPN * PGSIZE))
    ensures forall v: nat | v < UVPN :: PteOf(m, d, v) == Absent
  {
  }

  lemma KeptAfterDrop(m0: Mem, m1: Mem, d: nat)
    requires SameOutside(m0, m1, d, Pages(0), Pages(UVPN * PGSIZE)) && d in m0.dirs
    ensures Kept(m0, m1.(dirs := m1.dirs - {d}), {d}) && m1.dirs.Keys == m0.dirs.Keys
  {
    var m2 := m1.(dirs := m1.dirs - {d});
    forall d' | d' in m0.dirs && d' != d
      ensures d' in m2.dirs && forall v: nat :: SameAt(m0, m2, d', v)
    {
      forall v: nat
        ensures SameAt(m0, m2, d', v)
      {
        assert SameAt(m0, m1, d', v);
      }
    }
  }

  lemma KeptThenSame(m0: Mem, m1: Mem, m2: Mem, d: nat)
    requires Kept(m0, m1, {d}) && SameOutside(m1, m2, 0, 0, 0)
    ensures Kept(m0, m2, {d}) && m2.dirs.Keys == m1.dirs.Keys
  {
    forall d' | d' in m0.dirs && d' != d
      ensures d' in m2.dirs && forall v: nat :: SameAt(m0, m2, d', v)
    {
      forall v: nat
        ensures SameAt(m0, m2, d', v)
      {
        assert SameAt(m0, m1, d', v) && SameAt(m1, m2, d', v);
      }
    }
  }

  lemma RowLength(m: Mem, o: map<nat, Use>, sm: seq<nat>, loose: set<nat>, d: nat)
    requires Owned(m, o, sm, loose) && d in m.dirs
    ensures |m.dirs[d]| == NPDE && forall i: nat | i < NPDE :: TableOf(m, d, i) == m.dirs[d][i]
  {
    assert DirOk(m, o, d);
  }

  lemma NotLoose(m: Mem, o: map<nat, Use>, sm: seq<nat>, loose: set<nat>, d: nat)
    requires Owned(m, o, sm, loose) && d in m.dirs
    ensures d !in loose && d !in Tables(o, d, 0)
  {
    assert DirOk(m, o, d);
  }

  lemma KeptSelf(m: Mem)
    ensures Kept(m, m, {})
  {
  }

  lemma DirAdded(m0: Mem, m1: Mem, m2: Mem, d: nat, row: seq<nat>)
    requires m1 == m0.(free := m1.free) && m2 == m1.(dirs := m1.dirs[d := row]) && d !in m1.dirs
    requires |row| == NPDE && forall i | 0 <= i < NPDE :: row[i] == 0
    ensures Kept(m0, m2, {}) && forall v: nat :: PteOf(m2, d, v) == Absent
  {
    forall d', v: nat | d' in m0.dirs
      ensures SameAt(m0, m2, d', v)
    {
    }
    forall v: nat
      ensures PteOf(m2, d, v) == Absent
    {
      assert TableOf(m2, d, v / NPDE) == 0;
    }
  }

  /** Changes in a directory that is new leave the old ones. */
  lemma KeptNew(m0: Mem, m1: Mem, m2: Mem, d: nat, lo: nat, hi: nat)
    requires Kept(m0, m1, {}) && SameOutside(m1, m2, d, lo, hi) && d !in m0.dirs
    ensures Kept(m0, m2, {}) && m2.dirs.Keys == m1.dirs.Keys
  {
    forall d' | d' in m0.dirs
      ensures d' in m2.dirs && forall v: nat :: SameAt(m0, m2, d', v)
    {
      forall v: nat
        ensures SameAt(m0, m2, d', v)
      {
        assert SameAt(m0, m1, d', v) && SameAt(m1, m2, d', v);
      }
    }
  }

  lemma KeptNotNew(m0: Mem, m1: Mem, m2: Mem, d: nat)
    requires Kept(m0, m1, {}) && Kept(m1, m2, {d}) && d !in m0.dirs
    ensures Kept(m0, m2, {})
  {
    forall d' | d' in m0.dirs
      ensures d' in m2.dirs && forall v: nat :: SameAt(m0, m2, d', v)
    {
      assert d' in m1.dirs;
      forall v: nat
        ensures SameAt(m0, m2, d', v)
      {
        assert SameAt(m0, m1, d', v) && SameAt(m1, m2, d', v);
      }
    }
  }

  lemma KeptAt(m0: Mem, m: Mem, d: nat, v: nat)
    requires Kept(m0, m, {}) && d in m0.dirs
    ensures d in m.dirs && SameAt(m0, m, d, v)
  {
  }

  ghost predicate RowsMapped(m: Mem, d: nat, kmap: seq<Range>, i: nat) {
    forall j | 0 <= j < i && j < |kmap| :: RangeMapped(m, d, kmap[j], kmap[j].count)
  }

  ghost predicate RowsClear(m: Mem, d: nat, kmap: seq<Range>, i: nat) {
    forall j | i <= j < |kmap| :: Clear(m, d, kmap[j].v, kmap[j].v + kmap[j].count)
  }

  /** setupkvm's loop after `i` rows. */
  ghost predicate KernelSoFar(m0: Mem, m: Mem, d: nat, kmap: seq<Range>, i: nat) {
    && i <= |kmap| && d in m.dirs && SameOutside(m0, m, d, KVPN, NVPN)
    && RowsMapped(m, d, kmap, i) && RowsClear(m, d, kmap, i)
    && Slots(m, d) == KernelSlots(kmap, i) && |m.free| + |Slots(m, d)| == |m0.free|
  }

  lemma KernelBegins(m: Mem, d: nat, kmap: seq<Range>)
    requires d in m.dirs && (forall v: nat :: PteOf(m, d, v) == Absent) && Slots(m, d) == {}
    ensures KernelSoFar(m, m, d, kmap, 0)
  {
    hide PteOf, Slots;
    SameSelf(m);
    Widen(m, m, d, KVPN, NVPN);
  }

  lemma KernelHere(m0: Mem, m: Mem, d: nat, kmap: seq<Range>, i: nat)
    requires KernelSoFar(m0, m, d, kmap, i) && i < |kmap| && KmapOk(kmap)
    ensures d in m.dirs && Clear(m, d, kmap[i].v, kmap[i].v + kmap[i].count) && InKernel(kmap[i])
  {
  }

  lemma KernelContinues(m0: Mem, m: Mem, m': Mem, d: nat, kmap: seq<Range>, i: nat)
    requires KmapOk(kmap) && i < |kmap| && KernelSoFar(m0, m, d, kmap, i) && d in m'.dirs
    requires SameOutside(m, m', d, kmap[i].v, kmap[i].v + kmap[i].count) && RangeMapped(m', d, kmap[i], kmap[i].count)
    requires Slots(m', d) == Slots(m, d) + RowSlots(kmap[i].v, kmap[i].count)
    requires |m'.free| + |Slots(m', d)| == |m.free| + |Slots(m, d)|
    ensures KernelSoFar(m0, m', d, kmap, i + 1)
  {
    hide PteOf, Slots, RowSlots, SameOutside, RangeMapped, Clear, KernelSlots;
    RangeInside(m0, m, m', d, kmap, i);
    KernelSlotsNext(kmap, i);
  }

  lemma KernelFails(m0: Mem, m: Mem, m': Mem, d: nat, kmap: seq<Range>, i: nat)
    requires KmapOk(kmap) && i < |kmap| && KernelSoFar(m0, m, d, kmap, i) && d in m'.dirs
    requires SameOutside(m, m', d, kmap[i].v, kmap[i].v + kmap[i].count)
    requires |m.free| + |Slots(m, d)| < |Slots(m, d) + RowSlots(kmap[i].v, kmap[i].count)|
    ensures SameOutside(m0, m', d, KVPN, NVPN) && |m0.free| < KernelTables(kmap)
  {
    hide PteOf, Slots, RowSlots, SameOutside, RangeMapped, Clear, KernelSlots;
    RangeInside(m0, m, m', d, kmap, i);
    KernelSlotsNext(kmap, i);
    KernelSlotsGrow(kmap, i + 1, |kmap|);
  }

  lemma KernelEnds(m0: Mem, m: Mem, d: nat, kmap: seq<Range>, i: nat)
    requires KmapOk(kmap) && i == |kmap| && KernelSoFar(m0, m, d, kmap, i)
    ensures d in m.dirs && SameOutside(m0, m, d, KVPN, NVPN) && RowsMapped(m, d, kmap, |kmap|)
    ensures |m.free| == |m0.free| - KernelTables(kmap)
    ensures forall i: nat | i < KVPN / NPDE :: TableOf(m, d, i) == 0
  {
    hide PteOf, RowSlots, SameOutside, RangeMapped, Clear, KernelSlots;
    KernelSlotsHigh(kmap, |kmap|);
    forall i: nat | i < KVPN / NPDE
      ensures TableOf(m, d, i) == 0
    {
      NoSlot(m, d, i);
    }
  }

  lemma KernelSlotsNext(kmap: seq<Range>, i: nat)
    requires i < |kmap|
    ensures KernelSlots(kmap, i + 1) == KernelSlots(kmap, i) + RowSlots(kmap[i].v, kmap[i].count)
  {
  }

  /** Mapping row `i` leaves the rows before it mapped and the ones after it absent. */
  lemma RangeInside(m0: Mem, m: Mem, m': Mem, d: nat, kmap: seq<Range>, i: nat)
    requires KmapOk(kmap) && i < |kmap| && SameOutside(m0, m, d, KVPN, NVPN) && d in m.dirs
    requires SameOutside(m, m', d, kmap[i].v, kmap[i].v + kmap[i].count)
    requires RowsMapped(m, d, kmap, i) && RowsClear(m, d, kmap, i)
    ensures SameOutside(m0, m', d, KVPN, NVPN) && RowsMapped(m', d, kmap, i) && RowsClear(m', d, kmap, i + 1)
  {
    hide PteOf;
    assert InKernel(kmap[i]);
    SameThen(m0, m, m', d, KVPN, NVPN, kmap[i].v, kmap[i].v + kmap[i].count);
    forall v: nat | !(kmap[i].v <= v < kmap[i].v + kmap[i].count)
      ensures PteOf(m', d, v) == PteOf(m, d, v)
    {
      assert SameAt(m, m', d, v);
    }
    forall j | 0 <= j < i
      ensures RangeMapped(m', d, kmap[j], kmap[j].count)
    {
      assert RangeMapped(m, d, kmap[j], kmap[j].count);
    }
    forall j | i < j < |kmap|
      ensures Clear(m', d, kmap[j].v, kmap[j].v + kmap[j].count)
    {
      assert Clear(m, d, kmap[j].v, kmap[j].v + kmap[j].count);
    }
  }

  lemma UserPartSame(m: Mem, m': Mem, d: nat)
    requires SameOutside(m, m', d, KVPN, NVPN) && d in m.dirs
    ensures m'.dirs.Keys == m.dirs.Keys && forall v: nat | v < KVPN :: PteOf(m', d, v) == PteOf(m, d, v)
  {
    forall v: nat | v < KVPN
      ensures PteOf(m', d, v) == PteOf(m, d, v)
    {
      assert SameAt(m, m', d, v);
    }
  }

  lemma UserPageSame(m: Mem, m': Mem, c: nat, v: nat)
    requires SameOutside(m, m', c, UVPN, KVPN) && c in m.dirs && v < UVPN
    ensures SameAt(m, m', c, v) && c in m'.dirs
  {
  }

  /** copyuvm's page loop at page `i`. */
  ghost predicate PagesSoFar(m0: Mem, m: Mem, d: nat, c: nat, i: nat) {
    && Kept(m0, m, {}) && m.dirs.Keys == m0.dirs.Keys + {c} && d in m0.dirs && c !in m0.dirs
    && forall v: nat | v < KVPN :: if 1 <= v < i then Copied(m0, m, d, c, v) else PteOf(m, c, v) == Absent
  }

  lemma PagesBegin(m0: Mem, m: Mem, d: nat, c: nat)
    requires OneMore(m0, m, c) && d in m0.dirs && c !in m0.dirs
    requires forall v: nat | v < KVPN :: PteOf(m, c, v) == Absent
    ensures PagesSoFar(m0, m, d, c, 1)
  {
    hide PteOf, Kept;
  }

  lemma PagesHere(m0: Mem, m: Mem, d: nat, c: nat, i: nat)
    requires PagesSoFar(m0, m, d, c, i)
    ensures Kept(m0, m, {}) && m.dirs.Keys == m0.dirs.Keys + {c} && c !in m0.dirs && d in m.dirs && SameAt(m0, m, d, i)
    ensures 1 <= i < KVPN ==> PteOf(m, c, i) == Absent
  {
    hide PteOf;
    KeptAt(m0, m, d, i);
  }

  lemma PagesContinue(m0: Mem, m: Mem, m': Mem, d: nat, c: nat, i: nat, f: nat)
    requires PagesSoFar(m0, m, d, c, i) && 1 <= i < UVPN && SameOutside(m, m', c, i, i + 1) && PteOf(m, d, i).Present?
    requires PteOf(m', c, i) == Present(f, PteOf(m, d, i).flags) && Content(m', c, i) == Content(m, d, i)
    ensures PagesSoFar(m0, m', d, c, i + 1)
  {
    hide PteOf, Content, Kept, SameOutside, Copied;
    KeptAt(m0, m, d, i);
    CopiedNow(m0, m, m', d, c, i, f);
    KeptNew(m0, m, m', c, i, i + 1);
  }

  lemma PagesEnd(m0: Mem, m: Mem, d: nat, c: nat, i: nat, sz: nat)
    requires PagesSoFar(m0, m, d, c, i) && 1 <= i && (i == 1 || i <= Pages(sz)) && Pages(sz) <= i
    ensures OneMore(m0, m, c)
    ensures forall v: nat | v < KVPN :: if 1 <= v < Pages(sz) then Copied(m0, m, d, c, v) else PteOf(m, c, v) == Absent
  {
    hide PteOf, Kept, Copied;
  }

  lemma CopiedNow(m0: Mem, m: Mem, m': Mem, d: nat, c: nat, i: nat, f: nat)
    requires SameOutside(m, m', c, i, i + 1) && SameAt(m0, m, d, i) && i < UVPN && c in m.dirs
             && PteOf(m0, d, i).Present?
    requires PteOf(m', c, i) == Present(f, PteOf(m, d, i).flags) && Content(m', c, i) == Content(m, d, i)
    requires forall v: nat | v < KVPN :: if 1 <= v < i then Copied(m0, m, d, c, v) else PteOf(m, c, v) == Absent
    ensures forall v: nat | v < KVPN && v != i ::
              if 1 <= v < i then Copied(m0, m', d, c, v) else PteOf(m', c, v) == Absent
    ensures Copied(m0, m', d, c, i)
  {
    hide PteOf, Content;
    forall v: nat | v < KVPN && v != i
      ensures if 1 <= v < i then Copied(m0, m', d, c, v) else PteOf(m', c, v) == Absent
    {
      assert SameAt(m, m', c, v);
    }
  }

  lemma CopiedStays(m0: Mem, m: Mem, m': Mem, d: nat, c: nat, v: nat)
    requires Copied(m0, m, d, c, v) && SameAt(m, m', c, v) && v < KVPN
    ensures Copied(m0, m', d, c, v)
  {
  }

  lemma OwnFrames(m: Mem, o: map<nat, Use>, sm: seq<nat>, loose: set<nat>, d: nat, c: nat, v: nat)
    requires Owned(m, o, sm, loose) && d in m.dirs && c in m.dirs && d != c && v < UVPN
    ensures FramesDiffer(m, d, c, v)
  {
    if PteOf(m, c, v).Present? && PteOf(m, d, v).Present? {
      MappedOnce(m, o, sm, loose, c, v, d, v);
    }
  }

  function Max(a: int, b: int): int {
    if a < b then b else a
  }

  function Min(a: int, b: int): int {
    if a < b then a else b
  }

  /** `flags & ~PTE_U`. */
  function WithoutUser(flags: int): (r: int) {
    if flags / PTE_U % 2 == 1 then flags - PTE_U else flags
  }

  // ---- loaduvm ----

  /** How loaduvm ends: 0, -1, its panic, or a write through an entry of 0. */
  datatype LoadResult = Loaded | ShortFile | NoTable | Astray

  ghost predicate WholePage(m: Mem, d: nat, v: nat) {
    PteOf(m, d, v).Present? && |Content(m, d, v)| == PGSIZE
  }

  /** Page `v` with `data` written over it from address `addr` on, as far as they overlap. */
  function Patched(page: Page, v: nat, addr: nat, data: seq<Byte>): (r: Page)
    requires |page| == PGSIZE
    ensures |r| == PGSIZE
    ensures forall b | 0 <= b < PGSIZE ::
              r[b] == if addr <= v * PGSIZE + b < addr + |data| then data[v * PGSIZE + b - addr] else page[b]
  {
    seq(PGSIZE, b requires 0 <= b < PGSIZE =>
      if addr <= v * PGSIZE + b < addr + |data| then data[v * PGSIZE + b - addr] else page[b])
  }

  /** loaduvm's loop with `i` bytes done. */
  ghost predicate LoadedSoFar(m0: Mem, m: Mem, d: nat, addr: nat, sz: nat, bytes: seq<Byte>, i: nat) {
    && SameOutside(m0, m, d, addr / PGSIZE, Pages(addr + sz)) && d in m0.dirs && PteOf(m0, d, 0) == Absent
    && (forall v: nat :: PteOf(m, d, v) == PteOf(m0, d, v))
    && forall v: nat | 1 <= v && addr <= v * PGSIZE < addr + sz ::
         WholePage(m0, d, v) && Content(m, d, v) == PageAt(m0, d, v, addr, bytes, i)
  }

  ghost function PageAt(m0: Mem, d: nat, v: nat, addr: nat, bytes: seq<Byte>, i: nat): Page
    requires WholePage(m0, d, v)
  {
    if v * PGSIZE < addr + i then Patched(Content(m0, d, v), v, addr, bytes) else Content(m0, d, v)
  }

  lemma LoadStarts(m: Mem, d: nat, addr: nat, sz: nat, bytes: seq<Byte>)
    requires d in m.dirs && PteOf(m, d, 0) == Absent
    requires forall v: nat | 1 <= v && addr <= v * PGSIZE < addr + sz :: WholePage(m, d, v)
    ensures LoadedSoFar(m, m, d, addr, sz, bytes, 0)
  {
    hide PteOf, Content;
    SameSelf(m);
    Widen(m, m, d, addr / PGSIZE, Pages(addr + sz));
  }

  /** The page at which the loop is. */
  lemma LoadHere(m0: Mem, m: Mem, d: nat, addr: nat, sz: nat, bytes: seq<Byte>, i: nat)
    requires LoadedSoFar(m0, m, d, addr, sz, bytes, i) && addr % PGSIZE == 0 && i % PGSIZE == 0 && i < sz
    ensures var v := (addr + i) / PGSIZE;
            && v * PGSIZE == addr + i && PteOf(m, d, v) == PteOf(m0, d, v) && d in m.dirs
            && (v == 0 ==> PteOf(m, d, v) == Absent)
            && (v > 0 ==> PteOf(m, d, v).Present? && TableOf(m, d, v / NPDE) != 0 && |Content(m, d, v)| == PGSIZE
                          && Content(m, d, v) == Content(m0, d, v))
  {
    hide Content, PageAt;
    var v := (addr + i) / PGSIZE;
    AlignedSum(addr, i);
    if v > 0 {
      assert WholePage(m0, d, v);
      assert Content(m, d, v) == PageAt(m0, d, v, addr, bytes, i);
      PageNotYet(m0, d, v, addr, bytes, i);
      PresentHasTable(m, d, v);
    } else {
      assert v == 0;
    }
  }

  lemma AlignedSum(addr: nat, i: nat)
    requires addr % PGSIZE == 0 && i % PGSIZE == 0
    ensures (addr + i) / PGSIZE * PGSIZE == addr + i
  {
    var a, b := addr / PGSIZE, i / PGSIZE;
    assert addr == a * PGSIZE && i == b * PGSIZE;
    assert addr + i == (a + b) * PGSIZE;
  }

  lemma PageNotYet(m0: Mem, d: nat, v: nat, addr: nat, bytes: seq<Byte>, i: nat)
    requires WholePage(m0, d, v) && v * PGSIZE >= addr + i
    ensures PageAt(m0, d, v, addr, bytes, i) == Content(m0, d, v)
  {
  }

  lemma PresentHasTable(m: Mem, d: nat, v: nat)
    requires PteOf(m, d, v).Present?
    ensures TableOf(m, d, v / NPDE) != 0
  {
  }

  lemma LoadContinues(
    m0: Mem, m: Mem, m': Mem, d: nat, addr: nat, sz: nat, bytes: seq<Byte>, i: nat, n: nat)
    requires LoadedSoFar(m0, m, d, addr, sz, bytes, i) && addr % PGSIZE == 0 && i % PGSIZE == 0 && 0 < addr + i
    requires addr + sz <= UVPN * PGSIZE && i < sz && |bytes| <= sz && n == Min(sz - i, PGSIZE) && i + n <= |bytes|
    requires var v := (addr + i) / PGSIZE;
             && SameOutside(m, m', d, v, v + 1) && PteOf(m', d, v) == PteOf(m, d, v)
             && Content(m', d, v) == bytes[i..i + n] + Content(m, d, v)[Min(n, |Content(m, d, v)|)..]
    ensures LoadedSoFar(m0, m', d, addr, sz, bytes, i + PGSIZE)
  {
    hide PteOf, Content, SameOutside;
    var v := (addr + i) / PGSIZE;
    LoadHere(m0, m, d, addr, sz, bytes, i);
    LoadInside(addr, sz, i);
    StepInside(m0, m, m', d, addr / PGSIZE, Pages(addr + sz), v);
    var page := Content(m0, d, v);
    assert WholePage(m0, d, v);
    assert bytes[i..i + n] + page[n..] == Patched(page, v, addr, bytes) by {
      forall b: nat | b < PGSIZE
        ensures (bytes[i..i + n] + page[n..])[b] == Patched(page, v, addr, bytes)[b]
      {
      }
    }
    forall u: nat | 1 <= u && addr <= u * PGSIZE < addr + sz
      ensures WholePage(m0, d, u) && Content(m', d, u) == PageAt(m0, d, u, addr, bytes, i + PGSIZE)
    {
      if u != v {
        SameAside(m, m', d, v, u);
        PageOrder(u, v, addr, i);
      }
    }
  }

  lemma PageOrder(u: nat, v: nat, addr: nat, i: nat)
    requires u != v && v * PGSIZE == addr + i
    ensures u * PGSIZE < addr + i <==> u * PGSIZE < addr + i + PGSIZE
  {
  }

  lemma SameAside(m: Mem, m': Mem, d: nat, v: nat, u: nat)
    requires SameOutside(m, m', d, v, v + 1) && d in m.dirs && u != v && u < KVPN
    ensures Content(m', d, u) == Content(m, d, u)
  {
    hide PteOf, Content;
    assert SameAt(m, m', d, u);
  }

  lemma LoadInside(addr: nat, sz: nat, i: nat)
    requires addr % PGSIZE == 0 && i % PGSIZE == 0 && i < sz
    ensures addr / PGSIZE <= (addr + i) / PGSIZE < Pages(addr + sz)
  {
  }

  lemma LoadEnds(m0: Mem, m: Mem, d: nat, addr: nat, sz: nat, bytes: seq<Byte>, i: nat)
    requires LoadedSoFar(m0, m, d, addr, sz, bytes, i)
    ensures SameOutside(m0, m, d, addr / PGSIZE, Pages(addr + sz)) && forall v: nat :: PteOf(m, d, v) == PteOf(m0, d, v)
    ensures i >= sz ==> forall v: nat | 1 <= v && addr <= v * PGSIZE < addr + sz ::
              WholePage(m0, d, v) && Content(m, d, v) == Patched(Content(m0, d, v), v, addr, bytes)
  {
    hide PteOf, Content;
  }

  // ---- What copyuvm costs ----

  /** Tables for the pages 1 to `n` - 1. */
  function PageTables(n: nat): (k: nat) {
    if n <= 1 then 0 else (n - 1) / NPDE + 1
  }

  /** Frames for those pages and tables. */
  function PageCost(n: nat): (k: nat) {
    if n <= 1 then 0 else n - 1 + PageTables(n)
  }

  /** The first page from `v` on that is not there, `n` or more if all are. */
  ghost function FirstAbsent(m: Mem, d: nat, v: nat, n: nat): (k: nat)
    ensures v <= k && (v <= n ==> k <= n) && (k < n ==> PteOf(m, d, k) == Absent)
    ensures forall j: nat | v <= j < k :: PteOf(m, d, j).Present?
    decreases n - v
  {
    if v >= n || PteOf(m, d, v) == Absent then v else FirstAbsent(m, d, v + 1, n)
  }

  lemma AbsentFrom(m: Mem, d: nat, v: nat, n: nat)
    ensures FirstAbsent(m, d, v, n) == if v >= n || PteOf(m, d, v) == Absent then v else FirstAbsent(m, d, v + 1, n)
    ensures FirstAbsent(m, d, v, n) >= v && (v < n && PteOf(m, d, v).Present? ==> FirstAbsent(m, d, v, n) > v)
    ensures v <= n ==> FirstAbsent(m, d, v, n) <= n
  {
  }

  lemma AbsentCosts(m: Mem, d: nat, n: nat)
    ensures var k := FirstAbsent(m, d, 1, n); PageCost(k) <= PageCost(n) && (k >= n ==> PageCost(k) == PageCost(n))
  {
  }

  /** The first set flag from `n` on; NSHARE if there is none. */
  function FirstSet(shared: seq<bool>, n: nat): (k: nat)
    requires |shared| == NSHARE && n <= NSHARE
    ensures n <= k <= NSHARE && (k < NSHARE ==> shared[k]) && forall j | n <= j < k :: !shared[j]
    decreases NSHARE - n
  {
    if n == NSHARE || shared[n] then n else FirstSet(shared, n + 1)
  }

  /** All shared pages lie under one table. */
  function SharedCost(shared: seq<bool>): (k: nat)
    requires |shared| == NSHARE
  {
    if FirstSet(shared, 0) < NSHARE then 1 else 0
  }

  /** Frames of a copy: directory, kernel tables, pages, their tables, and the table of the shared pages. */
  ghost function CopyCost(kmap: seq<Range>, sz: nat, shared: seq<bool>): (k: nat)
    requires |shared| == NSHARE
  {
    1 + KernelTables(kmap) + PageCost(Pages(sz)) + SharedCost(shared)
  }

  /** How far the loop over the shared pages comes with `free` frames to start from. */
  ghost function MarkedBy(free: nat, kmap: seq<Range>, sz: nat, shared: seq<bool>): (n: nat)
    requires |shared| == NSHARE
    ensures n <= NSHARE
  {
    if free >= CopyCost(kmap, sz, shared) then NSHARE
    else if free < CopyCost(kmap, sz, shared) - SharedCost(shared) then 0
    else 1 + FirstSet(shared, 0)
  }

  lemma CopyCosts(kmap: seq<Range>, sz: nat, shared: seq<bool>)
    requires |shared| == NSHARE
    ensures CopyCost(kmap, sz, shared) > 0
  {
  }

  /** The user part of a directory has exactly its first `n` tables. */
  ghost predicate LowSlots(m: Mem, c: nat, n: nat) {
    forall i: nat | i < KVPN / NPDE :: i in Slots(m, c) <==> i < n
  }

  lemma NoLowSlots(m: Mem, c: nat)
    requires forall i: nat | i < KVPN / NPDE :: TableOf(m, c, i) == 0
    ensures LowSlots(m, c, 0)
  {
  }

  lemma SetFrom(shared: seq<bool>, n: nat)
    requires |shared| == NSHARE && n < NSHARE
    ensures FirstSet(shared, n) == if shared[n] then n else FirstSet(shared, n + 1)
    ensures FirstSet(shared, n + 1) > n && FirstSet(shared, NSHARE) == NSHARE
  {
  }

  lemma SameSlots(m: Mem, m': Mem, d: nat)
    requires m'.dirs == m.dirs
    ensures Slots(m', d) == Slots(m, d)
  {
  }

  lemma TakenSlots(m: Mem, m': Mem, d: nat, v: nat)
    requires Taken(m, m', d, v)
    ensures Slots(m', d) == Slots(m, d) + {v / NPDE}
  {
  }

  /** Page `i` is the next one: it needs a table exactly at the start of a table's range. */
  lemma PageTaken(m: Mem, m': Mem, c: nat, i: nat)
    requires 1 <= i < UVPN && LowSlots(m, c, PageTables(i))
    ensures 1 + TableCost(m, c, i) == PageCost(i + 1) - PageCost(i)
    ensures Slots(m', c) == Slots(m, c) + {i / NPDE} ==> LowSlots(m', c, PageTables(i + 1))
  {
    var s := i / NPDE;
    assert s < KVPN / NPDE;
    assert s in Slots(m, c) <==> s < PageTables(i);
  }

  /** copyuvm's page loop at page `i`: the tables there are, and the frames they and the pages took. */
  ghost predicate CostSoFar(m1: Mem, m: Mem, c: nat, i: nat) {
    LowSlots(m1, c, 0) ==> LowSlots(m, c, PageTables(i)) && |m.free| == |m1.free| - PageCost(i)
  }

  lemma CostStarts(m: Mem, c: nat)
    ensures CostSoFar(m, m, c, 1)
  {
  }

  lemma CostExceeds(m1: Mem, m: Mem, c: nat, i: nat, n: nat)
    requires CostSoFar(m1, m, c, i) && 1 <= i < n && i < UVPN && |m.free| < 1 + TableCost(m, c, i)
    ensures LowSlots(m1, c, 0) ==> |m1.free| < PageCost(n)
  {
    hide LowSlots, TableCost;
    if LowSlots(m1, c, 0) {
      PageTaken(m, m, c, i);
      CostGrows(i, n);
    }
  }

  lemma CostCovered(m1: Mem, m: Mem, c: nat, i: nat)
    requires CostSoFar(m1, m, c, i)
    ensures LowSlots(m1, c, 0) ==> |m1.free| >= PageCost(i)
  {
  }

  lemma CostContinues(m1: Mem, m: Mem, m': Mem, c: nat, i: nat)
    requires CostSoFar(m1, m, c, i) && 1 <= i < UVPN && Slots(m', c) == Slots(m, c) + {i / NPDE}
    requires |m'.free| == |m.free| - 1 - TableCost(m, c, i)
    ensures CostSoFar(m1, m', c, i + 1)
  {
    hide LowSlots, TableCost, Slots;
    if LowSlots(m1, c, 0) {
      PageTaken(m, m', c, i);
    }
  }

  lemma CostEnds(m1: Mem, m: Mem, c: nat, i: nat, n: nat)
    requires CostSoFar(m1, m, c, i) && 1 <= i && (i == 1 || i <= n) && n <= i && |m1.free| <= PHYSPAGES
    ensures LowSlots(m1, c, 0) ==> |m.free| == |m1.free| - PageCost(n) && TableOf(m, c, SHARED_SLOT) == 0
  {
    hide LowSlots;
    if LowSlots(m1, c, 0) {
      LowIsNotShared(m, c, i);
    }
  }

  /** Free frames are among all frames. */
  lemma FreeBound(m: Mem, o: map<nat, Use>, sm: seq<nat>, loose: set<nat>)
    requires Owned(m, o, sm, loose)
    ensures |m.free| <= |o.Keys|
  {
    NoDupSize(m.free);
    SubsetSize(AsSet(m.free), o.Keys);
  }

  lemma CostGrows(i: nat, n: nat)
    requires 1 <= i < n
    ensures PageCost(i + 1) <= PageCost(n)
  {
  }

  lemma LowIsNotShared(m: Mem, c: nat, i: nat)
    requires LowSlots(m, c, PageTables(i)) && i <= UVPN - NPDE
    ensures TableOf(m, c, SHARED_SLOT) == 0
  {
    assert SHARED_SLOT in Slots(m, c) <==> SHARED_SLOT < PageTables(i);
  }

  lemma SharedTaken(m: Mem, m': Mem, c: nat, v: nat)
    requires Taken(m, m', c, v) && v / NPDE == SHARED_SLOT
    ensures TableOf(m', c, SHARED_SLOT) != 0
    ensures |m'.free| == |m.free| - TableCost(m, c, v)
  {
    assert SHARED_SLOT in Slots(m', c);
    assert SHARED_SLOT in Slots(m, c) ==> Slots(m', c) == Slots(m, c);
  }

  /** How copyuvm's page loop ends. */
  datatype CopyResult = Done | OutOfMemory | Missing

  // ---- Tables and what they cost ----

  /** The slots of a directory that have a table. */
  ghost function Slots(m: Mem, d: nat): set<nat> {
    set i: nat | i < NPDE && TableOf(m, d, i) != 0
  }

  /** Frames that mapping page `v` takes for its table. */
  ghost function TableCost(m: Mem, d: nat, v: nat): nat {
    if TableOf(m, d, v / NPDE) == 0 then 1 else 0
  }

  /** Mapping page `v` took a frame exactly if its table was not there. */
  ghost predicate Taken(m: Mem, m': Mem, d: nat, v: nat) {
    Slots(m', d) == Slots(m, d) + {v / NPDE} && |m'.free| + |Slots(m', d)| == |m.free| + |Slots(m, d)|
  }

  lemma WalkTakes(m: Mem, m': Mem, d: nat, v: nat)
    requires v < NVPN && Slots(m', d) == Slots(m, d) + {v / NPDE}
    requires if TableOf(m, d, v / NPDE) == 0 then m.free != [] && m'.free == m.free[1..] else m'.free == m.free
    ensures Taken(m, m', d, v)
  {
    if TableOf(m, d, v / NPDE) == 0 {
      assert v / NPDE !in Slots(m, d);
    } else {
      assert v / NPDE in Slots(m, d);
      assert Slots(m', d) == Slots(m, d);
    }
  }

  lemma TakenKept(m0: Mem, m: Mem, m': Mem, d: nat, v: nat)
    requires Taken(m0, m, d, v) && m'.dirs == m.dirs && m'.free == m.free
    ensures Taken(m0, m', d, v)
  {
    assert Slots(m', d) == Slots(m, d);
  }

  lemma NoSlots(m: Mem, d: nat, row: seq<nat>)
    requires d in m.dirs && m.dirs[d] == row && forall i | 0 <= i < |row| :: row[i] == 0
    ensures Slots(m, d) == {}
  {
  }

  /** The slots that `n` pages from `v` on need. */
  ghost function RowSlots(v: nat, n: nat): set<nat> {
    if n == 0 then {} else RowSlots(v, n - 1) + {(v + n - 1) / NPDE}
  }

  ghost function KernelSlots(kmap: seq<Range>, n: nat): set<nat>
    requires n <= |kmap|
  {
    if n == 0 then {} else KernelSlots(kmap, n - 1) + RowSlots(kmap[n - 1].v, kmap[n - 1].count)
  }

  /** How many tables the kernel's map needs. */
  ghost function KernelTables(kmap: seq<Range>): nat {
    |KernelSlots(kmap, |kmap|)|
  }

  lemma {:induction false} RowSlotsGrow(v: nat, j: nat, n: nat)
    requires j <= n
    ensures RowSlots(v, j) <= RowSlots(v, n)
  {
    if j < n {
      RowSlotsGrow(v, j, n - 1);
    }
  }

  lemma {:induction false} RowSlotsHigh(v: nat, n: nat)
    requires KVPN <= v
    ensures forall i | i in RowSlots(v, n) :: i >= KVPN / NPDE
  {
    if n > 0 {
      RowSlotsHigh(v, n - 1);
    }
  }

  lemma {:induction false} KernelSlotsGrow(kmap: seq<Range>, j: nat, n: nat)
    requires j <= n <= |kmap|
    ensures KernelSlots(kmap, j) <= KernelSlots(kmap, n) && |KernelSlots(kmap, j)| <= |KernelSlots(kmap, n)|
  {
    if j < n {
      KernelSlotsGrow(kmap, j, n - 1);
    }
    SubsetSize(KernelSlots(kmap, j), KernelSlots(kmap, n));
  }

  lemma {:induction false} KernelSlotsHigh(kmap: seq<Range>, n: nat)
    requires KmapOk(kmap) && n <= |kmap|
    ensures forall i | i in KernelSlots(kmap, n) :: i >= KVPN / NPDE
  {
    if n > 0 {
      KernelSlotsHigh(kmap, n - 1);
      assert InKernel(kmap[n - 1]);
      RowSlotsHigh(kmap[n - 1].v, kmap[n - 1].count);
    }
  }

  lemma NoSlot(m: Mem, d: nat, i: nat)
    requires i < NPDE && i !in Slots(m, d)
    ensures TableOf(m, d, i) == 0
  {
  }

  /** The loop of mappages after `j` pages of row `k`. */
  ghost predicate RowSoFar(m0: Mem, m: Mem, d: nat, k: Range, j: nat) {
    && d in m.dirs && SameOutside(m0, m, d, k.v, k.v + k.count) && RangeMapped(m, d, k, j)
    && Slots(m, d) == Slots(m0, d) + RowSlots(k.v, j)
    && |m.free| + |Slots(m, d)| == |m0.free| + |Slots(m0, d)| && Clear(m, d, k.v + j, k.v + k.count)
  }

  lemma RowBegins(m: Mem, d: nat, k: Range)
    requires d in m.dirs && Clear(m, d, k.v, k.v + k.count)
    ensures RowSoFar(m, m, d, k, 0)
  {
    hide PteOf, Slots;
    SameSelf(m);
    Widen(m, m, d, k.v, k.v + k.count);
    assert Slots(m, d) + RowSlots(k.v, 0) == Slots(m, d);
  }

  lemma RowHere(m0: Mem, m: Mem, d: nat, k: Range, j: nat)
    requires RowSoFar(m0, m, d, k, j) && j < k.count
    ensures d in m.dirs && PteOf(m, d, k.v + j) == Absent
  {
  }

  lemma RowContinues(m0: Mem, m: Mem, m': Mem, d: nat, k: Range, j: nat)
    requires RowSoFar(m0, m, d, k, j) && j < k.count && SameOutside(m, m', d, k.v + j, k.v + j + 1)
    requires PteOf(m', d, k.v + j) == Present(k.frame + j, k.flags) && Taken(m, m', d, k.v + j)
    ensures RowSoFar(m0, m', d, k, j + 1)
  {
    hide PteOf, Slots, RowSlots, SameOutside;
    StepInside(m0, m, m', d, k.v, k.v + k.count, k.v + j);
    RowSlotsNext(k.v, j);
  }

  lemma RowEnds(m0: Mem, m: Mem, d: nat, k: Range, j: nat)
    requires RowSoFar(m0, m, d, k, j) && j == k.count
    ensures d in m.dirs && SameOutside(m0, m, d, k.v, k.v + k.count) && RangeMapped(m, d, k, k.count)
    ensures Slots(m, d) == Slots(m0, d) + RowSlots(k.v, k.count)
    ensures |m.free| + |Slots(m, d)| == |m0.free| + |Slots(m0, d)|
  {
  }

  lemma RowFails(m0: Mem, m: Mem, d: nat, k: Range, j: nat)
    requires RowSoFar(m0, m, d, k, j) && j < k.count && m.free == [] && TableOf(m, d, (k.v + j) / NPDE) == 0
    ensures d in m.dirs && SameOutside(m0, m, d, k.v, k.v + k.count)
    ensures |m0.free| + |Slots(m0, d)| < |Slots(m0, d) + RowSlots(k.v, k.count)|
  {
    hide PteOf, Slots, RowSlots, SameOutside;
    RowTooLong(m, d, Slots(m0, d), k, j);
  }

  /** Out of frames with a table missing: the row needs more tables than there were frames. */
  lemma RowTooLong(m: Mem, d: nat, before: set<nat>, k: Range, j: nat)
    requires j < k.count && Slots(m, d) == before + RowSlots(k.v, j)
    requires TableOf(m, d, (k.v + j) / NPDE) == 0
    ensures |Slots(m, d)| < |before + RowSlots(k.v, k.count)|
  {
    hide RowSlots, Slots;
    var slot := (k.v + j) / NPDE;
    NoTableNoSlot(m, d, slot);
    RowSlotsGrow(k.v, j + 1, k.count);
    RowSlotsNext(k.v, j);
    SubsetSize(Slots(m, d) + {slot}, before + RowSlots(k.v, k.count));
  }

  lemma NoTableNoSlot(m: Mem, d: nat, i: nat)
    requires TableOf(m, d, i) == 0
    ensures i !in Slots(m, d)
  {
  }

  lemma RowSlotsNext(v: nat, j: nat)
    ensures RowSlots(v, j + 1) == RowSlots(v, j) + {(v + j) / NPDE}
  {
  }

  lemma SameTable(m: Mem, m': Mem, d: nat, i: nat)
    requires m'.dirs == m.dirs
    ensures TableOf(m', d, i) == TableOf(m, d, i)
  {
  }

  lemma AbsentWithoutTable(m: Mem, d: nat, v: nat)
    ensures TableOf(m, d, v / NPDE) == 0 ==> PteOf(m, d, v) == Absent
  {
  }

  ghost function AsSet(s: seq<nat>): set<nat> {
    set f | f in s
  }

  lemma {:induction false} AsSetSize(s: seq<nat>)
    ensures |AsSet(s)| <= |s|
  {
    if s == [] {
      assert AsSet(s) == {};
    } else {
      AsSetSize(s[1..]);
      assert AsSet(s) == {s[0]} + AsSet(s[1..]);
    }
  }

  lemma {:induction false} NoDupSize(s: seq<nat>)
    requires NoDup(s)
    ensures |AsSet(s)| == |s|
  {
    if s == [] {
      assert AsSet(s) == {};
    } else {
      NoDupSize(s[1..]);
      assert AsSet(s) == {s[0]} + AsSet(s[1..]);
    }
  }

  // ---- Ranges of pages ----

  ghost predicate Clear(m: Mem, d: nat, lo: nat, hi: nat) {
    forall v: nat | lo <= v < hi :: PteOf(m, d, v) == Absent
  }

  /** What was free is free, and so are the frames that were behind pages `lo..hi`. */
  ghost predicate Released(m0: Mem, m: Mem, d: nat, lo: nat, hi: nat) {
    && (forall f | f in m0.free :: f in m.free)
    && (forall v: nat | lo <= v < hi && PteOf(m0, d, v).Present? :: PteOf(m0, d, v).frame in m.free)
  }

  /** From page `a` on nothing has changed yet. */
  ghost predicate Pending(m0: Mem, m: Mem, d: nat, a: nat) {
    forall v: nat | v >= a :: PteOf(m, d, v) == PteOf(m0, d, v)
  }

  lemma ClearNone(m: Mem, d: nat, lo: nat, hi: nat)
    requires hi <= lo
    ensures Clear(m, d, lo, hi)
  {
  }

  lemma NotClear(m: Mem, d: nat, lo: nat, hi: nat, a: nat)
    requires lo <= a < hi && PteOf(m, d, a).Present?
    ensures !Clear(m, d, lo, hi)
  {
  }

  lemma ClearMore(m: Mem, d: nat, lo: nat, a: nat)
    requires Clear(m, d, lo, a) && PteOf(m, d, a) == Absent
    ensures Clear(m, d, lo, a + 1)
  {
  }

  lemma DeallocStarts(m: Mem, d: nat, lo: nat)
    ensures Clear(m, d, lo, lo) && Released(m, m, d, lo, lo) && Pending(m, m, d, lo)
  {
  }

  lemma DeallocSkips(m0: Mem, m: Mem, d: nat, lo: nat, hi: nat, a: nat)
    requires lo <= a < hi && TableOf(m, d, a / NPDE) == 0
    requires Clear(m, d, lo, a) && Released(m0, m, d, lo, a) && Pending(m0, m, d, a) && Clear(m0, d, Max(UVPN, lo), a)
    ensures var b := Min((a / NPDE + 1) * NPDE, hi);
            && Clear(m, d, lo, b) && Released(m0, m, d, lo, b) && Pending(m0, m, d, b) && Clear(m0, d, Max(UVPN, lo), b)
  {
    hide PteOf;
    SkippedAbsent(m, d, a);
    var b := Min((a / NPDE + 1) * NPDE, hi);
    forall v: nat | a <= v < b
      ensures PteOf(m, d, v) == PteOf(m0, d, v) == Absent
    {
    }
  }

  lemma DeallocSteps(m0: Mem, mid: Mem, m: Mem, d: nat, lo: nat, hi: nat, a: nat)
    requires lo <= a < hi && a < UVPN && (forall v: nat | v != a :: PteOf(m, d, v) == PteOf(mid, d, v))
    requires PteOf(m, d, a) == Absent
    requires m.free == (if PteOf(mid, d, a).Present? then [PteOf(mid, d, a).frame] else []) + mid.free
    requires Clear(mid, d, lo, a) && Released(m0, mid, d, lo, a) && Pending(m0, mid, d, a)
             && Clear(m0, d, Max(UVPN, lo), a)
    ensures Clear(m, d, lo, a + 1) && Released(m0, m, d, lo, a + 1) && Pending(m0, m, d, a + 1)
    ensures Clear(m0, d, Max(UVPN, lo), a + 1)
  {
    hide PteOf;
    assert PteOf(mid, d, a) == PteOf(m0, d, a);
  }

  lemma DeallocSees(m0: Mem, m: Mem, d: nat, lo: nat, hi: nat, a: nat)
    requires lo <= a < hi && UVPN <= a && PteOf(m, d, a) == PteOf(m0, d, a) == Absent
    requires Clear(m, d, lo, a) && Released(m0, m, d, lo, a) && Pending(m0, m, d, a) && Clear(m0, d, Max(UVPN, lo), a)
    ensures Clear(m, d, lo, a + 1) && Released(m0, m, d, lo, a + 1) && Pending(m0, m, d, a + 1)
    ensures Clear(m0, d, Max(UVPN, lo), a + 1)
  {
    hide PteOf;
  }

  lemma PendingHere(m0: Mem, m: Mem, d: nat, a: nat)
    requires Pending(m0, m, d, a)
    ensures PteOf(m, d, a) == PteOf(m0, d, a)
  {
  }

  lemma SharedHere(m: Mem, o: map<nat, Use>, sm: seq<nat>, loose: set<nat>, d: nat, a: nat)
    requires Owned(m, o, sm, loose) && d in m.dirs && UVPN <= a < KVPN && PteOf(m, d, a).Present?
    ensures |sm| == NSHARE && PteOf(m, d, a).frame == sm[KVPN - 1 - a]
  {
    assert PteOk(m, o, sm, d, a);
  }

  /** With a few thousand frames no space grows up to the shared pages. */
  lemma NeverThatFar(m: Mem, o: map<nat, Use>, sm: seq<nat>, loose: set<nat>, d: nat, lo: nat, a: nat)
    requires Owned(m, o, sm, loose) && |o.Keys| <= PHYSPAGES && d in m.dirs && lo <= a <= UVPN && lo <= PHYSPAGES + 1
    requires forall v: nat | lo <= v < a :: Fresh(m, d, v)
    ensures a < UVPN && a - lo <= PHYSPAGES
  {
    hide Owned, PteOf, Content;
    forall v: nat | lo <= v < a
      ensures PteOf(m, d, v).Present?
    {
      assert Fresh(m, d, v);
    }
    var used := PagesNeedFrames(m, o, sm, loose, d, lo, a);
    SubsetSize(used, o.Keys);
  }

  lemma PageBeyond(m0: Mem, m: Mem, d: nat, lo: nat, a: nat)
    requires SameOutside(m0, m, d, lo, a) && d in m.dirs
    ensures PteOf(m, d, a) == PteOf(m0, d, a)
  {
    assert SameAt(m0, m, d, a);
  }

  lemma ClearSame(m0: Mem, mid: Mem, m: Mem, d: nat, lo: nat, a: nat, hi: nat)
    requires SameOutside(m0, mid, d, lo, a) && SameOutside(mid, m, 0, 0, 0) && d in m.dirs && a <= UVPN
    ensures Clear(m0, d, UVPN, hi) <==> Clear(m, d, UVPN, hi)
  {
    forall v: nat | UVPN <= v
      ensures PteOf(m, d, v) == PteOf(m0, d, v)
    {
      assert SameAt(m0, mid, d, v) && SameAt(mid, m, d, v);
    }
  }

  lemma ReleasedMore(m0: Mem, m1: Mem, m: Mem, d: nat, lo: nat, hi: nat)
    requires Released(m0, m1, d, lo, hi) && forall f | f in m1.free :: f in m.free
    ensures Released(m0, m, d, lo, hi)
  {
  }

  lemma DroppedKeys(o: map<nat, Use>, d: nat)
    ensures Dropped(o, d).Keys == o.Keys
  {
  }

  lemma SameKeys(m: Mem, m': Mem, d: nat, lo: nat, hi: nat)
    requires SameOutside(m, m', d, lo, hi)
    ensures m'.dirs.Keys == m.dirs.Keys
  {
  }
}
