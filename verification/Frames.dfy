/**
 Physical frames and two-level page tables of part1/vm.c and part1/kalloc.c, as values: what each frame is used for, and
 what one allocation, one mapping or one release does to that. Addresses are page numbers.
 */
module Frames {
  import opened Blocks

  const NPDE: nat := 1024                  // entries in a directory or a table
  const NSHARE: nat := 4                   // NSHAREPAGE
  const KVPN: nat := 0x80000               // KERNBASE / PGSIZE
  const UVPN: nat := 0x7FFFC               // the first shared page: KVPN - NSHARE
  const NVPN: nat := 0x100000

  type Page = seq<Byte>

  datatype Pte = Absent | Present(frame: nat, flags: int)

  /** The free list, the page directories (0 for an absent table), the page tables, and the contents of pages. */
  datatype Mem = Mem(free: seq<nat>, dirs: map<nat, seq<nat>>, tabs: map<nat, seq<Pte>>, pages: map<nat, Page>)

  datatype Use = Free | Dir | Table(d: nat, i: nat) | Private(d: nat, v: nat) | Shared(n: nat) | Loose

  /** The entry for page `v` in directory `d`: walkpgdir without allocation. */
  function PteOf(m: Mem, d: nat, v: nat): (e: Pte) {
    var t := TableOf(m, d, v / NPDE);
    if t != 0 && t in m.tabs && v % NPDE < |m.tabs[t]| then m.tabs[t][v % NPDE] else Absent
  }

  function TableOf(m: Mem, d: nat, i: nat): (t: nat) {
    if d in m.dirs && i < |m.dirs[d]| then m.dirs[d][i] else 0
  }

  ghost predicate NoDup(s: seq<nat>) {
    forall i, j | 0 <= i < j < |s| :: s[i] != s[j]
  }

  ghost predicate DirOk(m: Mem, o: map<nat, Use>, d: nat)
    requires d in m.dirs
  {
    d in o && o[d] == Dir && |m.dirs[d]| == NPDE
  }

  ghost predicate PdeOk(m: Mem, o: map<nat, Use>, d: nat, i: nat)
    requires d in m.dirs
  {
    TableOf(m, d, i) != 0 ==>
      var f := TableOf(m, d, i);
      f in o && o[f] == Table(d, i) && f in m.tabs && |m.tabs[f]| == NPDE
  }

  ghost predicate PteOk(m: Mem, o: map<nat, Use>, sm: seq<nat>, d: nat, v: nat)
    requires |sm| == NSHARE && v < KVPN
  {
    PteOf(m, d, v).Present? ==>
      var f := PteOf(m, d, v).frame;
      if v < UVPN then f in o && o[f] == Private(d, v) else f == sm[KVPN - 1 - v]
  }

  ghost predicate UseOk(m: Mem, o: map<nat, Use>, sm: seq<nat>, loose: set<nat>, f: nat)
    requires f in o && |sm| == NSHARE
  {
    match o[f]
    case Free => f in m.free
    case Dir => f in m.dirs
    case Table(d, i) => d in m.dirs && i < NPDE && TableOf(m, d, i) == f
    case Private(d, v) => d in m.dirs && v < UVPN && PteOf(m, d, v).Present? && PteOf(m, d, v).frame == f
    case Shared(n) => n < NSHARE && sm[n] == f
    case Loose => f in loose
  }

  /**
   Every frame has exactly one use: on the free list once, a directory, the table of one directory slot, the page behind
   one private entry, a shared page, or `loose`, that is allocated for something else.
   */
  ghost predicate Owned(m: Mem, o: map<nat, Use>, sm: seq<nat>, loose: set<nat>) {
    && |sm| == NSHARE && 0 !in o && NoDup(m.free)
    && (forall n | 0 <= n < NSHARE :: sm[n] in o && o[sm[n]] == Shared(n))
    && (forall f | f in m.free :: f in o && o[f] == Free)
    && (forall f | f in loose :: f in o && o[f] == Loose)
    && (forall d | d in m.dirs :: DirOk(m, o, d))
    && (forall d, i: nat | d in m.dirs && i < NPDE :: PdeOk(m, o, d, i))
    && (forall d, v: nat | d in m.dirs && v < KVPN :: PteOk(m, o, sm, d, v))
    && (forall f | f in o :: UseOk(m, o, sm, loose, f))
  }

  /** No page has two mappings, and no mapped page is shared, free or a table. */
  lemma MappedOnce(m: Mem, o: map<nat, Use>, sm: seq<nat>, loose: set<nat>, d: nat, v: nat, d': nat, v': nat)
    requires Owned(m, o, sm, loose) && d in m.dirs && d' in m.dirs && v < UVPN && v' < UVPN && (d, v) != (d', v')
    requires PteOf(m, d, v).Present? && PteOf(m, d', v').Present?
    ensures var f := PteOf(m, d, v).frame;
            f != PteOf(m, d', v').frame && f !in m.free && f !in m.dirs && f !in sm && f !in loose
  {
    assert PteOk(m, o, sm, d, v) && PteOk(m, o, sm, d', v');
    forall n | 0 <= n < NSHARE
      ensures sm[n] != PteOf(m, d, v).frame
    {
    }
    var f := PteOf(m, d, v).frame;
    assert f in m.dirs ==> DirOk(m, o, f);
  }

  // ---- Steps that change the use of one frame ----

  /** Entries, directories and tables that mention `f` are as they were, and `f` is in none of them. */
  lemma Reuse(m: Mem, m': Mem, o: map<nat, Use>, sm: seq<nat>, loose: set<nat>, loose': set<nat>, f: nat, u: Use)
    requires Owned(m, o, sm, loose) && f in o && (o[f] == Free || o[f] == Loose) && (u == Free || u == Loose)
    requires m'.dirs == m.dirs && m'.tabs == m.tabs && NoDup(m'.free)
    requires forall g :: g in m'.free <==> (g in m.free && g != f) || (g == f && u == Free)
    requires forall g :: g in loose' <==> (g in loose && g != f) || (g == f && u == Loose)
    ensures Owned(m', o[f := u], sm, loose')
  {
    var o' := o[f := u];
    forall d | d in m.dirs
      ensures DirOk(m', o', d)
    {
      assert DirOk(m, o, d);
    }
    forall d, i: nat | d in m.dirs && i < NPDE
      ensures PdeOk(m', o', d, i)
    {
      assert PdeOk(m, o, d, i);
    }
    forall d, v: nat | d in m.dirs && v < KVPN
      ensures PteOk(m', o', sm, d, v)
    {
      assert PteOk(m, o, sm, d, v);
    }
    forall g | g in o'
      ensures UseOk(m', o', sm, loose', g)
    {
      assert UseOk(m, o, sm, loose, g);
    }
  }

  /** kalloc. */
  lemma TakeFrame(m: Mem, o: map<nat, Use>, sm: seq<nat>, loose: set<nat>)
    requires Owned(m, o, sm, loose) && m.free != []
    ensures var f := m.free[0];
            f in o && f != 0 && f !in loose && Owned(m.(free := m.free[1..]), o[f := Loose], sm, loose + {f})
  {
    var f := m.free[0];
    assert f in m.free;
    var m' := m.(free := m.free[1..]);
    forall g
      ensures g in m'.free <==> g in m.free && g != f
    {
      if g in m.free && g != f {
        var i :| 0 <= i < |m.free| && m.free[i] == g;
        assert m'.free[i - 1] == g;
      }
    }
    Reuse(m, m', o, sm, loose, loose + {f}, f, Loose);
  }

  /** kfree of a loose frame. */
  lemma GiveFrame(m: Mem, o: map<nat, Use>, sm: seq<nat>, loose: set<nat>, f: nat)
    requires Owned(m, o, sm, loose) && f in loose
    ensures Owned(m.(free := [f] + m.free), o[f := Free], sm, loose - {f})
  {
    var m' := m.(free := [f] + m.free);
    assert f !in m.free;
    forall i, j | 0 <= i < j < |m'.free|
      ensures m'.free[i] != m'.free[j]
    {
      assert m'.free[j] == m.free[j - 1] && m.free[j - 1] in m.free;
    }
    Reuse(m, m', o, sm, loose, loose - {f}, f, Free);
  }

  /** A loose frame becomes a directory with no tables. */
  lemma NewDir(m: Mem, o: map<nat, Use>, sm: seq<nat>, loose: set<nat>, f: nat, empty: seq<nat>)
    requires Owned(m, o, sm, loose) && f in loose && |empty| == NPDE && forall i | 0 <= i < NPDE :: empty[i] == 0
    ensures f !in m.dirs && Owned(m.(dirs := m.dirs[f := empty]), o[f := Dir], sm, loose - {f})
    ensures forall d, v: nat :: PteOf(m.(dirs := m.dirs[f := empty]), d, v) == if d == f then Absent else PteOf(m, d, v)
  {
    var m', o' := m.(dirs := m.dirs[f := empty]), o[f := Dir];
    assert f in m.dirs ==> DirOk(m, o, f);
    forall d, v: nat
      ensures PteOf(m', d, v) == if d == f then Absent else PteOf(m, d, v)
    {
      assert TableOf(m', d, v / NPDE) == if d == f then 0 else TableOf(m, d, v / NPDE);
    }
    forall d | d in m'.dirs
      ensures DirOk(m', o', d)
    {
      assert d != f ==> DirOk(m, o, d);
    }
    forall d, i: nat | d in m'.dirs && i < NPDE
      ensures PdeOk(m', o', d, i)
    {
      assert d != f ==> PdeOk(m, o, d, i);
    }
    forall d, v: nat | d in m'.dirs && v < KVPN
      ensures PteOk(m', o', sm, d, v)
    {
      assert d != f ==> PteOk(m, o, sm, d, v);
    }
    forall g | g in o'
      ensures UseOk(m', o', sm, loose - {f}, g)
    {
      assert UseOk(m, o, sm, loose, g);
    }
  }

  /** A loose frame becomes the table, empty, of a directory slot that had none. */
  function WithTable(m: Mem, d: nat, i: nat, f: nat, empty: seq<Pte>): Mem
    requires d in m.dirs && i < |m.dirs[d]|
  {
    var row: seq<nat> := m.dirs[d][i := f];
    m.(dirs := m.dirs[d := row], tabs := m.tabs[f := empty])
  }

  lemma NewTable(m: Mem, o: map<nat, Use>, sm: seq<nat>, loose: set<nat>, d: nat, i: nat, f: nat, empty: seq<Pte>)
    requires Owned(m, o, sm, loose) && f in loose && d in m.dirs && i < NPDE && TableOf(m, d, i) == 0
    requires |empty| == NPDE && forall j | 0 <= j < NPDE :: empty[j] == Absent
    ensures i < |m.dirs[d]| && f != 0 && Owned(WithTable(m, d, i, f, empty), o[f := Table(d, i)], sm, loose - {f})
    ensures forall d', v: nat | d' in m.dirs :: PteOf(WithTable(m, d, i, f, empty), d', v) == PteOf(m, d', v)
  {
    assert DirOk(m, o, d);
    var m', o' := WithTable(m, d, i, f, empty), o[f := Table(d, i)];
    assert f in m.dirs ==> DirOk(m, o, f);
    forall d', v: nat | d' in m.dirs
      ensures PteOf(m', d', v) == PteOf(m, d', v)
    {
      assert DirOk(m, o, d');
      if v / NPDE < NPDE {
        assert PdeOk(m, o, d', v / NPDE);
      }
    }
    forall d' | d' in m'.dirs
      ensures DirOk(m', o', d')
    {
      assert DirOk(m, o, d');
    }
    forall d', j: nat | d' in m'.dirs && j < NPDE
      ensures PdeOk(m', o', d', j)
    {
      assert PdeOk(m, o, d', j) && DirOk(m, o, d');
    }
    forall d', v: nat | d' in m'.dirs && v < KVPN
      ensures PteOk(m', o', sm, d', v)
    {
      assert PteOk(m, o, sm, d', v);
    }
    forall g | g in o'
      ensures UseOk(m', o', sm, loose - {f}, g)
    {
      assert UseOk(m, o, sm, loose, g);
    }
  }

  /** Entry `v` of directory `d`, whose table is there, set to `e`. */
  function WithPte(m: Mem, d: nat, v: nat, e: Pte): Mem
    requires TableOf(m, d, v / NPDE) in m.tabs && v % NPDE < |m.tabs[TableOf(m, d, v / NPDE)]|
  {
    var t := TableOf(m, d, v / NPDE);
    m.(tabs := m.tabs[t := m.tabs[t][v % NPDE := e]])
  }

  /** Tables are not shared, so only that entry changes. */
  lemma OnePteChanges(m: Mem, o: map<nat, Use>, sm: seq<nat>, loose: set<nat>, d: nat, v: nat, e: Pte)
    requires Owned(m, o, sm, loose) && d in m.dirs && v < NVPN && TableOf(m, d, v / NPDE) != 0
    ensures TableOf(m, d, v / NPDE) in m.tabs && v % NPDE < |m.tabs[TableOf(m, d, v / NPDE)]|
    ensures forall d', v': nat | d' in m.dirs ::
              PteOf(WithPte(m, d, v, e), d', v') == if d' == d && v' == v then e else PteOf(m, d', v')
    ensures forall d', i: nat | d' in m.dirs && i < NPDE :: PdeOk(WithPte(m, d, v, e), o, d', i)
  {
    assert PdeOk(m, o, d, v / NPDE) && DirOk(m, o, d);
    var m' := WithPte(m, d, v, e);
    forall d', v': nat | d' in m.dirs
      ensures PteOf(m', d', v') == if d' == d && v' == v then e else PteOf(m, d', v')
    {
      assert DirOk(m, o, d');
      if v' / NPDE < NPDE {
        assert PdeOk(m, o, d', v' / NPDE);
      }
      SamePage(v, v');
    }
    forall d', i: nat | d' in m.dirs && i < NPDE
      ensures PdeOk(m', o, d', i)
    {
      assert PdeOk(m, o, d', i);
    }
  }

  lemma SamePage(v: nat, v': nat)
    ensures v / NPDE == v' / NPDE && v % NPDE == v' % NPDE <==> v == v'
  {
  }

  /** A loose frame becomes the page behind a private entry that was absent. */
  lemma MapPrivate(m: Mem, o: map<nat, Use>, sm: seq<nat>, loose: set<nat>, d: nat, v: nat, f: nat, flags: int)
    requires Owned(m, o, sm, loose) && f in loose && d in m.dirs && v < UVPN && TableOf(m, d, v / NPDE) != 0
    requires PteOf(m, d, v) == Absent
    ensures TableOf(m, d, v / NPDE) in m.tabs && v % NPDE < |m.tabs[TableOf(m, d, v / NPDE)]|
    ensures Owned(WithPte(m, d, v, Present(f, flags)), o[f := Private(d, v)], sm, loose - {f})
  {
    hide PteOf;
    OnePteChanges(m, o, sm, loose, d, v, Present(f, flags));
    var m', o' := WithPte(m, d, v, Present(f, flags)), o[f := Private(d, v)];
    assert f in m.dirs ==> DirOk(m, o, f);
    forall d' | d' in m.dirs
      ensures DirOk(m', o', d')
    {
      assert DirOk(m, o, d');
    }
    forall d', i: nat | d' in m.dirs && i < NPDE
      ensures PdeOk(m', o', d', i)
    {
      assert PdeOk(m', o, d', i) && PdeOk(m, o, d', i);
    }
    forall d', v': nat | d' in m.dirs && v' < KVPN
      ensures PteOk(m', o', sm, d', v')
    {
      assert PteOk(m, o, sm, d', v');
    }
    forall g | g in o'
      ensures UseOk(m', o', sm, loose - {f}, g)
    {
      assert UseOk(m, o, sm, loose, g);
    }
  }

  /** A kernel entry, or a shared page's entry, is set; no frame changes its use. */
  lemma MapUnowned(m: Mem, o: map<nat, Use>, sm: seq<nat>, loose: set<nat>, d: nat, v: nat, e: Pte)
    requires Owned(m, o, sm, loose) && d in m.dirs && UVPN <= v < NVPN && TableOf(m, d, v / NPDE) != 0
    requires v < KVPN && e.Present? ==> e.frame == sm[KVPN - 1 - v]
    ensures TableOf(m, d, v / NPDE) in m.tabs && v % NPDE < |m.tabs[TableOf(m, d, v / NPDE)]|
    ensures Owned(WithPte(m, d, v, e), o, sm, loose)
  {
    hide PteOf;
    OnePteChanges(m, o, sm, loose, d, v, e);
    var m' := WithPte(m, d, v, e);
    forall d' | d' in m.dirs
      ensures DirOk(m', o, d')
    {
      assert DirOk(m, o, d');
    }
    forall d', v': nat | d' in m.dirs && v' < KVPN
      ensures PteOk(m', o, sm, d', v')
    {
      assert PteOk(m, o, sm, d', v');
    }
    forall g | g in o
      ensures UseOk(m', o, sm, loose, g)
    {
      assert UseOk(m, o, sm, loose, g);
    }
  }

  /** A private entry is cleared; its frame, which was its alone, becomes loose. */
  lemma UnmapPrivate(m: Mem, o: map<nat, Use>, sm: seq<nat>, loose: set<nat>, d: nat, v: nat)
    requires Owned(m, o, sm, loose) && d in m.dirs && v < UVPN && PteOf(m, d, v).Present?
    ensures TableOf(m, d, v / NPDE) in m.tabs && v % NPDE < |m.tabs[TableOf(m, d, v / NPDE)]|
    ensures var f := PteOf(m, d, v).frame;
            f != 0 && f in o && f !in loose && f !in m.free && f !in sm
            && Owned(WithPte(m, d, v, Absent), o[f := Loose], sm, loose + {f})
  {
    var f := PteOf(m, d, v).frame;
    assert TableOf(m, d, v / NPDE) != 0;
    hide PteOf;
    assert PteOk(m, o, sm, d, v);
    OnePteChanges(m, o, sm, loose, d, v, Absent);
    var m', o' := WithPte(m, d, v, Absent), o[f := Loose];
    assert f in m.dirs ==> DirOk(m, o, f);
    forall d' | d' in m.dirs
      ensures DirOk(m', o', d')
    {
      assert DirOk(m, o, d');
    }
    forall d', i: nat | d' in m.dirs && i < NPDE
      ensures PdeOk(m', o', d', i)
    {
      assert PdeOk(m', o, d', i) && PdeOk(m, o, d', i);
    }
    forall d', v': nat | d' in m.dirs && v' < KVPN
      ensures PteOk(m', o', sm, d', v')
    {
      assert PteOk(m, o, sm, d', v');
    }
    forall g | g in o'
      ensures UseOk(m', o', sm, loose + {f}, g)
    {
      assert UseOk(m, o, sm, loose, g);
    }
  }

  // ---- A whole address space goes ----

  ghost predicate TableOfDir(u: Use, d: nat, from: nat) {
    u.Table? && u.d == d && u.i >= from
  }

  /** The tables of directory `d` from slot `from` on. */
  ghost function Tables(o: map<nat, Use>, d: nat, from: nat): set<nat> {
    set f | f in o && TableOfDir(o[f], d, from)
  }

  ghost function Dropped(o: map<nat, Use>, d: nat): map<nat, Use> {
    map f | f in o :: if f == d || TableOfDir(o[f], d, 0) then Loose else o[f]
  }

  /** Without private pages, a directory and its tables can be let go. */
  lemma DropSpace(m: Mem, o: map<nat, Use>, sm: seq<nat>, loose: set<nat>, d: nat)
    requires Owned(m, o, sm, loose) && d in m.dirs && forall v: nat | v < UVPN :: PteOf(m, d, v) == Absent
    ensures Owned(m.(dirs := m.dirs - {d}), Dropped(o, d), sm, loose + {d} + Tables(o, d, 0))
  {
    var m', o', loose' := m.(dirs := m.dirs - {d}), Dropped(o, d), loose + {d} + Tables(o, d, 0);
    assert DirOk(m, o, d);
    forall d' | d' in m'.dirs
      ensures DirOk(m', o', d')
    {
      assert DirOk(m, o, d');
    }
    forall d', i: nat | d' in m'.dirs && i < NPDE
      ensures PdeOk(m', o', d', i)
    {
      assert PdeOk(m, o, d', i) && DirOk(m, o, d');
    }
    forall d', v: nat | d' in m'.dirs && v < KVPN
      ensures PteOk(m', o', sm, d', v)
    {
      assert PteOk(m, o, sm, d', v);
    }
    forall g | g in o'
      ensures UseOk(m', o', sm, loose', g)
    {
      assert UseOk(m, o, sm, loose, g);
    }
  }

  /** Slot `i` of a directory: its table is the next of the tables, or there is none for it. */
  lemma TablesStep(m: Mem, o: map<nat, Use>, sm: seq<nat>, loose: set<nat>, d: nat, i: nat)
    requires Owned(m, o, sm, loose) && d in m.dirs && i < NPDE
    ensures var f := TableOf(m, d, i);
            if f == 0 then Tables(o, d, i + 1) == Tables(o, d, i)
            else f in Tables(o, d, i) && f != d && f !in loose && Tables(o, d, i + 1) == Tables(o, d, i) - {f}
  {
    assert PdeOk(m, o, d, i) && DirOk(m, o, d);
    forall f | f in o && o[f] == Table(d, i)
      ensures f == TableOf(m, d, i)
    {
      assert UseOk(m, o, sm, loose, f);
    }
  }

  lemma TablesEnd(m: Mem, o: map<nat, Use>, sm: seq<nat>, loose: set<nat>, d: nat)
    requires Owned(m, o, sm, loose)
    ensures Tables(o, d, NPDE) == {}
  {
    forall f | f in o
      ensures !TableOfDir(o[f], d, NPDE)
    {
      assert UseOk(m, o, sm, loose, f);
    }
  }

  // ---- What a process sees ----

  /** The page behind an entry. */
  function Content(m: Mem, d: nat, v: nat): (p: Page) {
    if PteOf(m, d, v).Present? && PteOf(m, d, v).frame in m.pages then m.pages[PteOf(m, d, v).frame] else []
  }

  /** Entry and, in user space, page are the same. */
  ghost predicate SameAt(m: Mem, m': Mem, d: nat, v: nat) {
    PteOf(m', d, v) == PteOf(m, d, v) && (v < KVPN ==> Content(m', d, v) == Content(m, d, v))
  }

  /** Only pages `lo..hi` of `d` may look different. */
  ghost predicate SameOutside(m: Mem, m': Mem, d: nat, lo: nat, hi: nat) {
    && m'.dirs.Keys == m.dirs.Keys
    && forall d', v: nat | d' in m.dirs && !(d' == d && lo <= v < hi) :: SameAt(m, m', d', v)
  }

  lemma SameThen(m: Mem, m1: Mem, m2: Mem, d: nat, lo: nat, hi: nat, lo': nat, hi': nat)
    requires SameOutside(m, m1, d, lo, hi) && SameOutside(m1, m2, d, lo', hi')
    requires lo == hi || lo' == hi' || (lo <= lo' && hi' <= hi) || (lo' <= hi && lo <= lo' && hi <= hi')
    ensures SameOutside(m, m2, d, if lo == hi then lo' else lo,
                        if lo == hi then hi' else if lo' == hi' then hi else if hi' <= hi then hi else hi')
  {
    hide SameAt;
    var a := if lo == hi then lo' else lo;
    var b := if lo == hi then hi' else if lo' == hi' then hi else if hi' <= hi then hi else hi';
    forall d', v: nat | d' in m.dirs && !(d' == d && a <= v < b)
      ensures SameAt(m, m2, d', v)
    {
      assert SameAt(m, m1, d', v) && SameAt(m1, m2, d', v);
      SameAtThen(m, m1, m2, d', v);
    }
  }

  lemma SameAtThen(m: Mem, m1: Mem, m2: Mem, d: nat, v: nat)
    requires SameAt(m, m1, d, v) && SameAt(m1, m2, d, v)
    ensures SameAt(m, m2, d, v)
  {
  }

  /** Nobody sees a frame that is loose or free. */
  lemma UnseenPage(m: Mem, o: map<nat, Use>, sm: seq<nat>, loose: set<nat>, f: nat, pages: map<nat, Page>)
    requires Owned(m, o, sm, loose) && f in o && (o[f] == Loose || o[f] == Free)
    requires forall g | g != f :: g in pages <==> g in m.pages
    requires forall g | g != f && g in pages :: pages[g] == m.pages[g]
    ensures Owned(m.(pages := pages), o, sm, loose) && SameOutside(m, m.(pages := pages), 0, 0, 0)
  {
    var m' := m.(pages := pages);
    forall d, v: nat | d in m.dirs
      ensures SameAt(m, m', d, v)
    {
      if v < KVPN {
        assert PteOk(m, o, sm, d, v);
      }
    }
    PagesDoNotOwn(m, o, sm, loose, pages);
  }

  /** The page behind a private entry is seen there and nowhere else. */
  lemma PrivatePage(m: Mem, o: map<nat, Use>, sm: seq<nat>, loose: set<nat>, d: nat, v: nat, page: Page)
    requires Owned(m, o, sm, loose) && d in m.dirs && v < UVPN && PteOf(m, d, v).Present?
    ensures var m' := m.(pages := m.pages[PteOf(m, d, v).frame := page]);
            && Owned(m', o, sm, loose) && SameOutside(m, m', d, v, v + 1)
            && PteOf(m', d, v) == PteOf(m, d, v) && Content(m', d, v) == page
  {
    var m' := m.(pages := m.pages[PteOf(m, d, v).frame := page]);
    forall d', v': nat | d' in m.dirs && !(d' == d && v <= v' < v + 1)
      ensures SameAt(m, m', d', v')
    {
      if v' < KVPN && PteOf(m, d', v').Present? {
        assert PteOk(m, o, sm, d', v') && PteOk(m, o, sm, d, v);
      }
    }
    PagesDoNotOwn(m, o, sm, loose, m'.pages);
  }

  lemma PagesDoNotOwn(m: Mem, o: map<nat, Use>, sm: seq<nat>, loose: set<nat>, pages: map<nat, Page>)
    requires Owned(m, o, sm, loose)
    ensures Owned(m.(pages := pages), o, sm, loose)
  {
    var m' := m.(pages := pages);
    forall d, v: nat
      ensures PteOf(m', d, v) == PteOf(m, d, v)
    {
    }
    forall d, i: nat | d in m.dirs && i < NPDE
      ensures PdeOk(m', o, d, i)
    {
      assert PdeOk(m, o, d, i);
    }
    forall d, v: nat | d in m.dirs && v < KVPN
      ensures PteOk(m', o, sm, d, v)
    {
      assert PteOk(m, o, sm, d, v);
    }
    forall d | d in m.dirs
      ensures DirOk(m', o, d)
    {
      assert DirOk(m, o, d);
    }
    forall f | f in o
      ensures UseOk(m', o, sm, loose, f)
    {
      assert UseOk(m, o, sm, loose, f);
    }
  }

  // ---- The steps as seen by processes ----

  lemma FreeListUnseen(m: Mem, free: seq<nat>)
    ensures SameOutside(m, m.(free := free), 0, 0, 0)
  {
  }

  lemma TableUnseen(m: Mem, o: map<nat, Use>, sm: seq<nat>, loose: set<nat>, d: nat, i: nat, f: nat, empty: seq<Pte>)
    requires Owned(m, o, sm, loose) && f in loose && d in m.dirs && i < NPDE && TableOf(m, d, i) == 0
    requires |empty| == NPDE && forall j | 0 <= j < NPDE :: empty[j] == Absent
    ensures i < |m.dirs[d]| && SameOutside(m, WithTable(m, d, i, f, empty), 0, 0, 0)
  {
    NewTable(m, o, sm, loose, d, i, f, empty);
    var m' := WithTable(m, d, i, f, empty);
    hide PteOf;
    forall d', v: nat | d' in m.dirs
      ensures SameAt(m, m', d', v)
    {
    }
  }

  lemma PteSeen(m: Mem, o: map<nat, Use>, sm: seq<nat>, loose: set<nat>, d: nat, v: nat, e: Pte)
    requires Owned(m, o, sm, loose) && d in m.dirs && v < NVPN && TableOf(m, d, v / NPDE) != 0
    ensures TableOf(m, d, v / NPDE) in m.tabs && v % NPDE < |m.tabs[TableOf(m, d, v / NPDE)]|
    ensures SameOutside(m, WithPte(m, d, v, e), d, v, v + 1) && PteOf(WithPte(m, d, v, e), d, v) == e
  {
    OnePteChanges(m, o, sm, loose, d, v, e);
    hide PteOf;
  }

  // ---- Exactly one use ----

  ghost predicate IsTable(m: Mem, f: nat) {
    exists d, i: nat :: d in m.dirs && i < NPDE && f != 0 && TableOf(m, d, i) == f
  }

  ghost predicate IsPrivate(m: Mem, f: nat) {
    exists d, v: nat :: d in m.dirs && v < UVPN && MapsTo(m, d, v, f)
  }

  ghost predicate MapsTo(m: Mem, d: nat, v: nat, f: nat) {
    PteOf(m, d, v).Present? && PteOf(m, d, v).frame == f
  }

  function Count(b: bool): (n: nat) {
    if b then 1 else 0
  }

  /** Each frame is exactly one of: free, a directory, a table, a private page, a shared page, in use elsewhere. */
  lemma OneUse(m: Mem, o: map<nat, Use>, sm: seq<nat>, loose: set<nat>, f: nat)
    requires Owned(m, o, sm, loose) && f in o
    ensures Count(f in m.free) + Count(f in m.dirs) + Count(IsTable(m, f)) + Count(IsPrivate(m, f)) + Count(f in sm)
            + Count(f in loose) == 1
  {
    hide PteOf, TableOf;
    assert UseOk(m, o, sm, loose, f);
    assert f in m.dirs ==> DirOk(m, o, f);
    assert f in sm ==> o[f].Shared?;
    assert IsTable(m, f) <==> o[f].Table? by {
      TableUse(m, o, sm, loose, f);
    }
    assert IsPrivate(m, f) <==> o[f].Private? by {
      PrivateUse(m, o, sm, loose, f);
    }
    if o[f].Shared? {
      assert sm[o[f].n] == f;
    }
  }

  lemma TableUse(m: Mem, o: map<nat, Use>, sm: seq<nat>, loose: set<nat>, f: nat)
    requires Owned(m, o, sm, loose) && f in o
    ensures IsTable(m, f) <==> o[f].Table?
  {
    hide PteOf, TableOf;
    assert UseOk(m, o, sm, loose, f);
    if IsTable(m, f) {
      var d, i: nat :| d in m.dirs && i < NPDE && f != 0 && TableOf(m, d, i) == f;
      assert PdeOk(m, o, d, i);
    }
    if o[f].Table? {
      assert f != 0 && TableOf(m, o[f].d, o[f].i) == f;
    }
  }

  lemma PrivateUse(m: Mem, o: map<nat, Use>, sm: seq<nat>, loose: set<nat>, f: nat)
    requires Owned(m, o, sm, loose) && f in o
    ensures IsPrivate(m, f) <==> o[f].Private?
  {
    hide PteOf, TableOf;
    assert UseOk(m, o, sm, loose, f);
    if IsPrivate(m, f) {
      var d, v: nat :| d in m.dirs && v < UVPN && MapsTo(m, d, v, f);
      assert PteOk(m, o, sm, d, v);
    }
    if o[f].Private? {
      assert MapsTo(m, o[f].d, o[f].v, f);
    }
  }

  /** A shared frame on the free list has two uses, whoever keeps the accounts. */
  lemma SharedOnFreeList(m: Mem, sm: seq<nat>, n: nat)
    requires n < |sm| && sm[n] in m.free
    ensures forall o, loose :: !Owned(m, o, sm, loose)
  {
  }

  /** Pages on frames of their own: a space has no more pages than there are frames. */
  lemma {:induction false} PagesNeedFrames(
    m: Mem, o: map<nat, Use>, sm: seq<nat>, loose: set<nat>, d: nat, lo: nat, hi: nat)
    returns (used: set<nat>)
    requires Owned(m, o, sm, loose) && d in m.dirs && lo <= hi <= UVPN
    requires forall v: nat | lo <= v < hi :: PteOf(m, d, v).Present?
    ensures used <= o.Keys && |used| == hi - lo
    ensures forall f | f in used :: exists v: nat :: lo <= v < hi && MapsTo(m, d, v, f)
  {
    hide PteOf, UseOk, PdeOk, DirOk;
    used := {};
    var k := lo;
    while k < hi
      invariant lo <= k <= hi && used <= o.Keys && |used| == k - lo
      invariant forall f | f in used :: exists v: nat :: lo <= v < k && MapsTo(m, d, v, f)
    {
      var f := PteOf(m, d, k).frame;
      assert PteOk(m, o, sm, d, k) && MapsTo(m, d, k, f);
      forall v: nat | lo <= v < k
        ensures !MapsTo(m, d, v, f)
      {
        assert PteOk(m, o, sm, d, v);
      }
      used := used + {f};
      k := k + 1;
    }
  }

  lemma {:induction false} SubsetSize(s: set<nat>, t: set<nat>)
    requires s <= t
    ensures |s| <= |t| && (|s| == |t| ==> s == t)
  {
    if s != {} {
      var x :| x in s;
      SubsetSize(s - {x}, t - {x});
    }
  }

  // ---- Flags ----

  /** An entry's flags change, its frame does not. */
  lemma FlagsKeepOwned(m: Mem, o: map<nat, Use>, sm: seq<nat>, loose: set<nat>, d: nat, v: nat, flags: int)
    requires Owned(m, o, sm, loose) && d in m.dirs && v < KVPN && PteOf(m, d, v).Present?
    ensures TableOf(m, d, v / NPDE) in m.tabs && v % NPDE < |m.tabs[TableOf(m, d, v / NPDE)]|
    ensures Owned(WithPte(m, d, v, Present(PteOf(m, d, v).frame, flags)), o, sm, loose)
  {
    assert TableOf(m, d, v / NPDE) != 0;
    hide PteOf;
    var e := Present(PteOf(m, d, v).frame, flags);
    OnePteChanges(m, o, sm, loose, d, v, e);
    var m' := WithPte(m, d, v, e);
    forall d' | d' in m.dirs
      ensures DirOk(m', o, d')
    {
      assert DirOk(m, o, d');
    }
    forall d', v': nat | d' in m.dirs && v' < KVPN
      ensures PteOk(m', o, sm, d', v')
    {
      assert PteOk(m, o, sm, d', v');
    }
    forall g | g in o
      ensures UseOk(m', o, sm, loose, g)
    {
      assert UseOk(m, o, sm, loose, g);
    }
  }
}
