/**
 Processes and their memory, over the address spaces of part1/vm.c: userinit, fork, exec, growproc, shmem_access and the
 release of a child in wait. A process has a directory, a size, its shared_page flags and a kernel stack.

 What each call assumes of the ones before it is the invariant `Sound`, which every call keeps: pages 1 up to the size
 are mapped and none from there up to the shared pages.
 */
module UserMemory {
  import opened Blocks
  import opened Frames
  import opened AddressSpace
  import opened ProgramImage

  datatype Proc = Proc(used: bool, pgdir: nat, sz: nat, shared: seq<bool>, kstack: nat)

  const NO_FLAGS: seq<bool> := [false, false, false, false]

  /** The pages of a process of that size: all from page 1 on, and no others below the shared ones. */
  ghost predicate Backed(m: Mem, d: nat, sz: nat) {
    && 0 < sz <= (PHYSPAGES + 1) * PGSIZE && Clear(m, d, Pages(sz), UVPN)
    && forall v: nat | 1 <= v < Pages(sz) :: PteOf(m, d, v).Present?
  }

  /** Shared page `n` is mapped. */
  ghost predicate Shows(m: Mem, d: nat, n: nat)
    requires n < NSHARE
  {
    PteOf(m, d, KVPN - 1 - n).Present?
  }

  /** A mapped shared page has its flag set; the converse can fail. */
  ghost predicate Flagged(m: Mem, p: Proc) {
    |p.shared| == NSHARE && forall n: nat | n < NSHARE :: Shows(m, p.pgdir, n) ==> p.shared[n]
  }

  /** Flags and mappings say the same. */
  ghost predicate Agrees(m: Mem, p: Proc) {
    |p.shared| == NSHARE && forall n: nat | n < NSHARE :: p.shared[n] <==> Shows(m, p.pgdir, n)
  }

  ghost predicate ProcOk(m: Mem, p: Proc) {
    |p.shared| == NSHARE && (p.used ==> p.pgdir in m.dirs && Backed(m, p.pgdir, p.sz) && Flagged(m, p))
  }

  ghost predicate Apart(procs: seq<Proc>, i: nat, j: nat)
    requires i < |procs| && j < |procs|
  {
    i != j && procs[i].used && procs[j].used ==>
      procs[i].pgdir != procs[j].pgdir && procs[i].kstack != procs[j].kstack
  }

  ghost predicate IsSpace(procs: seq<Proc>, d: nat) {
    exists i: nat :: i < |procs| && procs[i].used && procs[i].pgdir == d
  }

  ghost predicate IsStack(procs: seq<Proc>, f: nat) {
    exists i: nat :: i < |procs| && procs[i].used && procs[i].kstack == f
  }

  /** Directories are those of the processes; frames in use elsewhere are their stacks and what the kernel holds. */
  ghost predicate Sound(m: Mem, procs: seq<Proc>, kernel: set<nat>, loose: set<nat>) {
    && (forall i: nat | i < |procs| :: ProcOk(m, procs[i]))
    && (forall i: nat, j: nat | i < |procs| && j < |procs| :: Apart(procs, i, j))
    && (forall d: nat :: d in m.dirs <==> IsSpace(procs, d))
    && (forall f: nat :: f in loose <==> f in kernel || IsStack(procs, f))
    && (forall i: nat | i < |procs| && procs[i].used :: procs[i].kstack !in kernel)
  }

  // ---- Changing one entry ----

  /** Entry `i` goes from one space to another, and the other spaces look as before. */
  lemma EntryKeepsSound(
    m: Mem, m': Mem, procs: seq<Proc>, i: nat, p: Proc, kernel: set<nat>, loose: set<nat>, loose': set<nat>)
    requires Sound(m, procs, kernel, loose) && i < |procs| && ProcOk(m', p)
    requires Kept(m, m', if procs[i].used then {procs[i].pgdir} else {})
    requires forall d: nat ::
               d in m'.dirs <==> (d in m.dirs && !(procs[i].used && d == procs[i].pgdir)) || (p.used && d == p.pgdir)
    requires forall f: nat ::
               f in loose' <==> (f in loose && !(procs[i].used && f == procs[i].kstack)) || (p.used && f == p.kstack)
    requires p.used ==> (p.pgdir in m.dirs ==> procs[i].used && p.pgdir == procs[i].pgdir)
    requires p.used ==> (p.kstack in loose ==> procs[i].used && p.kstack == procs[i].kstack)
    ensures Sound(m', procs[i := p], kernel, loose')
  {
    hide ProcOk, Apart, IsSpace, IsStack, Kept;
    var procs' := procs[i := p];
    forall j: nat | j < |procs|
      ensures ProcOk(m', procs'[j])
    {
      assert ProcOk(m, procs[j]) && Apart(procs, i, j);
      if j != i {
        OtherProcOk(m, m', procs, i, j);
      }
    }
    forall j: nat, k: nat | j < |procs| && k < |procs|
      ensures Apart(procs', j, k)
    {
      assert Apart(procs, j, k) && Apart(procs, i, j) && Apart(procs, i, k);
      EntryApart(m, procs, i, p, loose, j, k) by {
        EntryUses(procs, j);
        EntryUses(procs, k);
      }
    }
    forall d: nat
      ensures d in m'.dirs <==> IsSpace(procs', d)
    {
      EntrySpaces(procs, i, p, d);
    }
    forall f: nat
      ensures f in loose' <==> f in kernel || IsStack(procs', f)
    {
      EntryStacks(procs, i, p, kernel, f);
    }
    forall j: nat | j < |procs| && procs'[j].used
      ensures procs'[j].kstack !in kernel
    {
      if j == i {
        assert p.kstack in kernel ==> p.kstack in loose;
      }
    }
  }

  lemma EntryUses(procs: seq<Proc>, j: nat)
    requires j < |procs|
    ensures procs[j].used ==> IsSpace(procs, procs[j].pgdir) && IsStack(procs, procs[j].kstack)
  {
  }

  lemma EntryApart(m: Mem, procs: seq<Proc>, i: nat, p: Proc, loose: set<nat>, j: nat, k: nat)
    requires i < |procs| && j < |procs| && k < |procs|
    requires Apart(procs, j, k) && Apart(procs, i, j) && Apart(procs, i, k)
    requires p.used ==> (p.pgdir in m.dirs ==> procs[i].used && p.pgdir == procs[i].pgdir)
    requires p.used ==> (p.kstack in loose ==> procs[i].used && p.kstack == procs[i].kstack)
    requires procs[j].used ==> procs[j].pgdir in m.dirs && procs[j].kstack in loose
    requires procs[k].used ==> procs[k].pgdir in m.dirs && procs[k].kstack in loose
    ensures Apart(procs[i := p], j, k)
  {
  }

  lemma OtherProcOk(m: Mem, m': Mem, procs: seq<Proc>, i: nat, j: nat)
    requires i < |procs| && j < |procs| && i != j && ProcOk(m, procs[j]) && Apart(procs, i, j)
    requires Kept(m, m', if procs[i].used then {procs[i].pgdir} else {})
    ensures ProcOk(m', procs[j])
  {
    if procs[j].used {
      SpaceKept(m, m', if procs[i].used then {procs[i].pgdir} else {}, procs[j]);
    }
  }

  lemma SpaceKept(m: Mem, m': Mem, gone: set<nat>, p: Proc)
    requires Kept(m, m', gone) && p.used && p.pgdir !in gone && ProcOk(m, p)
    ensures ProcOk(m', p)
  {
    hide PteOf, Content;
    forall v: nat
      ensures PteOf(m', p.pgdir, v) == PteOf(m, p.pgdir, v)
    {
      assert SameAt(m, m', p.pgdir, v);
    }
  }

  lemma EntrySpaces(procs: seq<Proc>, i: nat, p: Proc, d: nat)
    requires i < |procs| && forall j: nat, k: nat | j < |procs| && k < |procs| :: Apart(procs, j, k)
    ensures IsSpace(procs[i := p], d) <==>
            (IsSpace(procs, d) && !(procs[i].used && d == procs[i].pgdir)) || (p.used && d == p.pgdir)
  {
    var procs' := procs[i := p];
    if p.used && d == p.pgdir {
      assert procs'[i] == p;
    } else if IsSpace(procs, d) && !(procs[i].used && d == procs[i].pgdir) {
      var j: nat :| j < |procs| && procs[j].used && procs[j].pgdir == d;
      assert procs'[j] == procs[j];
    }
    if IsSpace(procs', d) {
      var j: nat :| j < |procs'| && procs'[j].used && procs'[j].pgdir == d;
      if j != i {
        assert procs[j] == procs'[j] && Apart(procs, i, j);
      }
    }
  }

  lemma EntryStacks(procs: seq<Proc>, i: nat, p: Proc, kernel: set<nat>, f: nat)
    requires i < |procs| && forall j: nat, k: nat | j < |procs| && k < |procs| :: Apart(procs, j, k)
    requires forall j: nat | j < |procs| && procs[j].used :: procs[j].kstack !in kernel
    ensures f in kernel || IsStack(procs[i := p], f) <==>
            ((f in kernel || IsStack(procs, f)) && !(procs[i].used && f == procs[i].kstack))
              || (p.used && f == p.kstack)
  {
    var procs' := procs[i := p];
    if p.used && f == p.kstack {
      assert procs'[i] == p;
    } else if IsStack(procs, f) && !(procs[i].used && f == procs[i].kstack) {
      var j: nat :| j < |procs| && procs[j].used && procs[j].kstack == f;
      assert procs'[j] == procs[j];
    }
    if IsStack(procs', f) {
      var j: nat :| j < |procs'| && procs'[j].used && procs'[j].kstack == f;
      if j != i {
        assert procs[j] == procs'[j] && Apart(procs, i, j);
      }
    }
  }

  // ---- Sizes ----

  /** Every page of a process has a frame, so sizes stay far below the shared pages. */
  lemma SizeBound(m: Mem, o: map<nat, Use>, sm: seq<nat>, loose: set<nat>, d: nat, sz: nat)
    requires Owned(m, o, sm, loose) && |o.Keys| <= PHYSPAGES && d in m.dirs && Pages(sz) <= UVPN
    requires forall v: nat | 1 <= v < Pages(sz) :: PteOf(m, d, v).Present?
    ensures sz <= (PHYSPAGES + 1) * PGSIZE
  {
    if Pages(sz) > 1 {
      var used := PagesNeedFrames(m, o, sm, loose, d, 1, Pages(sz));
      SubsetSize(used, o.Keys);
    }
  }

  lemma GrowBacks(
    m: Mem, m': Mem, o: map<nat, Use>, sm: seq<nat>, loose: set<nat>, d: nat, oldsz: nat, newsz: nat)
    requires Backed(m, d, oldsz) && oldsz <= newsz && Pages(newsz) <= UVPN && d in m.dirs
    requires SameOutside(m, m', d, Pages(oldsz), Pages(newsz)) && Owned(m', o, sm, loose) && |o.Keys| <= PHYSPAGES
    requires forall v: nat | Pages(oldsz) <= v < Pages(newsz) :: Fresh(m', d, v)
    ensures Backed(m', d, newsz) && Kept(m, m', {d}) && m'.dirs.Keys == m.dirs.Keys
    ensures forall n: nat | n < NSHARE :: Shows(m', d, n) == Shows(m, d, n)
  {
    hide Owned, PteOf, Content;
    forall v: nat | !(Pages(oldsz) <= v < Pages(newsz))
      ensures PteOf(m', d, v) == PteOf(m, d, v)
    {
      assert SameAt(m, m', d, v);
    }
    forall v: nat | 1 <= v < Pages(newsz)
      ensures PteOf(m', d, v).Present?
    {
      assert Pages(oldsz) <= v ==> Fresh(m', d, v);
    }
    SizeBound(m', o, sm, loose, d, newsz);
  }

  lemma ShrinkBacks(m: Mem, m': Mem, d: nat, oldsz: nat, newsz: nat)
    requires Backed(m, d, oldsz) && newsz < oldsz && d in m.dirs
    requires SameOutside(m, m', d, Pages(newsz), Pages(oldsz)) && Clear(m', d, Pages(newsz), Pages(oldsz))
    ensures newsz > 0 ==> Backed(m', d, newsz)
    ensures newsz == 0 ==> (Backed(m', d, oldsz) <==> Pages(oldsz) <= 1)
    ensures Kept(m, m', {d}) && forall n: nat | n < NSHARE :: Shows(m', d, n) == Shows(m, d, n)
  {
    hide PteOf, Content;
    forall v: nat | !(Pages(newsz) <= v < Pages(oldsz))
      ensures PteOf(m', d, v) == PteOf(m, d, v)
    {
      assert SameAt(m, m', d, v);
    }
    if newsz == 0 && Pages(oldsz) > 1 {
      assert PteOf(m', d, 1) == Absent;
    }
  }

  lemma UnseenKeeps(m: Mem, m': Mem)
    requires SameOutside(m, m', 0, 0, 0)
    ensures Kept(m, m', {}) && m'.dirs.Keys == m.dirs.Keys
  {
  }

  lemma KeptLess(m: Mem, m': Mem, gone: set<nat>)
    requires Kept(m, m', {})
    ensures Kept(m, m', gone)
  {
  }

  lemma BackedKept(m: Mem, m': Mem, p: Proc)
    requires Kept(m, m', {}) && p.used && ProcOk(m, p)
    ensures ProcOk(m', p)
  {
    SpaceKept(m, m', {}, p);
  }

  // ---- fork ----

  /** The child's flags: what was in the entry, and the parent's for the pages that the loop came to. */
  function Marked(entry: seq<bool>, parent: seq<bool>, marked: nat): (r: seq<bool>)
    requires |entry| == |parent| == NSHARE
    ensures |r| == NSHARE && forall n | 0 <= n < NSHARE :: r[n] == (entry[n] || (n < marked && parent[n]))
  {
    seq(NSHARE, n requires 0 <= n < NSHARE => entry[n] || (n < marked && parent[n]))
  }

  lemma ChildIsBacked(
    m0: Mem, m: Mem, sm: seq<nat>, d: nat, c: nat, sz: nat, shared: seq<bool>, entry: seq<bool>, k: nat)
    requires |sm| == |shared| == |entry| == NSHARE && Backed(m0, d, sz) && c in m.dirs && Pages(sz) <= UVPN
    requires forall v: nat | v < UVPN :: if 1 <= v < Pages(sz) then Copied(m0, m, d, c, v) else PteOf(m, c, v) == Absent
    requires forall v: nat | UVPN <= v < KVPN :: PteOf(m, c, v) == SharedEntry(sm, shared, NSHARE, v)
    ensures var p := Proc(true, c, sz, Marked(entry, shared, NSHARE), k);
            ProcOk(m, p) && (Agrees(m, p) <==> forall n: nat | n < NSHARE :: entry[n] ==> shared[n])
    ensures forall n: nat | n < NSHARE :: Shows(m, c, n) == shared[n]
  {
    hide PteOf, Content;
    forall v: nat | 1 <= v < Pages(sz)
      ensures PteOf(m, c, v).Present?
    {
      assert Copied(m0, m, d, c, v);
    }
    forall n: nat | n < NSHARE
      ensures Shows(m, c, n) == shared[n]
    {
      var v := KVPN - 1 - n;
      assert PteOf(m, c, v) == SharedEntry(sm, shared, NSHARE, v);
    }
  }

  /** How exec ends: 0, -1, loaduvm's panic, or a write to the frame that an entry of 0 names. */
  datatype ExecResult = Ran | Refused | AddressPanics | StrayWrite

  /** Process `p` went from its old space, which is free, to one with the program's bytes; nothing else changed. */
  ghost predicate Replaced(m: Mem, procs: seq<Proc>, m': Mem, procs': seq<Proc>, p: nat, segs: seq<Segment>)
    requires p < |procs|
  {
    && |procs'| == |procs|
    && procs' == procs[p := Proc(true, procs'[p].pgdir, procs'[p].sz, NO_FLAGS, procs[p].kstack)]
    && Agrees(m', procs'[p]) && Kept(m, m', {procs[p].pgdir}) && procs[p].pgdir in m'.free
    && procs'[p].sz == Pages(ImageEnd(segs)) * PGSIZE + 2 * PGSIZE
    && GuardSet(m', procs'[p].pgdir, Pages(procs'[p].sz))
    && (forall s | s in segs :: Sane(s) && !AtZero(s) && s.vaddr + s.memsz <= procs'[p].sz)
    && forall v: nat | 1 <= v < Pages(procs'[p].sz) :: PageHas(m', procs'[p].pgdir, v, segs)
  }

  /** Space `d` lost its pages from `newsz` to `sz`, and their frames are free; nothing else looks different. */
  ghost predicate Shrank(m: Mem, m': Mem, d: nat, sz: nat, newsz: nat) {
    && SameOutside(m, m', d, Pages(newsz), Pages(sz))
    && Clear(m', d, Pages(newsz), Pages(sz)) && Released(m, m', d, Pages(newsz), Pages(sz))
  }

  /** Space `d` got pages of zeros from size `sz` to size `newsz`; nothing else looks different. */
  ghost predicate Grew(m: Mem, m': Mem, d: nat, sz: nat, newsz: nat) {
    && SameOutside(m, m', d, Pages(sz), Pages(newsz))
    && forall v: nat | Pages(sz) <= v < Pages(newsz) :: Fresh(m', d, v)
  }

  /** How growproc ends: its return value, or a shared frame put on the free list. */
  datatype GrowResult = Returns(value: int) | LosesShared

  class Machine {
    const vm: Vm
    var procs: seq<Proc>
    ghost var kernel: set<nat>             // frames of pipes and other kernel objects
    ghost var loose: set<nat>              // those and the kernel stacks

    ghost predicate Valid()
      reads this, vm
    {
      vm.Valid(loose) && KmapOk(vm.kmap) && |vm.sm| == NSHARE && Sound(vm.m, procs, kernel, loose)
    }

    ghost predicate Runs(p: nat)
      reads this
    {
      p < |procs| && procs[p].used
    }

    /** A table of `n` unused entries over memory fresh from boot. */
    constructor (vm: Vm, n: nat)
      requires vm.Valid({}) && KmapOk(vm.kmap) && |vm.sm| == NSHARE && vm.m.dirs == map[]
      ensures Valid() && this.vm == vm && kernel == {} && |procs| == n
      ensures forall i | 0 <= i < n :: procs[i] == Proc(false, 0, 0, NO_FLAGS, 0)
    {
      this.vm, kernel, loose := vm, {}, {};
      procs := seq(n, _ => Proc(false, 0, 0, NO_FLAGS, 0));
    }

    /** kalloc for something else than a process. */
    method TakeFrame() returns (f: nat)
      requires Valid()
      modifies this`kernel, this`loose, vm
      ensures Valid() && (f == 0 <==> old(vm.m.free) == []) && Kept(old(vm.m), vm.m, {})
      ensures f != 0 ==> f !in old(loose) && kernel == old(kernel) + {f} && vm.m.free == old(vm.m.free)[1..]
      ensures f == 0 ==> kernel == old(kernel) && vm.m == old(vm.m)
    {
      hide Owned, Sound, SameOutside, Kept;
      KeptSelf(vm.m);
      f := vm.Kalloc(loose);
      if f != 0 {
        UnseenKeeps(old(vm.m), vm.m);
        KernelTakes(old(vm.m), vm.m, procs, kernel, loose, f);
        kernel, loose := kernel + {f}, loose + {f};
      }
    }

    /** kfree of such a frame. */
    method GiveFrame(f: nat)
      requires Valid() && f in kernel
      modifies this`kernel, this`loose, vm
      ensures Valid() && kernel == old(kernel) - {f} && vm.m.free == [f] + old(vm.m.free) && Kept(old(vm.m), vm.m, {})
    {
      hide Owned, Sound, SameOutside, Kept;
      KernelFrame(vm.m, procs, kernel, loose, f);
      vm.Kfree(f, loose);
      UnseenKeeps(old(vm.m), vm.m);
      KernelGives(old(vm.m), vm.m, procs, kernel, loose, f);
      kernel, loose := kernel - {f}, loose - {f};
    }

    /**
     growproc. It frees a shared frame exactly if the new size is below KERNBASE and reaches a shared page that the
     process has mapped. Otherwise growing adds pages of zeros, or changes nothing where there is no memory, and
     shrinking succeeds and frees the pages between the sizes; all other pages of all processes stay as they are. Only
     a shrink to exactly 0 goes wrong: the pages go, the size stays, and the invariant is lost if there was a page above
     page 0.
     */
    method Grow(p: nat, n: int) returns (r: GrowResult)
      requires Valid() && Runs(p) && -0x8000_0000 <= n < 0x8000_0000
      modifies this`procs, vm
      ensures var sz, d := old(procs[p].sz), old(procs[p].pgdir);
              var newsz := (sz + n) % WORD_LIMIT;
              && (r == LosesShared <==> n > 0 && newsz < KVPN * PGSIZE && !Clear(old(vm.m), d, UVPN, Pages(newsz)))
              && (r.LosesShared? ==> exists k: nat :: k < NSHARE && k < |vm.sm| && vm.sm[k] in vm.m.free)
              && (r.Returns? ==> (Valid() <==> !(n < 0 && newsz == 0 && Pages(sz) > 1)))
              && (r.Returns? ==> r.value == 0 || r.value == -1)
              && (r == Returns(0) ==>
                    procs == old(procs)[p := old(procs[p]).(sz := if n < 0 && newsz > sz then sz else newsz)])
              && (r == Returns(-1) ==> procs == old(procs))
              && (n == 0 || (n < 0 && newsz > 0) ==> r == Returns(0))
              && (n > 0 ==> newsz == sz + n && (newsz >= KVPN * PGSIZE ==> r == Returns(-1)))
              && (n < 0 && newsz < sz ==> Shrank(old(vm.m), vm.m, d, sz, newsz))
              && (n == 0 || (n < 0 && newsz >= sz) ==> vm.m == old(vm.m))
              && (n > 0 && r == Returns(0) ==> Grew(old(vm.m), vm.m, d, sz, newsz))
              && (n > 0 && r == Returns(-1) ==> SameOutside(old(vm.m), vm.m, 0, 0, 0))
              && (r == Returns(-1) && n > 0 && newsz < KVPN * PGSIZE ==>
                   |old(vm.m.free)| < 2 * (Pages(newsz) - Pages(sz)))
              && (r.Returns? && n < 0 && newsz == 0 ==> Clear(vm.m, d, 0, Pages(sz)) && procs == old(procs))
              && (r.Returns? ==> vm.Valid(loose) && vm.m.dirs.Keys == old(vm.m.dirs.Keys) && Kept(old(vm.m), vm.m, {d}))
              && (r == Returns(0) && n > 0 ==> |old(vm.m.free)| <= |vm.m.free| + 2 * (Pages(newsz) - Pages(sz)))
              && (r.Returns? && n < 0 ==> |old(vm.m.free)| <= |vm.m.free|)
    {
      hide Owned, Sound, SameOutside, Kept, Clear, PteOf, Fresh, Backed;
      var sz, d := procs[p].sz, procs[p].pgdir;
      ghost var m0 := vm.m;
      Here(m0, procs, kernel, loose, p);
      KeptSelf(m0);
      KeptLess(m0, m0, {d});
      var newsz := (sz + n) % WORD_LIMIT;
      if n > 0 {
        SizeSmall(m0, d, sz);
        var a := vm.Allocuvm(d, sz, newsz, loose);
        if a.LostShared? {
          return LosesShared;
        }
        if a.Failed? {
          UnseenKeeps(m0, vm.m);
          KeptLess(m0, vm.m, {d});
          SameKeepsSound(m0, vm.m, procs, kernel, loose);
          return Returns(-1);
        }
        assert Grew(m0, vm.m, d, sz, newsz);
        GrowBacks(m0, vm.m, vm.owner, vm.sm, loose, d, sz, newsz);
        SizeKeepsSound(m0, vm.m, procs, kernel, loose, p, newsz);
        procs := procs[p := procs[p].(sz := newsz)];
      } else if n < 0 {
        SizeSmall(m0, d, sz);
        ClearNone(m0, d, Max(UVPN, Pages(newsz)), Pages(sz));
        var s, _ := vm.Deallocuvm(d, sz, newsz, loose);
        if newsz < sz {
          assert Shrank(m0, vm.m, d, sz, newsz);
          ShrinkBacks(m0, vm.m, d, sz, newsz);
        }
        if s == 0 {
          ShrunkToNothing(m0, vm.m, procs, kernel, loose, p);
          return Returns(-1);
        }
        SizeKeepsSound(m0, vm.m, procs, kernel, loose, p, s);
        procs := procs[p := procs[p].(sz := s)];
      } else {
        SizeSmall(m0, d, sz);
        assert procs[p := procs[p].(sz := sz)] == procs;
      }
      return Returns(0);
    }

    /** The first unused entry, |procs| if there is none. */
    method FindUnused() returns (e: nat)
      ensures e <= |procs| && (e < |procs| ==> !procs[e].used) && forall i | 0 <= i < e :: procs[i].used
    {
      e := 0;
      while e < |procs| && procs[e].used
        invariant e <= |procs| && forall i | 0 <= i < e :: procs[i].used
      {
        e := e + 1;
      }
    }

    /**
     fork: -1 with every process as it was, or a child with the parent's size and bytes on frames of its own. copyuvm
     does not panic. The child's flags agree with its mappings exactly if the entry held no flag that the parent has
     not; a fork that fails among the shared pages leaves such flags behind.
     */
    method Fork(p: nat) returns (e: int, ghost slot: nat, ghost marked: nat)
      requires Valid() && Runs(p)
      modifies this`procs, this`loose, vm
      ensures Valid() && Kept(old(vm.m), vm.m, {}) && |procs| == |old(procs)|
      ensures slot <= |procs| && (forall i | 0 <= i < slot :: old(procs)[i].used)
              && (slot < |procs| ==> !old(procs)[slot].used)
      ensures e == -1 || e == slot < |procs|
      ensures e == -1 ==> procs == if slot == |procs| then old(procs) else
                old(procs)[slot := old(procs)[slot].(shared :=
                  Marked(old(procs)[slot].shared, procs[p].shared, marked))]
      ensures e >= 0 ==>
                && procs == old(procs)[e := Proc(true, procs[e].pgdir, procs[p].sz, procs[e].shared, procs[e].kstack)]
                && procs[e].shared == Marked(old(procs)[e].shared, procs[p].shared, NSHARE)
                && (forall n: nat | n < NSHARE :: Shows(vm.m, procs[e].pgdir, n) == procs[p].shared[n])
                && (Agrees(vm.m, procs[e]) <==>
                      forall n: nat | n < NSHARE :: old(procs)[e].shared[n] ==> procs[p].shared[n])
                && forall v: nat | 1 <= v < Pages(procs[p].sz) ::
                     Copied(old(vm.m), vm.m, procs[p].pgdir, procs[e].pgdir, v)
                     && FramesDiffer(vm.m, procs[p].pgdir, procs[e].pgdir, v)
      ensures |old(procs)[p].shared| == NSHARE && procs[p] == old(procs)[p]
      ensures var free, cost := |old(vm.m.free)|, CopyCost(vm.kmap, procs[p].sz, procs[p].shared);
              && (e >= 0 <==> slot < |procs| && free >= 1 + cost)
              && (e >= 0 ==> |vm.m.free| == free - 1 - cost)
              && (e == -1 ==> marked == if slot == |procs| || free == 0 then 0
                                        else MarkedBy(free - 1, vm.kmap, procs[p].sz, procs[p].shared))
    {
      hide Owned, Sound, SameOutside, Kept, Clear, PteOf, Content, Backed, Copied, SharedEntry, Agrees;
      hide CopyCost, MarkedBy;
      ghost var m0 := vm.m;
      Here(m0, procs, kernel, loose, p);
      SizeSmall(m0, procs[p].pgdir, procs[p].sz);
      KeptSelf(m0);
      CopyCosts(vm.kmap, procs[p].sz, procs[p].shared);
      var i := FindUnused();
      if i == |procs| {
        return -1, i, 0;
      }
      EntryFlags(m0, procs, kernel, loose, i);
      var stack := vm.Kalloc(loose);
      if stack == 0 {
        assert Marked(procs[i].shared, procs[p].shared, 0) == procs[i].shared;
        return -1, i, 0;
      }
      ghost var m1 := vm.m;
      UnseenKeeps(m0, m1);
      PageOf(m0, m1, procs[p].pgdir);
      var c, k, panicked := vm.Copyuvm(procs[p].pgdir, procs[p].sz, procs[p].shared, loose + {stack});
      KeptChain(m0, m1, vm.m);
      if c == 0 {
        ghost var m2 := vm.m;
        vm.Kfree(stack, loose + {stack});
        assert loose + {stack} - {stack} == loose;
        UnseenKeeps(m2, vm.m);
        KeptChain(m0, m2, vm.m);
        var flags := Marked(procs[i].shared, procs[p].shared, k);
        FlagsKeepSound(m0, vm.m, procs, kernel, loose, i, flags);
        procs := procs[i := procs[i].(shared := flags)];
        return -1, i, k;
      }
      CopiedFromThere(m0, m1, vm.m, procs[p].pgdir, c, procs[p].sz);
      ChildIsBacked(m0, vm.m, vm.sm, procs[p].pgdir, c, procs[p].sz, procs[p].shared, procs[i].shared, stack);
      var child := Proc(true, c, procs[p].sz, Marked(procs[i].shared, procs[p].shared, NSHARE), stack);
      EntryKeepsSound(m0, vm.m, procs, i, child, kernel, loose, loose + {stack});
      procs := procs[i := child];
      loose := loose + {stack};
      return i, i, k;
    }

    /**
     shmem_access. It panics exactly without memory for the table. The address it returns is mapped, unless the flag was
     set although the page is not.
     */
    method Shmem(p: nat, n: int) returns (va: int, panicked: bool)
      requires Valid() && Runs(p)
      modifies this`procs, vm
      ensures Valid() && |procs| == |old(procs)|
      ensures n < 0 || n >= NSHARE ==> va == -1 && !panicked && procs == old(procs) && vm.m == old(vm.m)
      ensures 0 <= n < NSHARE ==>
                && (panicked <==> !old(procs[p].shared[n]) && TableOf(old(vm.m), procs[p].pgdir, SHARED_SLOT) == 0
                                  && old(vm.m.free) == [])
                && (!panicked ==>
                      && va == (KVPN - 1 - n) * PGSIZE
                      && procs == old(procs)[p := old(procs[p]).(shared := old(procs[p].shared)[n := true])]
                      && (Shows(vm.m, procs[p].pgdir, n)
                         <==> !old(procs[p].shared[n]) || Shows(old(vm.m), procs[p].pgdir, n)))
      ensures Kept(old(vm.m), vm.m, {procs[p].pgdir}) && |old(vm.m.free)| <= |vm.m.free| + 1
    {
      hide Owned, Sound, SameOutside, Kept, Clear, PteOf, Content, Backed, Taken, Slots, TableOf;
      ghost var m0, d := vm.m, procs[p].pgdir;
      Here(m0, procs, kernel, loose, p);
      SizeSmall(m0, d, procs[p].sz);
      KeptSelf(m0);
      KeptLess(m0, m0, {d});
      var flag := 0 <= n < NSHARE && procs[p].shared[n];
      FlaggedHere(m0, procs[p]);
      va, panicked := vm.ShmemAccess(procs[p].pgdir, procs[p].sz, n, flag, loose);
      if 0 <= n < NSHARE && !panicked {
        if flag {
          assert procs[p].shared[n := true] == procs[p].shared;
          assert procs[p := procs[p].(shared := procs[p].shared[n := true])] == procs;
        } else {
          TakenOne(m0, vm.m, d, KVPN - 1 - n);
          SharedKeepsSound(m0, vm.m, procs, kernel, loose, p, n);
          procs := procs[p := procs[p].(shared := procs[p].shared[n := true])];
        }
      }
    }

    /** The release of a dead child in wait: stack, pages, tables and directory are free, its flags are clear. */
    method Reap(e: nat)
      requires Valid() && Runs(e)
      modifies this`procs, this`loose, vm
      ensures Valid() && procs == old(procs)[e := Proc(false, 0, 0, NO_FLAGS, 0)]
              && Kept(old(vm.m), vm.m, {old(procs[e].pgdir)})
      ensures old(procs[e].kstack) in vm.m.free && old(procs[e].pgdir) in vm.m.free
      ensures Released(old(vm.m), vm.m, old(procs[e].pgdir), 0, UVPN)
    {
      hide Owned, Sound, SameOutside, Kept, Clear, PteOf, Content, Backed, Released;
      ghost var m0, d, k := vm.m, procs[e].pgdir, procs[e].kstack;
      Here(m0, procs, kernel, loose, e);
      vm.Kfree(procs[e].kstack, loose);
      ghost var m1 := vm.m;
      UnseenKeeps(m0, m1);
      vm.Freevm(procs[e].pgdir, loose - {k});
      ReapKeeps(m0, m1, vm.m, d, k);
      EntryKeepsSound(m0, vm.m, procs, e, Proc(false, 0, 0, NO_FLAGS, 0), kernel, loose, loose - {k});
      procs := procs[e := Proc(false, 0, 0, NO_FLAGS, 0)];
      loose := loose - {k};
    }

    /**
     userinit: the first process, one page long, whose flags agree with its mappings. It panics exactly without memory
     for stack, directory, kernel tables and page. inituvm does not look at mappages' result: with not a frame more
     there is no table for page 0, and the process starts without it while the kernel keeps the frame.
     */
    method Userinit(code: Page) returns (panicked: bool)
      requires Valid() && 0 < |procs| && !procs[0].used && procs[0].shared == NO_FLAGS
      modifies this`procs, this`kernel, this`loose, vm
      ensures panicked <==> |old(vm.m.free)| < 3 + KernelTables(vm.kmap)
      ensures !panicked ==>
                && Valid() && Runs(0) && procs == old(procs)[0 := procs[0]] && procs[0].sz == PGSIZE
                && procs[0].shared == NO_FLAGS && Agrees(vm.m, procs[0])
                && if |old(vm.m.free)| == 3 + KernelTables(vm.kmap) then
                     && PteOf(vm.m, procs[0].pgdir, 0) == Absent && vm.m.free == []
                     && exists f :: f !in old(kernel) && kernel == old(kernel) + {f}
                   else
                     && PteOf(vm.m, procs[0].pgdir, 0).Present? && Content(vm.m, procs[0].pgdir, 0) == code
                     && kernel == old(kernel) && |vm.m.free| == |old(vm.m.free)| - 4 - KernelTables(vm.kmap)
    {
      hide Owned, Sound, SameOutside, Kept, Clear, PteOf, Content, Backed, Agrees, KernelTables, TableOf, Slots;
      ghost var m0 := vm.m;
      var stack := vm.Kalloc(loose);
      if stack == 0 {
        return true;
      }
      ghost var m1 := vm.m;
      UnseenKeeps(m0, m1);
      var d := vm.Setupkvm(loose + {stack});
      if d == 0 {
        return true;
      }
      KeptChain(m0, m1, vm.m);
      ghost var m2 := vm.m;
      var f, mapped := vm.Inituvm(d, code, loose + {stack});
      if f == 0 {
        return true;
      }
      KernelIsLoose(m0, procs, kernel, loose);
      FirstProcess(m0, m2, vm.m, d, stack);
      var first := Proc(true, d, PGSIZE, NO_FLAGS, stack);
      EntryKeepsSound(m0, vm.m, procs, 0, first, kernel, loose, loose + {stack});
      procs := procs[0 := first];
      loose := loose + {stack};
      if !mapped {
        KeptSelf(vm.m);
        KernelTakes(vm.m, vm.m, procs, kernel, loose, f);
        kernel, loose := kernel + {f}, loose + {f};
      }
      return false;
    }

    /** One allocuvm of exec, on a space that nobody runs in yet; it neither panics nor touches a shared frame. */
    method Extend(d: nat, sz: nat, target: nat, ghost m0: Mem, ghost segs: seq<Segment>) returns (ok: bool, newsz: nat)
      requires vm.Valid(loose) && Building(m0, vm.m, d, sz) && Image(vm.m, d, sz, segs) && AllUser(vm.m, d, Pages(sz))
      modifies vm
      ensures vm.Valid(loose) && Building(m0, vm.m, d, newsz)
      ensures ok ==> Image(vm.m, d, newsz, segs) && AllUser(vm.m, d, Pages(newsz))
      ensures ok ==> |old(vm.m.free)| <= |vm.m.free| + 2 * (Pages(newsz) - Pages(sz))
      ensures newsz == if ok && sz <= target then target else sz
      ensures !ok ==> target >= KVPN * PGSIZE || |old(vm.m.free)| < 2 * (Pages(target) - Pages(sz))
    {
      hide Owned, SameOutside, Kept, Clear, PteOf, Fresh, Backed, Building, Image, Pages, AllUser;
      BuildingParts(m0, vm.m, d, sz);
      SizeSmall(vm.m, d, sz);
      ghost var m1 := vm.m;
      ClearLess(m1, d, target);
      var a := vm.Allocuvm(d, sz, target, loose);
      if a.Failed? {
        BuildingSame(m0, m1, vm.m, d, sz);
        return false, sz;
      }
      if sz <= target {
        GrowBacks(m1, vm.m, vm.owner, vm.sm, loose, d, sz, target);
        BuildingGrows(m0, m1, vm.m, d, sz, target);
        ImageGrows(m1, vm.m, d, sz, target, segs);
        AllUserGrows(m1, vm.m, d, Pages(sz), Pages(target));
        return true, target;
      }
      return true, sz;
    }

    /**
     One round of exec's loop over the program's segments. With memory, and a file that is long enough, a segment that
     passes exec's tests is loaded exactly if it has no byte at address 0.
     */
    method LoadSegment(d: nat, sz: nat, s: Segment, ghost m0: Mem, ghost segs: seq<Segment>)
      returns (r: ExecResult, newsz: nat)
      requires vm.Valid(loose) && Building(m0, vm.m, d, sz) && Image(vm.m, d, sz, segs) && AllUser(vm.m, d, Pages(sz))
      modifies vm
      ensures r == Ran || r == Refused ==> vm.Valid(loose) && Building(m0, vm.m, d, newsz)
      ensures r == Ran ==> |old(vm.m.free)| <= |vm.m.free| + 2 * (Pages(newsz) - Pages(sz))
      ensures r == Ran ==>
                && Sane(s) && !AtZero(s) && Image(vm.m, d, newsz, segs + [s]) && AllUser(vm.m, d, Pages(newsz))
                && newsz == if sz <= s.vaddr + s.memsz then s.vaddr + s.memsz else sz
      ensures r == Refused ==>
                || !Sane(s) || s.vaddr + s.memsz >= KVPN * PGSIZE
                || |old(vm.m.free)| < 2 * (Pages(s.vaddr + s.memsz) - Pages(sz))
      ensures r == AddressPanics ==> AtZero(s) && sz <= PGSIZE && s.memsz <= PGSIZE
      ensures r == StrayWrite ==> AtZero(s) && (sz > PGSIZE || s.memsz > PGSIZE)
    {
      hide Owned, SameOutside, Kept, Clear, PteOf, Content, TableOf, Backed, Building, Image, Pages, AllUser;
      newsz := sz;
      if s.memsz < s.filesz || s.vaddr + s.memsz >= WORD_LIMIT {
        return Refused, sz;
      }
      var ok;
      ok, newsz := Extend(d, sz, s.vaddr + s.memsz, m0, segs);
      if !ok || s.vaddr % PGSIZE != 0 {
        return Refused, newsz;
      }
      ghost var m1 := vm.m;
      BuildingParts(m0, m1, d, newsz);
      SizeSmall(m1, d, newsz);
      ImageParts(m1, d, newsz, segs);
      SegmentPages(m1, d, newsz, segs, s);
      var l := vm.Loaduvm(d, s.vaddr, s.filesz, s.data, loose);
      if l == NoTable {
        return AddressPanics, newsz;
      } else if l == Astray {
        return StrayWrite, newsz;
      }
      BuildingLoads(m0, m1, vm.m, d, newsz, s);
      if l == ShortFile {
        return Refused, newsz;
      }
      ImageLoaded(m1, vm.m, d, newsz, segs, s);
      AllUserSame(m1, vm.m, d, Pages(newsz));
      return Ran, newsz;
    }

    /** exec's loop over the program segments, and its guard and stack pages, in the new space `d`. */
    method Load(d: nat, segs: seq<Segment>, ghost m0: Mem) returns (r: ExecResult, sz: nat)
      requires vm.Valid(loose) && Building(m0, vm.m, d, PGSIZE) && Image(vm.m, d, PGSIZE, [])
      modifies vm
      ensures r == Ran || r == Refused ==> vm.Valid(loose) && Building(m0, vm.m, d, sz)
      ensures r == Ran ==> sz == Pages(ImageEnd(segs)) * PGSIZE + 2 * PGSIZE && Image(vm.m, d, sz, segs)
      ensures r == Ran ==> GuardSet(vm.m, d, Pages(sz))
      ensures Fits(segs, |old(vm.m.free)|) ==> r == Ran
      ensures r == AddressPanics || r == StrayWrite ==> exists i :: 0 <= i < |segs| && AtZero(segs[i])
      ensures StartsAtZero(segs, |old(vm.m.free)|) ==>
                r == if segs[0].memsz <= PGSIZE then AddressPanics else StrayWrite
    {
      hide Owned, Building, PteOf, Content, Backed, Pages, Image, TableOf, AllUser, GuardSet, Fits, ImageEnd, Kept;
      hide Sane;
      OnePage();
      NoImage(vm.m, d);
      assert segs[..0] == [];
      r, sz := Ran, PGSIZE;
      var i := 0;
      while i < |segs|
        invariant 0 <= i <= |segs| && vm.Valid(loose) && Building(m0, vm.m, d, sz) && Image(vm.m, d, sz, segs[..i])
        invariant AllUser(vm.m, d, Pages(sz)) && sz == ImageEnd(segs[..i])
        invariant |old(vm.m.free)| <= |vm.m.free| + 2 * (Pages(sz) - 1)
        invariant i == 0 ==> vm.m == old(vm.m) && sz == PGSIZE
        invariant i > 0 ==> !AtZero(segs[0])
      {
        OnePage();
        if Fits(segs, |old(vm.m.free)|) {
          FitsOn(segs, i, |old(vm.m.free)|, |vm.m.free|, sz);
        }
        r, sz := LoadSegment(d, sz, segs[i], m0, segs[..i]);
        if r != Ran {
          return;
        }
        assert segs[..i] + [segs[i]] == segs[..i + 1];
        ImageEndOf(segs[..i], segs[i]);
        i := i + 1;
      }
      assert segs[..i] == segs;
      if Fits(segs, |old(vm.m.free)|) {
        FitsOn(segs, |segs|, |old(vm.m.free)|, |vm.m.free|, sz);
      }
      r, sz := AddStack(d, sz, m0, segs);
    }

    /** exec's guard and stack pages, at the next page boundary. */
    method AddStack(d: nat, sz: nat, ghost m0: Mem, ghost segs: seq<Segment>) returns (r: ExecResult, newsz: nat)
      requires vm.Valid(loose) && Building(m0, vm.m, d, sz) && Image(vm.m, d, sz, segs) && AllUser(vm.m, d, Pages(sz))
      modifies vm
      ensures vm.Valid(loose) && Building(m0, vm.m, d, newsz) && (r == Ran || r == Refused)
      ensures r == Refused ==> |old(vm.m.free)| < 4
      ensures r == Ran ==> newsz == Pages(sz) * PGSIZE + 2 * PGSIZE && Image(vm.m, d, newsz, segs)
      ensures r == Ran ==> GuardSet(vm.m, d, Pages(newsz))
    {
      hide Owned, Building, PteOf, Content, Backed, Pages, Image, TableOf, AllUser, GuardSet;
      RoundUp(m0, vm.m, d, sz);
      RoundPages(m0, vm.m, d, sz);
      ImageRounds(vm.m, d, sz, segs);
      newsz := Pages(sz) * PGSIZE;
      var ok;
      ok, newsz := Extend(d, newsz, newsz + 2 * PGSIZE, m0, segs);
      if !ok {
        return Refused, newsz;
      }
      ghost var m1 := vm.m;
      BuildingParts(m0, m1, d, newsz);
      SizeSmall(m1, d, newsz);
      AbsentWithoutTable(m1, d, Pages(newsz) - 2);
      GuardIsThere(m1, d, newsz);
      var panicked := vm.Clearpteu(d, Pages(newsz) - 2, loose);
      assert !panicked;
      GuardKeeps(m0, m1, vm.m, d, newsz);
      GuardKeepsImage(m1, vm.m, d, newsz, segs);
      GuardIsSet(m1, vm.m, d, Pages(newsz));
      return Ran, newsz;
    }

    /**
     exec: the segments are loaded one after the other, two more pages become guard and stack, then the new space
     replaces the old one; `bad` stands for a bad header or arguments that do not fit. Refused leaves every process as
     it was. Afterwards flags and mappings agree, and each byte is that of the last segment that covers it. clearpteu
     never panics; loaduvm panics or writes outside the space only for a segment with bytes at address 0, and no program
     with such a segment ever runs.
     */
    method Exec(p: nat, segs: seq<Segment>, bad: bool) returns (r: ExecResult)
      requires Valid() && Runs(p)
      modifies this`procs, vm
      ensures |procs| == |old(procs)|
      ensures r == AddressPanics || r == StrayWrite ==> exists i :: 0 <= i < |segs| && AtZero(segs[i])
      ensures |old(vm.m.free)| >= 1 + KernelTables(vm.kmap)
              && StartsAtZero(segs, |old(vm.m.free)| - 1 - KernelTables(vm.kmap)) ==>
                r == if segs[0].memsz <= PGSIZE then AddressPanics else StrayWrite
      ensures r == Ran || r == Refused ==> Valid()
      ensures r == Refused ==> procs == old(procs) && Kept(old(vm.m), vm.m, {})
      ensures r == Ran ==> !bad && Replaced(old(vm.m), old(procs), vm.m, procs, p, segs)
      ensures !bad && Fits(segs, |old(vm.m.free)| - 1 - KernelTables(vm.kmap)) ==> r == Ran
    {
      hide Owned, Sound, SameOutside, Kept, Clear, PteOf, Content, Backed, Building, Image, Replaced, TableOf, Pages;
      hide StartsAtZero, KernelTables, GuardSet, Fits, ImageEnd;
      ghost var m0 := vm.m;
      var d, sz;
      d, r, sz := Build(segs, bad);
      if r == Refused {
        SameKeepsSound(m0, vm.m, procs, kernel, loose);
      } else if r == Ran {
        Replace(p, d, sz, segs, m0);
      }
    }

    /** exec up to there: a new space with the program's bytes, or none. */
    method Build(segs: seq<Segment>, bad: bool) returns (d: nat, r: ExecResult, sz: nat)
      requires vm.Valid(loose) && KmapOk(vm.kmap) && |vm.sm| == NSHARE
      modifies vm
      ensures r == AddressPanics || r == StrayWrite ==> exists i :: 0 <= i < |segs| && AtZero(segs[i])
      ensures |old(vm.m.free)| >= 1 + KernelTables(vm.kmap)
              && StartsAtZero(segs, |old(vm.m.free)| - 1 - KernelTables(vm.kmap)) ==>
                r == if segs[0].memsz <= PGSIZE then AddressPanics else StrayWrite
      ensures r == Refused ==> vm.Valid(loose) && Kept(old(vm.m), vm.m, {}) && vm.m.dirs.Keys == old(vm.m.dirs.Keys)
      ensures r == Ran ==>
                && !bad && vm.Valid(loose) && Building(old(vm.m), vm.m, d, sz) && Image(vm.m, d, sz, segs)
                && sz == Pages(ImageEnd(segs)) * PGSIZE + 2 * PGSIZE && GuardSet(vm.m, d, Pages(sz))
      ensures !bad && Fits(segs, |old(vm.m.free)| - 1 - KernelTables(vm.kmap)) ==> r == Ran
    {
      hide Owned, SameOutside, Kept, PteOf, Content, Backed, Building, Image, TableOf, Pages;
      hide StartsAtZero, KernelTables, GuardSet, ImageEnd;
      FitsSome(segs);
      hide Fits;
      ghost var m0 := vm.m;
      d := vm.Setupkvm(loose);
      if d == 0 {
        return 0, Refused, 0;
      }
      BuildingStarts(m0, vm.m, d);
      ImageStarts(vm.m, d);
      r, sz := Load(d, segs, m0);
      if r == Refused || (r == Ran && bad) {
        BuildingParts(m0, vm.m, d, sz);
        ghost var m2 := vm.m;
        vm.Freevm(d, loose);
        KeptNotNew(m0, m2, vm.m, d);
        r := Refused;
      }
    }

    /** exec's last steps: the new space is the process's, the old one is freed. */
    method Replace(p: nat, d: nat, sz: nat, ghost segs: seq<Segment>, ghost m0: Mem)
      requires vm.Valid(loose) && KmapOk(vm.kmap) && |vm.sm| == NSHARE && Sound(m0, procs, kernel, loose) && Runs(p)
      requires Building(m0, vm.m, d, sz) && Image(vm.m, d, sz, segs) && GuardSet(vm.m, d, Pages(sz))
      requires sz == Pages(ImageEnd(segs)) * PGSIZE + 2 * PGSIZE
      modifies this`procs, vm
      ensures Valid() && |procs| == |old(procs)| && Replaced(m0, old(procs), vm.m, procs, p, segs)
    {
      hide Owned, Sound, SameOutside, Kept, Clear, PteOf, Content, Backed, Building, Agrees, Released, Image, PageHas;
      hide TableOf, Pages, GuardSet, ImageEnd;
      ghost var m2 := vm.m;
      Here(m0, procs, kernel, loose, p);
      BuildingParts(m0, m2, d, sz);
      SizeSmall(m2, d, sz);
      PageOf(m0, m2, procs[p].pgdir);
      vm.Freevm(procs[p].pgdir, loose);
      var next := Proc(true, d, sz, NO_FLAGS, procs[p].kstack);
      ExecCommits(m0, m2, vm.m, procs[p], next);
      ImageStays(m2, vm.m, procs[p].pgdir, d, sz, segs);
      GuardStays(m2, vm.m, {procs[p].pgdir}, d, Pages(sz));
      EntryKeepsSound(m0, vm.m, procs, p, next, kernel, loose, loose);
      procs := procs[p := next];
    }
  }

  lemma Here(m: Mem, procs: seq<Proc>, kernel: set<nat>, loose: set<nat>, p: nat)
    requires Sound(m, procs, kernel, loose) && p < |procs| && procs[p].used
    ensures ProcOk(m, procs[p]) && procs[p].pgdir in m.dirs && procs[p].kstack in loose && |procs[p].shared| == NSHARE
    ensures Backed(m, procs[p].pgdir, procs[p].sz)
  {
    assert ProcOk(m, procs[p]) && IsStack(procs, procs[p].kstack);
  }

  lemma SizeSmall(m: Mem, d: nat, sz: nat)
    requires Backed(m, d, sz)
    ensures 0 < sz <= (PHYSPAGES + 1) * PGSIZE && Pages(sz) < UVPN && Clear(m, d, Pages(sz), UVPN)
    ensures forall v: nat | 1 <= v < Pages(sz) :: PteOf(m, d, v).Present?
  {
  }

  lemma SameKeepsSound(m: Mem, m': Mem, procs: seq<Proc>, kernel: set<nat>, loose: set<nat>)
    requires Sound(m, procs, kernel, loose) && Kept(m, m', {}) && m'.dirs.Keys == m.dirs.Keys
    ensures Sound(m', procs, kernel, loose)
  {
    hide ProcOk, Apart, IsSpace, IsStack, Kept;
    forall i: nat | i < |procs|
      ensures ProcOk(m', procs[i])
    {
      assert ProcOk(m, procs[i]);
      if procs[i].used {
        BackedKept(m, m', procs[i]);
      } else {
        UnusedOk(m, m', procs[i]);
      }
    }
  }

  lemma UnusedOk(m: Mem, m': Mem, p: Proc)
    requires !p.used && ProcOk(m, p)
    ensures ProcOk(m', p)
  {
  }

  /** A process whose space changed below the shared pages and backs its new size. */
  lemma SizeKeepsSound(m: Mem, m': Mem, procs: seq<Proc>, kernel: set<nat>, loose: set<nat>, p: nat, sz: nat)
    requires Sound(m, procs, kernel, loose) && p < |procs| && procs[p].used && Backed(m', procs[p].pgdir, sz)
    requires Kept(m, m', {procs[p].pgdir}) && m'.dirs.Keys == m.dirs.Keys
    requires forall n: nat | n < NSHARE :: Shows(m', procs[p].pgdir, n) == Shows(m, procs[p].pgdir, n)
    ensures Sound(m', procs[p := procs[p].(sz := sz)], kernel, loose)
  {
    hide Kept, Backed, Shows;
    assert ProcOk(m, procs[p]) && IsSpace(procs, procs[p].pgdir) && IsStack(procs, procs[p].kstack);
    EntryKeepsSound(m, m', procs, p, procs[p].(sz := sz), kernel, loose, loose);
  }

  /** After a shrink to exactly 0 the entry is as before but its pages are gone. */
  lemma ShrunkToNothing(m: Mem, m': Mem, procs: seq<Proc>, kernel: set<nat>, loose: set<nat>, p: nat)
    requires Sound(m, procs, kernel, loose) && p < |procs| && procs[p].used
    requires Kept(m, m', {procs[p].pgdir}) && m'.dirs.Keys == m.dirs.Keys
    requires forall n: nat | n < NSHARE :: Shows(m', procs[p].pgdir, n) == Shows(m, procs[p].pgdir, n)
    requires Backed(m', procs[p].pgdir, procs[p].sz) <==> Pages(procs[p].sz) <= 1
    ensures Sound(m', procs, kernel, loose) <==> Pages(procs[p].sz) <= 1
  {
    hide Kept, Backed, Shows, Sound;
    if Pages(procs[p].sz) <= 1 {
      SizeKeepsSound(m, m', procs, kernel, loose, p, procs[p].sz);
      assert procs[p := procs[p].(sz := procs[p].sz)] == procs;
    } else {
      NotSound(m', procs, kernel, loose, p);
    }
  }

  lemma NotSound(m: Mem, procs: seq<Proc>, kernel: set<nat>, loose: set<nat>, p: nat)
    requires p < |procs| && procs[p].used && !Backed(m, procs[p].pgdir, procs[p].sz)
    ensures !Sound(m, procs, kernel, loose)
  {
    hide Backed;
    assert !ProcOk(m, procs[p]);
  }

  lemma KernelFrame(m: Mem, procs: seq<Proc>, kernel: set<nat>, loose: set<nat>, f: nat)
    requires Sound(m, procs, kernel, loose) && f in kernel
    ensures f in loose
  {
  }

  lemma KernelIsLoose(m: Mem, procs: seq<Proc>, kernel: set<nat>, loose: set<nat>)
    requires Sound(m, procs, kernel, loose)
    ensures kernel <= loose
  {
  }

  lemma KernelTakes(m: Mem, m': Mem, procs: seq<Proc>, kernel: set<nat>, loose: set<nat>, f: nat)
    requires Sound(m, procs, kernel, loose) && Kept(m, m', {}) && m'.dirs.Keys == m.dirs.Keys && f !in loose
    ensures Sound(m', procs, kernel + {f}, loose + {f})
  {
    hide ProcOk, Apart, IsSpace, Kept;
    SameKeepsSound(m, m', procs, kernel, loose);
    forall i: nat | i < |procs| && procs[i].used
      ensures procs[i].kstack != f
    {
      assert IsStack(procs, procs[i].kstack);
    }
  }

  lemma KernelGives(m: Mem, m': Mem, procs: seq<Proc>, kernel: set<nat>, loose: set<nat>, f: nat)
    requires Sound(m, procs, kernel, loose) && Kept(m, m', {}) && m'.dirs.Keys == m.dirs.Keys && f in kernel
    ensures Sound(m', procs, kernel - {f}, loose - {f})
  {
    hide ProcOk, Apart, IsSpace, Kept;
    SameKeepsSound(m, m', procs, kernel, loose);
    assert !IsStack(procs, f);
  }

  lemma EntryFlags(m: Mem, procs: seq<Proc>, kernel: set<nat>, loose: set<nat>, i: nat)
    requires Sound(m, procs, kernel, loose) && i < |procs|
    ensures |procs[i].shared| == NSHARE && ProcOk(m, procs[i])
  {
    assert ProcOk(m, procs[i]);
  }

  lemma FlagsKeepSound(m: Mem, m': Mem, procs: seq<Proc>, kernel: set<nat>, loose: set<nat>, i: nat, flags: seq<bool>)
    requires Sound(m, procs, kernel, loose) && i < |procs| && !procs[i].used && |flags| == NSHARE
    requires Kept(m, m', {}) && m'.dirs.Keys == m.dirs.Keys
    ensures Sound(m', procs[i := procs[i].(shared := flags)], kernel, loose)
  {
    hide Kept, Backed;
    EntryKeepsSound(m, m', procs, i, procs[i].(shared := flags), kernel, loose, loose);
  }

  lemma KeptChain(m0: Mem, m1: Mem, m2: Mem)
    requires Kept(m0, m1, {}) && Kept(m1, m2, {})
    ensures Kept(m0, m2, {})
  {
    forall d | d in m0.dirs
      ensures d in m2.dirs && forall v: nat :: SameAt(m0, m2, d, v)
    {
      assert d in m1.dirs;
      forall v: nat
        ensures SameAt(m0, m2, d, v)
      {
        assert SameAt(m0, m1, d, v) && SameAt(m1, m2, d, v);
      }
    }
  }

  lemma PageOf(m: Mem, m': Mem, d: nat)
    requires Kept(m, m', {}) && d in m.dirs
    ensures d in m'.dirs && forall v: nat :: PteOf(m', d, v) == PteOf(m, d, v)
  {
    forall v: nat
      ensures PteOf(m', d, v) == PteOf(m, d, v)
    {
      assert SameAt(m, m', d, v);
    }
  }

  lemma CopiedFromThere(m0: Mem, m1: Mem, m: Mem, d: nat, c: nat, sz: nat)
    requires Kept(m0, m1, {}) && d in m0.dirs && Pages(sz) <= UVPN
    requires forall v: nat | v < UVPN ::
               if 1 <= v < Pages(sz) then Copied(m1, m, d, c, v) && FramesDiffer(m, d, c, v)
                  else PteOf(m, c, v) == Absent
    ensures forall v: nat | v < UVPN :: if 1 <= v < Pages(sz) then Copied(m0, m, d, c, v) else PteOf(m, c, v) == Absent
  {
    hide PteOf, Content;
    forall v: nat | 1 <= v < Pages(sz)
      ensures Copied(m0, m, d, c, v)
    {
      assert Copied(m1, m, d, c, v) && SameAt(m0, m1, d, v);
    }
  }

  lemma FlaggedHere(m: Mem, p: Proc)
    requires p.used && ProcOk(m, p)
    ensures forall n: nat | n < NSHARE && !p.shared[n] :: PteOf(m, p.pgdir, KVPN - 1 - n) == Absent
  {
    forall n: nat | n < NSHARE && !p.shared[n]
      ensures PteOf(m, p.pgdir, KVPN - 1 - n) == Absent
    {
      assert !Shows(m, p.pgdir, n);
    }
  }

  lemma TakenOne(m: Mem, m': Mem, d: nat, v: nat)
    requires Taken(m, m', d, v)
    ensures |m.free| <= |m'.free| + 1
  {
    assert |Slots(m', d)| <= |Slots(m, d)| + 1;
  }

  lemma SharedKeepsSound(m: Mem, m': Mem, procs: seq<Proc>, kernel: set<nat>, loose: set<nat>, p: nat, n: nat)
    requires Sound(m, procs, kernel, loose) && p < |procs| && procs[p].used && n < NSHARE
    requires |procs[p].shared| == NSHARE && SameOutside(m, m', procs[p].pgdir, KVPN - 1 - n, KVPN - n)
    requires PteOf(m', procs[p].pgdir, KVPN - 1 - n).Present?
    ensures Sound(m', procs[p := procs[p].(shared := procs[p].shared[n := true])], kernel, loose)
    ensures Kept(m, m', {procs[p].pgdir}) && Shows(m', procs[p].pgdir, n)
  {
    hide PteOf, Content;
    var d := procs[p].pgdir;
    assert ProcOk(m, procs[p]) && IsSpace(procs, d) && IsStack(procs, procs[p].kstack);
    forall v: nat | v != KVPN - 1 - n
      ensures PteOf(m', d, v) == PteOf(m, d, v)
    {
      assert SameAt(m, m', d, v);
    }
    SharedProcOk(m, m', procs[p], n);
    SharedKept(m, m', d, n);
    EntryKeepsSound(m, m', procs, p, procs[p].(shared := procs[p].shared[n := true]), kernel, loose, loose);
  }

  lemma SharedKept(m: Mem, m': Mem, d: nat, n: nat)
    requires n < NSHARE && SameOutside(m, m', d, KVPN - 1 - n, KVPN - n)
    ensures Kept(m, m', {d}) && m'.dirs.Keys == m.dirs.Keys
  {
  }

  lemma SharedProcOk(m: Mem, m': Mem, p: Proc, n: nat)
    requires p.used && ProcOk(m, p) && n < NSHARE && p.pgdir in m'.dirs
    requires forall v: nat | v != KVPN - 1 - n :: PteOf(m', p.pgdir, v) == PteOf(m, p.pgdir, v)
    ensures ProcOk(m', p.(shared := p.shared[n := true]))
  {
    hide PteOf;
    forall k: nat | k < NSHARE && k != n
      ensures Shows(m', p.pgdir, k) == Shows(m, p.pgdir, k)
    {
    }
  }

  lemma ReapKeeps(m0: Mem, m1: Mem, m2: Mem, d: nat, k: nat)
    requires Kept(m0, m1, {}) && m1.dirs.Keys == m0.dirs.Keys && Kept(m1, m2, {d}) && d in m0.dirs
    requires Released(m1, m2, d, 0, UVPN) && m1.free == [k] + m0.free
    ensures Kept(m0, m2, {d}) && Released(m0, m2, d, 0, UVPN) && k in m2.free
  {
    assert m1.free[0] == k;
    forall d' | d' in m0.dirs && d' != d
      ensures d' in m2.dirs && forall v: nat :: SameAt(m0, m2, d', v)
    {
      forall v: nat
        ensures SameAt(m0, m2, d', v)
      {
        assert SameAt(m0, m1, d', v) && SameAt(m1, m2, d', v);
      }
    }
    forall v: nat | v < UVPN
      ensures PteOf(m1, d, v) == PteOf(m0, d, v)
    {
      assert SameAt(m0, m1, d, v);
    }
  }

  lemma FirstProcess(m0: Mem, m2: Mem, m: Mem, d: nat, k: nat)
    requires Kept(m0, m2, {}) && d !in m0.dirs && m2.dirs.Keys == m0.dirs.Keys + {d} && SameOutside(m2, m, d, 0, 1)
    requires forall v: nat | v < KVPN :: PteOf(m2, d, v) == Absent
    ensures ProcOk(m, Proc(true, d, PGSIZE, NO_FLAGS, k)) && Agrees(m, Proc(true, d, PGSIZE, NO_FLAGS, k))
    ensures Kept(m0, m, {}) && m.dirs.Keys == m0.dirs.Keys + {d}
  {
    hide PteOf, Content, Kept;
    KeptNew(m0, m2, m, d, 0, 1);
    forall v: nat | 1 <= v < KVPN
      ensures PteOf(m, d, v) == Absent
    {
      assert SameAt(m2, m, d, v);
    }
  }

  // ---- exec ----

  lemma FitsSome(segs: seq<Segment>)
    ensures forall free: int | Fits(segs, free) :: free >= 2
  {
  }

  /** A new space of size `sz` besides the old ones, without shared pages. */
  ghost predicate Building(m0: Mem, m: Mem, d: nat, sz: nat) {
    && Kept(m0, m, {}) && m.dirs.Keys == m0.dirs.Keys + {d} && d !in m0.dirs && PGSIZE <= sz && Backed(m, d, sz)
    && Clear(m, d, UVPN, KVPN)
  }

  lemma BuildingParts(m0: Mem, m: Mem, d: nat, sz: nat)
    requires Building(m0, m, d, sz)
    ensures Kept(m0, m, {}) && m.dirs.Keys == m0.dirs.Keys + {d} && d !in m0.dirs && PGSIZE <= sz && Backed(m, d, sz)
    ensures d in m.dirs && Clear(m, d, UVPN, KVPN)
  {
  }

  lemma BuildingStarts(m0: Mem, m: Mem, d: nat)
    requires Kept(m0, m, {}) && m.dirs.Keys == m0.dirs.Keys + {d} && d !in m0.dirs
    requires forall v: nat | v < KVPN :: PteOf(m, d, v) == Absent
    ensures Building(m0, m, d, PGSIZE)
  {
  }

  lemma ClearLess(m: Mem, d: nat, target: nat)
    requires Clear(m, d, UVPN, KVPN)
    ensures target < KVPN * PGSIZE ==> Clear(m, d, UVPN, Pages(target))
  {
  }

  lemma BuildingSame(m0: Mem, m: Mem, m': Mem, d: nat, sz: nat)
    requires Building(m0, m, d, sz) && SameOutside(m, m', 0, 0, 0)
    ensures Building(m0, m', d, sz)
  {
    hide PteOf, Content;
    UnseenKeeps(m, m');
    KeptChain(m0, m, m');
    PageOf(m, m', d);
  }

  lemma BuildingGrows(m0: Mem, m: Mem, m': Mem, d: nat, sz: nat, newsz: nat)
    requires Building(m0, m, d, sz) && Backed(m', d, newsz) && sz <= newsz && Pages(newsz) <= UVPN
    requires SameOutside(m, m', d, Pages(sz), Pages(newsz))
    ensures Building(m0, m', d, newsz)
  {
    hide PteOf, Content, Backed, Kept;
    KeptNew(m0, m, m', d, Pages(sz), Pages(newsz));
    forall v: nat | UVPN <= v < KVPN
      ensures PteOf(m', d, v) == Absent
    {
      assert SameAt(m, m', d, v);
    }
  }

  /** loaduvm changes no entry. */
  lemma BuildingLoads(m0: Mem, m: Mem, m': Mem, d: nat, sz: nat, s: Segment)
    requires Building(m0, m, d, sz) && m'.dirs.Keys == m.dirs.Keys
    requires SameOutside(m, m', d, s.vaddr / PGSIZE, Pages(s.vaddr + s.filesz))
    requires forall v: nat :: PteOf(m', d, v) == PteOf(m, d, v)
    ensures Building(m0, m', d, sz)
  {
    hide PteOf, Content, Kept;
    KeptNew(m0, m, m', d, s.vaddr / PGSIZE, Pages(s.vaddr + s.filesz));
  }

  lemma OnePage()
    ensures Pages(PGSIZE) == 1
  {
  }

  lemma NoImage(m: Mem, d: nat)
    ensures AllUser(m, d, 1) && ImageEnd([]) == PGSIZE
  {
  }

  /** Rounding up adds no page, and guard and stack add two. */
  lemma RoundPages(m0: Mem, m: Mem, d: nat, sz: nat)
    requires Building(m0, m, d, sz)
    ensures Pages(Pages(sz) * PGSIZE) == Pages(sz) && Pages(Pages(sz) * PGSIZE + 2 * PGSIZE) == Pages(sz) + 2
    ensures Pages(sz) >= 1 && Pages(sz) * PGSIZE + 2 * PGSIZE < KVPN * PGSIZE
  {
  }

  lemma ImageParts(m: Mem, d: nat, sz: nat, segs: seq<Segment>)
    requires Image(m, d, sz, segs)
    ensures PteOf(m, d, 0) == Absent && (TableOf(m, d, 0) == 0 <==> sz <= PGSIZE)
  {
    if Pages(sz) > 1 {
      assert PageHas(m, d, 1, segs);
    }
  }

  lemma ImageRounds(m: Mem, d: nat, sz: nat, segs: seq<Segment>)
    requires Image(m, d, sz, segs)
    ensures Image(m, d, Pages(sz) * PGSIZE, segs)
  {
    hide PteOf, Content, TableOf;
  }

  lemma GuardIsThere(m: Mem, d: nat, sz: nat)
    requires Backed(m, d, sz) && Pages(sz) >= 3
    ensures PteOf(m, d, Pages(sz) - 2).Present?
  {
  }

  lemma GuardKeepsImage(m: Mem, m': Mem, d: nat, sz: nat, segs: seq<Segment>)
    requires Image(m, d, sz, segs) && 3 <= Pages(sz) <= KVPN && d in m.dirs && PteOf(m, d, Pages(sz) - 2).Present?
    requires SameOutside(m, m', d, Pages(sz) - 2, Pages(sz) - 1) && PteOf(m', d, Pages(sz) - 2).Present?
    requires Content(m', d, Pages(sz) - 2) == Content(m, d, Pages(sz) - 2)
    ensures Image(m', d, sz, segs)
  {
    hide PteOf, Content;
    forall v: nat | v < Pages(sz)
      ensures SameButFlags(m, m', d, v)
    {
      assert v != Pages(sz) - 2 ==> SameAt(m, m', d, v);
    }
    ImageKept(m, m', d, sz, segs);
  }

  /** freevm of the old space leaves the new one. */
  lemma ImageStays(m: Mem, m': Mem, old_d: nat, d: nat, sz: nat, segs: seq<Segment>)
    requires Image(m, d, sz, segs) && Kept(m, m', {old_d}) && d in m.dirs && d != old_d && Pages(sz) <= KVPN
    ensures forall s | s in segs :: Sane(s) && !AtZero(s) && s.vaddr + s.memsz <= sz
    ensures forall v: nat | 1 <= v < Pages(sz) :: PageHas(m', d, v, segs)
  {
    hide PteOf, Content;
    forall v: nat | 1 <= v < Pages(sz)
      ensures PageHas(m', d, v, segs)
    {
      assert SameAt(m, m', d, v) && PageHas(m, d, v, segs);
    }
  }

  lemma RoundUp(m0: Mem, m: Mem, d: nat, sz: nat)
    requires Building(m0, m, d, sz)
    ensures Building(m0, m, d, Pages(sz) * PGSIZE) && PGSIZE <= sz <= Pages(sz) * PGSIZE
  {
    hide PteOf, Kept;
  }

  /** clearpteu changes no frame. */
  lemma GuardKeeps(m0: Mem, m: Mem, m': Mem, d: nat, sz: nat)
    requires Building(m0, m, d, sz) && 3 <= Pages(sz)
    requires m' == m || (SameOutside(m, m', d, Pages(sz) - 2, Pages(sz) - 1) && PteOf(m', d, Pages(sz) - 2).Present?)
    ensures Building(m0, m', d, sz)
  {
    hide PteOf, Content, Kept;
    if m' != m {
      KeptNew(m0, m, m', d, Pages(sz) - 2, Pages(sz) - 1);
      forall v: nat | v != Pages(sz) - 2
        ensures PteOf(m', d, v) == PteOf(m, d, v)
      {
        assert SameAt(m, m', d, v);
      }
    }
  }

  lemma ExecCommits(m0: Mem, m2: Mem, m: Mem, p: Proc, next: Proc)
    requires Kept(m0, m2, {}) && m2.dirs.Keys == m0.dirs.Keys + {next.pgdir} && next.pgdir !in m0.dirs
    requires p.pgdir in m0.dirs && Backed(m2, next.pgdir, next.sz) && Clear(m2, next.pgdir, UVPN, KVPN)
    requires Kept(m2, m, {p.pgdir}) && m.dirs.Keys == m2.dirs.Keys - {p.pgdir} && next.used && next.shared == NO_FLAGS
    ensures ProcOk(m, next) && Agrees(m, next) && Kept(m0, m, {p.pgdir})
  {
    hide PteOf, Content;
    forall v: nat
      ensures PteOf(m, next.pgdir, v) == PteOf(m2, next.pgdir, v)
    {
      assert SameAt(m2, m, next.pgdir, v);
    }
    forall d | d in m0.dirs && d != p.pgdir
      ensures d in m.dirs && forall v: nat :: SameAt(m0, m, d, v)
    {
      forall v: nat
        ensures SameAt(m0, m, d, v)
      {
        assert SameAt(m0, m2, d, v) && SameAt(m2, m, d, v);
        SameAtThen(m0, m2, m, d, v);
      }
    }
  }
}
