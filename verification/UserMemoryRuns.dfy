/** Runs of `UserMemory.Machine` in which what the code seems to promise fails. */
module UserMemoryRuns {
  import opened Blocks
  import opened Frames
  import opened AddressSpace
  import opened ProgramImage
  import opened UserMemory

  /** Memory that boot can leave, large enough for a few processes. */
  ghost predicate Ample(frames: seq<nat>, sm: seq<nat>, kmap: seq<Range>) {
    && |sm| == NSHARE && NoDup(frames + sm) && 0 !in frames + sm && |frames + sm| <= PHYSPAGES && KmapOk(kmap)
    && |frames| >= 4 * KernelTables(kmap) + 16
  }

  /** The first process, of one page. */
  method OneProcess(frames: seq<nat>, sm: seq<nat>, kmap: seq<Range>, n: nat) returns (mc: Machine)
    requires Ample(frames, sm, kmap) && n >= 3
    ensures fresh(mc) && fresh(mc.vm) && mc.Valid() && mc.vm.kmap == kmap && |mc.procs| == n && mc.kernel == {}
    ensures mc.Runs(0) && mc.procs[0].sz == PGSIZE && mc.procs[0].shared == NO_FLAGS
    ensures forall i | 1 <= i < n :: mc.procs[i] == Proc(false, 0, 0, NO_FLAGS, 0)
    ensures |mc.vm.m.free| >= 3 * KernelTables(kmap) + 12
  {
    hide Owned, Sound, Agrees, KernelTables, NoDup, KmapOk;
    var vm := new Vm(frames, sm, kmap);
    mc := new Machine(vm, n);
    var panicked := mc.Userinit(Zeros(PGSIZE));
  }

  /** Two processes of one page; the second has shared page 0. */
  method TwoProcesses(frames: seq<nat>, sm: seq<nat>, kmap: seq<Range>, n: nat) returns (mc: Machine)
    requires Ample(frames, sm, kmap) && n >= 3
    ensures fresh(mc) && fresh(mc.vm) && mc.Valid() && mc.vm.kmap == kmap && |mc.procs| == n && mc.kernel == {}
    ensures mc.Runs(0) && mc.procs[0].sz == PGSIZE && mc.procs[0].shared == NO_FLAGS
    ensures mc.Runs(1) && mc.procs[1].sz == PGSIZE && mc.procs[1].shared == [true, false, false, false]
    ensures mc.procs[2] == Proc(false, 0, 0, NO_FLAGS, 0) && Shows(mc.vm.m, mc.procs[1].pgdir, 0)
    ensures |mc.vm.m.free| >= 2 * KernelTables(kmap) + 9
  {
    hide Owned, Sound, Kept, Agrees, Shows, Copied, KernelTables, NoDup, KmapOk;
    mc := OneProcess(frames, sm, kmap, n);
    assert mc.procs[0].used && !mc.procs[1].used;
    var e, slot, _ := mc.Fork(0);
    assert slot == 1;
    assert mc.procs[1].shared == NO_FLAGS;
    var _, p := mc.Shmem(1, 0);
  }

  /** The rest of the kernel takes frames until `keep` are left. */
  method Drain(mc: Machine, keep: nat) returns (held: seq<nat>)
    requires mc.Valid() && mc.kernel == {} && keep <= |mc.vm.m.free|
    modifies mc`kernel, mc`loose, mc.vm
    ensures mc.Valid() && |mc.vm.m.free| == keep && |held| == old(|mc.vm.m.free|) - keep && NoDup(held)
    ensures forall i | 0 <= i < |held| :: held[i] in mc.kernel
  {
    hide Owned, Sound, Kept;
    held := [];
    while |mc.vm.m.free| > keep
      invariant mc.Valid() && |mc.vm.m.free| >= keep && |held| + |mc.vm.m.free| == old(|mc.vm.m.free|)
      invariant NoDup(held) && forall i | 0 <= i < |held| :: held[i] in mc.kernel
      decreases |mc.vm.m.free|
    {
      ghost var kernel := mc.kernel;
      KernelIsLoose(mc.vm.m, mc.procs, mc.kernel, mc.loose);
      var f := mc.TakeFrame();
      held := held + [f];
    }
  }

  /** And gives them back. */
  method Refill(mc: Machine, held: seq<nat>)
    requires mc.Valid() && NoDup(held) && forall i | 0 <= i < |held| :: held[i] in mc.kernel
    modifies mc`kernel, mc`loose, mc.vm
    ensures mc.Valid() && |mc.vm.m.free| >= |held|
  {
    hide Owned, Sound, Kept;
    var i := 0;
    while i < |held|
      invariant 0 <= i <= |held| && mc.Valid() && |mc.vm.m.free| >= i
      invariant forall j | i <= j < |held| :: held[j] in mc.kernel
    {
      mc.GiveFrame(held[i]);
      i := i + 1;
    }
  }

  /**
   A flag without a mapping. The second process forks with memory for all but the table of its shared page: copyuvm sets
   the child's flag, fails, and nobody clears it. The first process, which has no shared page, forks into the same
   entry; its child's flag is set, nothing is mapped, and shmem_access hands out the address.
   */
  method StaleFlag(frames: seq<nat>, sm: seq<nat>, kmap: seq<Range>, n: nat, tables: nat) returns (mc: Machine, va: int)
    requires Ample(frames, sm, kmap) && n >= 3 && tables == KernelTables(kmap)
    ensures mc.Valid() && mc.Runs(2) && |mc.procs[2].shared| == NSHARE && mc.procs[2].shared[0]
    ensures va == (KVPN - 1) * PGSIZE && !Shows(mc.vm.m, mc.procs[2].pgdir, 0)
  {
    hide Owned, Sound, Kept, Agrees, Shows, Copied, KernelTables, NoDup, KmapOk;
    mc := TwoProcesses(frames, sm, kmap, n);
    var held := Drain(mc, 2 + tables);
    var _, slot, marked := mc.Fork(1);
    assert slot == 2 && marked == 1 && mc.procs[2].shared[0];
    Refill(mc, held);
    var e, slot', _ := mc.Fork(0);
    assert slot' == 2;
    var panicked;
    va, panicked := mc.Shmem(2, 0);
  }

  /** sbrk to just below KERNBASE fails, and puts the shared page of the process on the free list. */
  method BigSbrk(frames: seq<nat>, sm: seq<nat>, kmap: seq<Range>, n: nat) returns (mc: Machine, r: GrowResult)
    requires Ample(frames, sm, kmap) && n >= 3
    ensures r == LosesShared && exists k: nat :: k < NSHARE && k < |mc.vm.sm| && mc.vm.sm[k] in mc.vm.m.free
    ensures forall o, loose :: !Owned(mc.vm.m, o, mc.vm.sm, loose)
  {
    hide Owned, Sound, Kept, KernelTables, NoDup, KmapOk, Clear;
    mc := TwoProcesses(frames, sm, kmap, n);
    NotClear(mc.vm.m, mc.procs[1].pgdir, UVPN, KVPN, KVPN - 1);
    r := mc.Grow(1, 0x7FFF_EFFF);
    ghost var k: nat :| k < NSHARE && k < |mc.vm.sm| && mc.vm.sm[k] in mc.vm.m.free;
    SharedOnFreeList(mc.vm.m, mc.vm.sm, k);
  }

  /** sbrk down to exactly 0 reports failure, but the pages are gone; the next fork panics in copyuvm. */
  method ShrinkToNothing(frames: seq<nat>, sm: seq<nat>, kmap: seq<Range>, n: nat)
    returns (mc: Machine, r: GrowResult, panicked: bool)
    requires Ample(frames, sm, kmap) && n >= 3
    ensures r == Returns(-1) && panicked
  {
    hide Owned, Sound, Kept, KernelTables, NoDup, KmapOk, Clear, Backed, PteOf;
    mc := OneProcess(frames, sm, kmap, n);
    ClearNone(mc.vm.m, mc.procs[0].pgdir, UVPN, 2);
    r := mc.Grow(0, PGSIZE);
    assert r == Returns(0);
    Here(mc.vm.m, mc.procs, mc.kernel, mc.loose, 0);
    r := mc.Grow(0, -(2 * PGSIZE));
    ClearUpper(mc.vm.m, mc.procs[0].pgdir);
    var _, _, p := mc.vm.Copyuvm(mc.procs[0].pgdir, mc.procs[0].sz, mc.procs[0].shared, mc.loose);
    panicked := p;
  }

  /** A program with a byte at address 0 makes loaduvm panic, or write outside the space if its segment needs a page. */
  method ZeroSegment(frames: seq<nat>, sm: seq<nat>, kmap: seq<Range>, n: nat, large: bool)
    returns (mc: Machine, r: ExecResult)
    requires Ample(frames, sm, kmap) && n >= 3
    ensures r == if large then StrayWrite else AddressPanics
  {
    hide Owned, Sound, Kept, KernelTables, NoDup, KmapOk, Replaced;
    mc := OneProcess(frames, sm, kmap, n);
    var s := Segment(0, 1, if large then 2 * PGSIZE else 1, [7]);
    r := mc.Exec(0, [s], false);
  }

  lemma ClearUpper(m: Mem, d: nat)
    requires Clear(m, d, 0, 2)
    ensures PteOf(m, d, 1) == Absent
  {
  }
}
