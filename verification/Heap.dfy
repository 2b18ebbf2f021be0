/**
 malloc and free of part1/umalloc.c (The C Programming Language, second edition, section 8.7), on the free list of
 module HeapRing. sbrk's answer is a parameter: it fails or returns addresses above everything it returned before.
 */
module Heap {
  import opened HeapRing

  const UNIT := 8                     // sizeof(Header)
  const MIN_CORE := 4096              // morecore's least request, in units
  const LIMIT := 0x1_0000_0000

  /** `(nbytes + sizeof(Header) - 1)/sizeof(Header) + 1` in 32-bit arithmetic. */
  function Units(nbytes: nat): (n: nat)
    requires nbytes < LIMIT
    ensures n > 0
  {
    (nbytes + UNIT - 1) % LIMIT / UNIT + 1
  }

  /** The bytes morecore asks of sbrk, whose parameter is a signed int. */
  function CoreUnits(n: nat): (nu: nat)
    ensures nu >= n && nu >= MIN_CORE
  {
    if n < MIN_CORE then MIN_CORE else n
  }

  /**
   Which requests malloc can serve at all: those for which the block holds the bytes asked for and sbrk's argument
   is a positive int. Above, `nbytes + 7` or `nu * 8` wraps round.
   */
  lemma RequestFits(nbytes: nat)
    requires nbytes < LIMIT
    ensures nbytes <= 0x7FFF_FFF0 <==>
              nbytes <= (Units(nbytes) - 1) * UNIT && CoreUnits(Units(nbytes)) * UNIT < 0x8000_0000
    ensures nbytes <= 0x7FFF_FFF0 ==> (Units(nbytes) - 2) * UNIT < nbytes
  {
  }

  /** What sbrk does if it is called. */
  datatype Sbrk = NoMemory | Core(addr: int)

  /** The list after free's linking, with everything the callers need to know of it. */
  lemma LinkedRing(h: Store, base: int, ring: seq<int>, brk: int, t: nat, bp: int, keep: seq<Blk>)
    returns (r: seq<int>)
    requires RingOk(h, base, ring, brk) && Between(h, ring, t, bp) && base < bp && bp + h[bp].size <= brk
    requires LiveOk(h, base, ring, keep, brk) && forall b | b in keep :: Apart(bp, h[bp].size, b.addr, b.units)
    ensures ring[t] in h && h[ring[t]].ptr in h && ring[t] != bp
    ensures var h' := Merged(h, ring[t], bp);
            && Stored(h', r) && RingOk(h', base, r, brk) && FreeUnits(h', r) == FreeUnits(h, ring) + h[bp].size
            && ring[t] in r && LiveOk(h', base, r, keep, brk)
            && HasBlock(h', r, h[bp].size)
  {
    hide Freed, Merged, FreeUnits, Spaced;
    FreedIsRing(h, base, ring, brk, t, bp);
    MergedIsFreed(h, base, ring, brk, t, bp);
    MergedFrame(h, ring[t], bp);
    r := Freed(h, ring, t, bp).1;
    assert r[t] == ring[t];
    var h' := Merged(h, ring[t], bp);
    forall b | b in keep
      ensures b.addr != bp && ClearOf(h', r, b)
    {
      assert ClearOf(h, ring, b);
    }
    LiveKept(h, h', base, ring, r, keep, brk, brk, bp);
  }

  lemma MergedFrame(h: Store, p: int, bp: int)
    requires p in h && bp in h && h[p].ptr in h && p != bp
    ensures Merged(h, p, bp).Keys == h.Keys && forall x | x in h && x != p && x != bp :: Merged(h, p, bp)[x] == h[x]
  {
  }

  /** Headers that are neither on the list nor block `bp` survive an operation on the list. */
  lemma LiveKept(h: Store, h': Store, base: int, ring: seq<int>, ring': seq<int>, live: seq<Blk>, brk: int, brk': int,
                 bp: int)
    requires RingOk(h, base, ring, brk) && LiveOk(h, base, ring, live, brk) && brk <= brk' && Stored(h', ring')
    requires forall x | x in h && x !in ring && x != bp :: x in h' && h'[x] == h[x]
    requires forall b | b in live :: b.addr != bp && ClearOf(h', ring', b)
    ensures LiveOk(h', base, ring', live, brk')
  {
    forall b | b in live
      ensures b.addr !in ring
    {
      forall i | 0 <= i < |ring|
        ensures ring[i] != b.addr
      {
        assert Apart(ring[i], h[ring[i]].size, b.addr, b.units);
      }
    }
  }

  /** The ring read past its end. */
  ghost function At(ring: seq<int>, i: nat): int
    requires i < 2 * |ring|
  {
    if i < |ring| then ring[i] else ring[i - |ring|]
  }

  /** The `m`-th element after `f` has fewer than `n` units. */
  ghost predicate SmallAt(h: Store, ring: seq<int>, f: nat, m: nat, n: nat) {
    f < |ring| && m < |ring| && At(ring, f + 1 + m) in h && h[At(ring, f + 1 + m)].size < n
  }

  ghost function IndexIn(ring: seq<int>, x: int): (i: nat)
    requires x in ring
    ensures i < |ring| && ring[i] == x
  {
    var i :| 0 <= i < |ring| && ring[i] == x;
    i
  }

  /** One block more in use, cut from a free block. */
  lemma LiveGrows(h: Store, h': Store, base: int, ring: seq<int>, r: seq<int>, live: seq<Blk>, brk: int, k: nat, b: Blk)
    requires RingOk(h, base, ring, brk) && LiveOk(h, base, ring, live, brk) && k < |ring| && Stored(h', r)
    requires ring[k] <= b.addr && b.addr + b.units == ring[k] + h[ring[k]].size && base < b.addr
    requires b.addr in h' && h'[b.addr].size == b.units > 0
    requires forall x | x in live :: x.addr in h' && h'[x.addr] == h[x.addr] && ClearOf(h', r, x)
    requires ClearOf(h', r, b)
    ensures LiveOk(h', base, r, live + [b], brk)
    ensures LiveUnits(live + [b]) == LiveUnits(live) + b.units
  {
    var all := live + [b];
    forall x | x in live
      ensures Apart(x.addr, x.units, b.addr, b.units)
    {
      assert Apart(ring[k], h[ring[k]].size, x.addr, x.units);
    }
    forall i, j | 0 <= i < j < |all|
      ensures Apart(all[i].addr, all[i].units, all[j].addr, all[j].units)
    {
      assert all[i] in live;
      assert j < |live| ==> all[j] == live[j];
    }
    assert all[..|live|] == live;
  }

  lemma LiveOffRing(h: Store, base: int, ring: seq<int>, live: seq<Blk>, brk: int, x: Blk)
    requires RingOk(h, base, ring, brk) && LiveOk(h, base, ring, live, brk) && x in live
    ensures x.addr !in ring && ClearOf(h, ring, x)
  {
    forall i | 0 <= i < |ring|
      ensures ring[i] != x.addr
    {
      assert Apart(ring[i], h[ring[i]].size, x.addr, x.units);
    }
  }

  lemma TakeWhole(h: Store, base: int, ring: seq<int>, brk: int, live: seq<Blk>, k: nat)
    requires RingOk(h, base, ring, brk) && LiveOk(h, base, ring, live, brk) && 0 < k < |ring|
    ensures var h', r, b := Unlinked(h, ring[k - 1], ring[k]), JoinAt(ring, k - 1), Blk(ring[k], h[ring[k]].size);
            && Stored(h', r) && RingOk(h', base, r, brk) && LiveOk(h', base, r, live + [b], brk) && ring[k - 1] in r
            && FreeUnits(h', r) + LiveUnits(live + [b]) == FreeUnits(h, ring) + LiveUnits(live)
  {
    var h', r, b := Unlinked(h, ring[k - 1], ring[k]), JoinAt(ring, k - 1), Blk(ring[k], h[ring[k]].size);
    UnlinkKeepsRing(h, base, ring, brk, k);
    UnlinkLinks(h, ring, k);
    UnlinkClear(h, h', ring, brk, k, b);
    assert r[k - 1] == ring[k - 1];
    hide JoinAt, FreeUnits, LiveUnits;
    forall x | x in live
      ensures x.addr in h' && h'[x.addr] == h[x.addr] && ClearOf(h', r, x)
    {
      LiveOffRing(h, base, ring, live, brk, x);
      UnlinkClear(h, h', ring, brk, k, x);
    }
    assert ring[k - 1] < ring[k];
    LiveGrows(h, h', base, ring, r, live, brk, k, b);
  }

  lemma TakeTail(h: Store, base: int, ring: seq<int>, brk: int, live: seq<Blk>, k: nat, n: nat)
    requires RingOk(h, base, ring, brk) && LiveOk(h, base, ring, live, brk) && 0 < k < |ring|
    requires 0 < n < h[ring[k]].size
    ensures var h', b := Split(h, ring[k], n), Blk(ring[k] + h[ring[k]].size - n, n);
            && Stored(h', ring) && RingOk(h', base, ring, brk) && LiveOk(h', base, ring, live + [b], brk)
            && FreeUnits(h', ring) + LiveUnits(live + [b]) == FreeUnits(h, ring) + LiveUnits(live)
  {
    var h', b := Split(h, ring[k], n), Blk(ring[k] + h[ring[k]].size - n, n);
    SplitKeepsRing(h, base, ring, brk, k, n);
    SplitClear(h, ring, brk, k, n, b);
    hide FreeUnits, LiveUnits;
    forall x | x in live
      ensures x.addr in h' && h'[x.addr] == h[x.addr] && ClearOf(h', ring, x)
    {
      LiveOffRing(h, base, ring, live, brk, x);
      SplitClear(h, ring, brk, k, n, x);
      assert Apart(ring[k], h[ring[k]].size, x.addr, x.units);
    }
    LiveGrows(h, h', base, ring, ring, live, brk, k, b);
  }

  lemma HasThis(h: Store, ring: seq<int>, k: nat, n: nat)
    requires Stored(h, ring) && k < |ring| && h[ring[k]].size >= n
    ensures HasBlock(h, ring, n)
  {
  }

  lemma HasSmaller(h: Store, ring: seq<int>, n: nat, m: nat)
    requires Stored(h, ring) && HasBlock(h, ring, n) && m <= n
    ensures HasBlock(h, ring, m)
  {
  }

  /** Memory above the old break overlaps nothing. */
  lemma CoreIsNew(h: Store, base: int, ring: seq<int>, live: seq<Blk>, brk: int, hp: int, n: nat)
    requires RingOk(h, base, ring, brk) && LiveOk(h, base, ring, live, brk) && base < brk <= hp && n > 0
    ensures var h' := h[hp := Header(0, n)];
            && Stored(h', ring) && RingOk(h', base, ring, hp + n) && LiveOk(h', base, ring, live, hp + n)
            && FreeUnits(h', ring) == FreeUnits(h, ring) && Freeable(base, h', ring, hp + n, hp)
            && forall b | b in live :: b.addr != hp && Apart(hp, n, b.addr, b.units)
  {
    var h' := h[hp := Header(0, n)];
    forall i | 0 <= i < |ring|
      ensures ring[i] != hp && h'[ring[i]] == h[ring[i]]
    {
    }
    forall i: nat | i < |ring|
      ensures LinkAt(h', ring, i)
    {
      assert LinkAt(h, ring, i);
    }
    FreeUnitsSame(h, h', ring);
  }

  /** The list is in order and freep is on it. */
  ghost predicate Listed(base: int, h: Store, freep: int, ring: seq<int>, brk: int) {
    freep != 0 && 0 < base < brk && Stored(h, ring) && RingOk(h, base, ring, brk) && freep in ring
  }

  /** The allocator's invariant; `freep` is 0 before the first malloc. */
  ghost predicate Sound(base: int, h: Store, freep: int, ring: seq<int>, live: seq<Blk>, brk: int, granted: nat) {
    if freep == 0 then 0 < base < brk && ring == [] && live == [] && granted == 0
    else
      && Listed(base, h, freep, ring, brk) && LiveOk(h, base, ring, live, brk)
      && FreeUnits(h, ring) + LiveUnits(live) == granted
  }

  /** A header in memory that overlaps no free block can be put on the list. */
  ghost predicate Freeable(base: int, h: Store, ring: seq<int>, brk: int, bp: int)
    requires Stored(h, ring)
  {
    base < bp && bp in h && h[bp].size > 0 && bp + h[bp].size <= brk && ClearOf(h, ring, Blk(bp, h[bp].size))
  }

  /** Where a block belongs in the list: after the last element below it. */
  ghost predicate Place(ring: seq<int>, t: nat, bp: int) {
    t < |ring| && ring[t] < bp && (t + 1 < |ring| ==> bp < ring[t + 1])
  }

  lemma PlaceExists(ring: seq<int>, bp: int, n: nat) returns (t: nat)
    requires 0 < n <= |ring| && ring[n - 1] < bp && bp !in ring
    ensures Place(ring, t, bp)
    decreases |ring| - n
  {
    if n < |ring| && ring[n] < bp {
      t := PlaceExists(ring, bp, n + 1);
    } else {
      t := n - 1;
    }
  }

  lemma FreeableIsNew(base: int, h: Store, ring: seq<int>, brk: int, bp: int)
    requires RingOk(h, base, ring, brk) && Freeable(base, h, ring, brk, bp)
    ensures bp !in ring
  {
    forall i | 0 <= i < |ring|
      ensures ring[i] != bp
    {
      assert Apart(ring[i], h[ring[i]].size, bp, h[bp].size);
    }
  }

  lemma FreeableFits(base: int, h: Store, ring: seq<int>, brk: int, t: nat, bp: int)
    requires RingOk(h, base, ring, brk) && Freeable(base, h, ring, brk, bp) && Place(ring, t, bp)
    ensures Between(h, ring, t, bp) && base <= ring[t]
  {
    assert Apart(ring[t], h[ring[t]].size, bp, h[bp].size);
    assert t + 1 < |ring| ==> Apart(ring[t + 1], h[ring[t + 1]].size, bp, h[bp].size);
  }

  /** A block in use can be freed, and the others are apart from it. */
  lemma LiveIsFreeable(base: int, h: Store, ring: seq<int>, live: seq<Blk>, brk: int, k: nat)
    requires RingOk(h, base, ring, brk) && LiveOk(h, base, ring, live, brk) && k < |live|
    ensures Freeable(base, h, ring, brk, live[k].addr) && h[live[k].addr].size == live[k].units
    ensures LiveOk(h, base, ring, Without(live, k), brk)
    ensures forall b | b in Without(live, k) :: Apart(live[k].addr, live[k].units, b.addr, b.units)
  {
    assert live[k] in live;
    LiveUnitsWithout(live, k);
    var rest := Without(live, k);
    hide Without;
    forall b | b in rest
      ensures Apart(live[k].addr, live[k].units, b.addr, b.units)
    {
      var i :| 0 <= i < |rest| && rest[i] == b;
      assert b == live[if i < k then i else i + 1];
    }
  }

  /** Following one link. */
  lemma StepRing(h: Store, base: int, ring: seq<int>, brk: int, i: nat)
    requires RingOk(h, base, ring, brk) && i < |ring|
    ensures Stored(h, ring) && h[ring[i]].ptr == At(ring, i + 1) && h[ring[i]].ptr in h
    ensures 0 < i ==> ring[i - 1] < ring[i]
    ensures base <= ring[i] && (h[ring[i]].size > 0 ==> i > 0)
  {
    assert LinkAt(h, ring, i);
  }

  /** A scan from the element after `f` that is back at `f` has seen every block; before that it has not. */
  lemma FullCircle(h: Store, base: int, ring: seq<int>, brk: int, f: nat, j: nat, n: nat)
    requires RingOk(h, base, ring, brk) && f < |ring| && j < |ring|
    requires forall m: nat | m <= j :: SmallAt(h, ring, f, m, n)
    ensures At(ring, f + 1 + j) == ring[f] ==> !HasBlock(h, ring, n)
    ensures At(ring, f + 1 + j) != ring[f] ==> j + 1 < |ring|
  {
    assert forall a, b | 0 <= a < b < |ring| :: ring[a] < ring[b];
    if At(ring, f + 1 + j) == ring[f] {
      forall g | 0 <= g < |ring|
        ensures h[ring[g]].size < n
      {
        var m := if g > f then g - f - 1 else g + |ring| - f - 1;
        assert SmallAt(h, ring, f, m, n);
      }
    }
  }

  /** The first malloc: a list of just the static header. */
  lemma FirstRing(h: Store, base: int, brk: int)
    requires 0 < base < brk && base in h && h[base] == Header(base, 0)
    ensures Sound(base, h, base, [base], [], brk, 0)
  {
    assert LinkAt(h, [base], 0);
    UnitsOfOne(h, base);
  }

  class Allocator {
    const base: int                   // address of the static header
    var h: Store
    var freep: int
    ghost var ring: seq<int>
    ghost var live: seq<Blk>          // blocks handed out and not freed
    ghost var brk: int                // everything sbrk returned lies below
    ghost var granted: nat            // units obtained from sbrk

    ghost predicate Valid()
      reads this
    {
      Sound(base, h, freep, ring, live, brk, granted)
    }

    constructor (base: int, brk: int)
      requires 0 < base < brk
      ensures Valid() && live == [] && granted == 0 && this.brk == brk && freep == 0
    {
      this.base, h, freep := base, map[], 0;
      ring, live, this.brk, granted := [], [], brk, 0;
    }

    /**
     free's search, from freep round the list. It stops at the one place where `bp` belongs, so it terminates
     from wherever it starts.
     */
    method FindPlace(bp: int) returns (p: int, ghost t: nat)
      requires Listed(base, h, freep, ring, brk) && base < bp && bp !in ring
      ensures Place(ring, t, bp) && p == ring[t]
    {
      t := PlaceExists(ring, bp, 1);
      ghost var i :| 0 <= i < |ring| && ring[i] == freep;
      p := freep;
      while !(bp > p && bp < h[p].ptr)
        invariant 0 <= i < |ring| && ring[i] == p
        decreases if i <= t then t - i else t - i + |ring|
      {
        assert LinkAt(h, ring, i);
        if p >= h[p].ptr && (bp > p || bp < h[p].ptr) {
          break;
        }
        assert i != t;
        p := h[p].ptr;
        i := if i + 1 < |ring| then i + 1 else 0;
      }
      assert LinkAt(h, ring, i);
      assert forall a, b | 0 <= a < b < |ring| :: ring[a] < ring[b];
    }

    /** free's four cases, by which neighbours the block touches. */
    method Join(p: int, bp: int)
      requires p in h && bp in h && h[p].ptr in h && p != bp
      modifies this`h
      ensures h == Merged(old(h), p, bp)
    {
      var q := h[p].ptr;
      if bp + h[bp].size == q {
        h := h[bp := Header(h[q].ptr, h[bp].size + h[q].size)];
      } else {
        h := h[bp := Header(q, h[bp].size)];
      }
      if p + h[p].size == bp {
        h := h[p := Header(h[bp].ptr, h[p].size + h[bp].size)];
      } else {
        h := h[p := Header(bp, h[p].size)];
      }
    }

    /** The body of free, for a block in use or one fresh from sbrk; the blocks `keep` stay in use. */
    method Link(bp: int, ghost keep: seq<Blk>)
      requires Listed(base, h, freep, ring, brk) && LiveOk(h, base, ring, keep, brk) && Freeable(base, h, ring, brk, bp)
      requires forall b | b in keep :: Apart(bp, h[bp].size, b.addr, b.units)
      modifies this`h, this`freep, this`ring
      ensures Listed(base, h, freep, ring, brk) && LiveOk(h, base, ring, keep, brk)
      ensures FreeUnits(h, ring) == old(FreeUnits(h, ring)) + old(h[bp].size)
      ensures HasBlock(h, ring, old(h[bp].size))
    {
      hide FreeUnits, ClearOf, Merged, LiveOk, RingOk, HasBlock;
      FreeableIsNew(base, h, ring, brk, bp);
      var p;
      ghost var t;
      p, t := FindPlace(bp);
      FreeableFits(base, h, ring, brk, t, bp);
      ghost var ring' := LinkedRing(h, base, ring, brk, t, bp, keep);
      Join(p, bp);
      freep := p;
      ring := ring';
    }

    /** free: block `k` of those in use goes back to the list, and no other block in use is touched. */
    method Free(ap: int, ghost k: nat)
      requires Valid() && k < |live| && live[k].addr == ap - 1
      modifies this`h, this`freep, this`ring, this`live
      ensures Valid() && live == Without(old(live), k) && freep != 0
    {
      hide RingOk, FreeUnits, LiveOk, HasBlock, Freeable;
      LiveIsFreeable(base, h, ring, live, brk, k);
      LiveUnitsWithout(live, k);
      Link(ap - 1, Without(live, k));
      live := Without(live, k);
    }

    /** morecore: `nu` units or more from sbrk, put on the list by free. */
    method Morecore(nu: nat, core: Sbrk) returns (p: int)
      requires Valid() && freep != 0 && nu > 0 && (core.Core? ==> core.addr >= brk)
      modifies this`h, this`freep, this`ring, this`brk, this`granted
      ensures Valid() && freep != 0
      ensures core.NoMemory? ==> p == 0 && unchanged(this)
      ensures core.Core? ==> p == freep && granted == old(granted) + CoreUnits(nu)
                             && brk == core.addr + CoreUnits(nu) && HasBlock(h, ring, nu)
    {
      hide RingOk, FreeUnits, LiveOk, HasBlock, Freeable, LiveUnits, CoreUnits;
      if core.NoMemory? {
        return 0;
      }
      var hp, n := core.addr, CoreUnits(nu);
      CoreIsNew(h, base, ring, live, brk, hp, n);
      h := h[hp := Header(0, n)];
      brk := hp + n;
      Link(hp, live);
      granted := granted + n;
      HasSmaller(h, ring, n, nu);
      return freep;
    }

    /** malloc's allocation from element `k`, whose predecessor is `prev`: all of it, or its tail. */
    method Take(prev: int, p: int, n: nat, ghost k: nat) returns (r: int)
      requires Valid() && freep != 0 && 0 < k < |ring| && prev == ring[k - 1] && p == ring[k]
      requires p in h && prev in h && 0 < n <= h[p].size
      modifies this`h, this`freep, this`ring, this`live
      ensures Valid() && freep != 0 && r != 0 && live == old(live) + [Blk(r - 1, n)]
    {
      hide RingOk, FreeUnits, LiveOk, LiveUnits;
      StepRing(h, base, ring, brk, k - 1);
      StepRing(h, base, ring, brk, k);
      if h[p].size == n {
        TakeWhole(h, base, ring, brk, live, k);
        h := Unlinked(h, prev, p);
        r := p + 1;
        ring := JoinAt(ring, k - 1);
      } else {
        TakeTail(h, base, ring, brk, live, k, n);
        r := p + h[p].size - n + 1;
        h := Split(h, p, n);
      }
      freep := prev;
      live := live + [Blk(r - 1, n)];
    }

    /**
     malloc. It fails only when sbrk does, having found no free block that is large enough; it asks sbrk at most
     once and only then; otherwise the new block lies inside the heap, apart from every other block in use. The block
     holds the bytes asked for unless their number wraps; a request that needs a negative sbrk is not served.
     */
    method Malloc(nbytes: nat, core: Sbrk) returns (r: int, ghost calls: nat)
      requires Valid() && nbytes < LIMIT && (core.Core? ==> core.addr >= brk)
      requires CoreUnits(Units(nbytes)) * UNIT < 0x8000_0000 || (freep != 0 && HasBlock(h, ring, Units(nbytes)))
      modifies this`h, this`freep, this`ring, this`live, this`brk, this`granted
      ensures Valid() && freep != 0 && calls <= 1
      ensures r == 0 ==> live == old(live) && core.NoMemory? && calls == 1
      ensures r != 0 ==> live == old(live) + [Blk(r - 1, Units(nbytes))]
      ensures nbytes <= (Units(nbytes) - 1) * UNIT <==> nbytes <= LIMIT - UNIT
      ensures calls == 1 ==> CoreUnits(Units(nbytes)) * UNIT < 0x8000_0000
      ensures granted == old(granted) + if calls == 1 && r != 0 then CoreUnits(Units(nbytes)) else 0
      ensures calls == 1 <==> old(freep == 0 || !HasBlock(h, ring, Units(nbytes)))
    {
      var n := Units(nbytes);
      if freep == 0 {
        freep := base;
        h := h[base := Header(base, 0)];
        ring := [base];
        FirstRing(h, base, brk);
      }
      r, calls := Allocate(n, core);
    }

    /** malloc's loop over the list. */
    method Allocate(n: nat, core: Sbrk) returns (r: int, ghost calls: nat)
      requires Valid() && freep != 0 && n > 0 && (core.Core? ==> core.addr >= brk) && Stored(h, ring)
      modifies this`h, this`freep, this`ring, this`live, this`brk, this`granted
      ensures Valid() && freep != 0 && calls <= 1
      ensures r == 0 ==> live == old(live) && core.NoMemory? && calls == 1
      ensures r != 0 ==> live == old(live) + [Blk(r - 1, n)]
      ensures granted == old(granted) + if calls == 1 && r != 0 then CoreUnits(n) else 0
      ensures calls == 1 <==> old(!HasBlock(h, ring, n))
    {
      hide RingOk, FreeUnits, LiveOk, LiveUnits, HasBlock;
      calls := 0;
      var prevp := freep;
      ghost var f: nat, j: nat := IndexIn(ring, freep), 0;
      StepRing(h, base, ring, brk, f);
      var p := h[prevp].ptr;
      while true
        invariant Valid() && freep != 0 && f < |ring| && ring[f] == freep && j < |ring|
        invariant prevp == At(ring, f + j) && p == At(ring, f + 1 + j) && p in h
        invariant forall m: nat | m < j :: SmallAt(h, ring, f, m, n)
        invariant calls <= 1 && live == old(live)
        invariant if calls == 1 then HasBlock(h, ring, n) && old(!HasBlock(h, ring, n)) && core.Core?
                  else h == old(h) && ring == old(ring) && brk == old(brk)
        invariant granted == old(granted) + if calls == 1 then CoreUnits(n) else 0
        decreases 1 - calls, |ring| - j
      {
        ghost var k: nat := if f + 1 + j < |ring| then f + 1 + j else f + 1 + j - |ring|;
        StepRing(h, base, ring, brk, k);
        if h[p].size >= n {
          HasThis(h, ring, k, n);
          r := Take(prevp, p, n, k);
          return;
        }
        assert SmallAt(h, ring, f, j, n);
        FullCircle(h, base, ring, brk, f, j, n);
        if p == freep {
          p := Morecore(n, core);
          calls := calls + 1;
          if p == 0 {
            return 0, calls;
          }
          f, j := IndexIn(ring, freep), 0;
          prevp := p;
          StepRing(h, base, ring, brk, f);
          p := h[p].ptr;
        } else {
          prevp := p;
          p := h[p].ptr;
          j := j + 1;
        }
      }
    }
  }
}
