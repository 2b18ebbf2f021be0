/**
 The free list of part1/umalloc.c: a circular list of headers, in address order from the static header `base`.
 Addresses count in units of sizeof(Header) = 8 bytes; a block of `u` units at `a` covers [a, a + u).
 */
module HeapRing {
  datatype Header = Header(ptr: int, size: nat)
  datatype Blk = Blk(addr: int, units: nat)
  type Store = map<int, Header>

  ghost function Next(ring: seq<int>, i: nat): int
    requires i < |ring|
  {
    if i + 1 < |ring| then ring[i + 1] else ring[0]
  }

  /** All elements are headers in memory. */
  ghost predicate Stored(h: Store, ring: seq<int>) {
    forall i | 0 <= i < |ring| :: ring[i] in h
  }

  ghost predicate LinkAt(h: Store, ring: seq<int>, i: nat)
    requires i < |ring| && Stored(h, ring)
  {
    h[ring[i]].ptr == Next(ring, i)
  }

  /** Every element points to the next one; the last points to the first. */
  ghost predicate Linked(h: Store, ring: seq<int>) {
    Stored(h, ring) && forall i: nat | i < |ring| :: LinkAt(h, ring, i)
  }

  /** Address order with one wrap point: no two free blocks overlap or touch, and all end below `brk`. */
  ghost predicate Spaced(h: Store, ring: seq<int>, brk: int)
    requires Stored(h, ring)
  {
    && (forall i, j | 0 <= i < j < |ring| :: ring[i] + h[ring[i]].size < ring[j])
    && (forall i | 0 <= i < |ring| :: ring[i] + h[ring[i]].size <= brk)
  }

  ghost predicate RingOk(h: Store, base: int, ring: seq<int>, brk: int) {
    && ring != [] && ring[0] == base && Linked(h, ring) && Spaced(h, ring, brk)
    && h[base].size == 0 && forall i | 1 <= i < |ring| :: h[ring[i]].size > 0
  }

  ghost predicate Apart(a: int, m: nat, b: int, n: nat) {
    a + m <= b || b + n <= a
  }

  /** Blocks in use: inside the heap, apart from one another and from every free block, headers intact. */
  ghost predicate LiveOk(h: Store, base: int, ring: seq<int>, live: seq<Blk>, brk: int)
    requires Stored(h, ring)
  {
    && (forall b | b in live ::
          b.addr in h && h[b.addr].size == b.units > 0 && base < b.addr && b.addr + b.units <= brk)
    && (forall i, j | 0 <= i < j < |live| :: Apart(live[i].addr, live[i].units, live[j].addr, live[j].units))
    && (forall b, i | b in live && 0 <= i < |ring| :: Apart(ring[i], h[ring[i]].size, b.addr, b.units))
  }

  ghost function FreeUnits(h: Store, ring: seq<int>): nat
    requires Stored(h, ring)
  {
    if ring == [] then 0 else FreeUnits(h, ring[..|ring| - 1]) + h[ring[|ring| - 1]].size
  }

  ghost function LiveUnits(live: seq<Blk>): nat {
    if live == [] then 0 else LiveUnits(live[..|live| - 1]) + live[|live| - 1].units
  }

  // ---- Sums ----

  lemma {:induction false} FreeUnitsConcat(h: Store, a: seq<int>, b: seq<int>)
    requires Stored(h, a) && Stored(h, b)
    ensures Stored(h, a + b)
    ensures FreeUnits(h, a + b) == FreeUnits(h, a) + FreeUnits(h, b)
  {
    if b == [] {
      assert a + b == a;
    } else {
      FreeUnitsConcat(h, a, b[..|b| - 1]);
      assert (a + b)[..|a + b| - 1] == a + b[..|b| - 1];
    }
  }

  lemma {:induction false} FreeUnitsSame(h: Store, h': Store, ring: seq<int>)
    requires Stored(h, ring) && Stored(h', ring)
    requires forall i | 0 <= i < |ring| :: h[ring[i]].size == h'[ring[i]].size
    ensures FreeUnits(h, ring) == FreeUnits(h', ring)
  {
    if ring != [] {
      FreeUnitsSame(h, h', ring[..|ring| - 1]);
    }
  }

  lemma {:induction false} LiveUnitsConcat(a: seq<Blk>, b: seq<Blk>)
    ensures LiveUnits(a + b) == LiveUnits(a) + LiveUnits(b)
  {
    if b == [] {
      assert a + b == a;
    } else {
      LiveUnitsConcat(a, b[..|b| - 1]);
      assert (a + b)[..|a + b| - 1] == a + b[..|b| - 1];
    }
  }

  /** Taking one block out of use. */
  ghost function Without(live: seq<Blk>, k: nat): seq<Blk>
    requires k < |live|
  {
    live[..k] + live[k + 1..]
  }

  lemma LiveUnitsWithout(live: seq<Blk>, k: nat)
    requires k < |live|
    ensures LiveUnits(Without(live, k)) == LiveUnits(live) - live[k].units
    ensures forall b | b in Without(live, k) :: b in live
    ensures forall i | 0 <= i < |live| - 1 :: Without(live, k)[i] == live[if i < k then i else i + 1]
  {
    assert live == live[..k] + ([live[k]] + live[k + 1..]);
    LiveUnitsConcat(live[..k], [live[k]] + live[k + 1..]);
    LiveUnitsConcat([live[k]], live[k + 1..]);
    LiveUnitsConcat(live[..k], live[k + 1..]);
    assert [live[k]][..0] == [];
  }

  // ---- free ----

  /** free's last lines: link block `bp` in after `p`, joining it to either neighbour that it touches. */
  function Merged(h: Store, p: int, bp: int): (r: Store)
    requires p in h && bp in h && h[p].ptr in h && p != bp
  {
    var q := h[p].ptr;
    var h1 := if bp + h[bp].size == q then h[bp := Header(h[q].ptr, h[bp].size + h[q].size)]
              else h[bp := Header(q, h[bp].size)];
    if p + h1[p].size == bp then h1[p := Header(h1[bp].ptr, h1[p].size + h1[bp].size)]
    else h1[p := Header(bp, h1[p].size)]
  }

  ghost predicate OrderAt(h: Store, ring: seq<int>, lo: int, hi: int, i: nat)
    requires Stored(h, ring) && i + 1 < |ring|
  {
    && ring[i] < ring[i + 1] && ring[i] + h[ring[i]].size <= ring[i + 1]
    && (i < lo || hi <= i ==> ring[i] + h[ring[i]].size < ring[i + 1])
  }

  /** Neighbours are in address order; those outside [lo, hi) do not touch. */
  ghost predicate Ordered(h: Store, ring: seq<int>, lo: int, hi: int)
    requires Stored(h, ring)
  {
    forall i: nat | i + 1 < |ring| :: OrderAt(h, ring, lo, hi, i)
  }

  lemma {:induction false} OrderedFar(h: Store, ring: seq<int>, lo: int, hi: int, i: nat, j: nat)
    requires Stored(h, ring) && Ordered(h, ring, lo, hi) && i < j < |ring|
    ensures ring[i] < ring[j] && ring[i] + h[ring[i]].size <= ring[j]
    ensures hi <= lo ==> ring[i] + h[ring[i]].size < ring[j]
  {
    assert OrderAt(h, ring, lo, hi, j - 1);
    if i + 1 < j {
      OrderedFar(h, ring, lo, hi, i, j - 1);
    }
  }

  /** A list in order with links and bounds; neighbours in [lo, hi) may touch. */
  ghost predicate Chain(h: Store, base: int, ring: seq<int>, brk: int, lo: int, hi: int) {
    && ring != [] && ring[0] == base && Linked(h, ring) && Ordered(h, ring, lo, hi)
    && (forall i | 0 <= i < |ring| :: ring[i] + h[ring[i]].size <= brk)
    && h[base].size == 0 && forall i | 1 <= i < |ring| :: h[ring[i]].size > 0
  }

  lemma ChainIsRing(h: Store, base: int, ring: seq<int>, brk: int)
    ensures Chain(h, base, ring, brk, 0, 0) <==> RingOk(h, base, ring, brk)
  {
    if Chain(h, base, ring, brk, 0, 0) {
      forall i, j | 0 <= i < j < |ring|
        ensures ring[i] + h[ring[i]].size < ring[j]
      {
        OrderedFar(h, ring, 0, 0, i, j);
      }
    }
  }

  /** Elements of a chain are different. */
  lemma ChainDistinct(h: Store, base: int, ring: seq<int>, brk: int, lo: int, hi: int)
    requires Chain(h, base, ring, brk, lo, hi)
    ensures forall i, j | 0 <= i < j < |ring| :: ring[i] < ring[j]
  {
    forall i, j | 0 <= i < j < |ring|
      ensures ring[i] < ring[j]
    {
      OrderedFar(h, ring, lo, hi, i, j);
    }
  }

  /** Block `bp` belongs between element `t` of the ring and the next one. */
  ghost predicate Between(h: Store, ring: seq<int>, t: nat, bp: int)
    requires Stored(h, ring)
  {
    && t < |ring| && bp in h && h[bp].size > 0
    && ring[t] < bp && ring[t] + h[ring[t]].size <= bp
    && (t + 1 < |ring| ==> bp < ring[t + 1] && bp + h[bp].size <= ring[t + 1])
  }

  ghost function Insert(h: Store, p: int, bp: int): Store
    requires p in h && bp in h
  {
    h[bp := Header(h[p].ptr, h[bp].size)][p := Header(bp, h[p].size)]
  }

  ghost function InsertAt(ring: seq<int>, t: nat, bp: int): (r: seq<int>)
    requires t < |ring|
    ensures |r| == |ring| + 1
    ensures forall i | 0 <= i < |r| :: r[i] == if i <= t then ring[i] else if i == t + 1 then bp else ring[i - 1]
  {
    ring[..t + 1] + [bp] + ring[t + 1..]
  }

  lemma UnitsOfOne(h: Store, x: int)
    requires x in h
    ensures FreeUnits(h, [x]) == h[x].size
  {
    assert [x][..0] == [];
  }

  lemma InsertUnits(h: Store, ring: seq<int>, t: nat, bp: int)
    requires t < |ring| && bp in h && Stored(h, ring)
    ensures FreeUnits(h, InsertAt(ring, t, bp)) == FreeUnits(h, ring) + h[bp].size
  {
    var a, b := ring[..t + 1], ring[t + 1..];
    assert ring == a + b && InsertAt(ring, t, bp) == a + [bp] + b;
    FreeUnitsConcat(h, a, [bp]);
    FreeUnitsConcat(h, a + [bp], b);
    FreeUnitsConcat(h, a, b);
    UnitsOfOne(h, bp);
  }

  lemma InsertLinks(h: Store, ring: seq<int>, t: nat, bp: int)
    requires t < |ring| && bp in h && Linked(h, ring) && bp !in ring
    requires forall i, j | 0 <= i < j < |ring| :: ring[i] != ring[j]
    ensures Linked(Insert(h, ring[t], bp), InsertAt(ring, t, bp))
    ensures forall x | x in h :: Insert(h, ring[t], bp)[x].size == h[x].size
  {
    var h', r := Insert(h, ring[t], bp), InsertAt(ring, t, bp);
    hide InsertAt;
    assert Stored(h', r);
    forall i: nat | i < |r|
      ensures LinkAt(h', r, i)
    {
      if i <= t {
        assert LinkAt(h, ring, i) && (i < t ==> ring[i] != ring[t]);
      } else if i > t + 1 {
        assert LinkAt(h, ring, i - 1) && ring[t] != ring[i - 1];
      } else {
        assert LinkAt(h, ring, t);
      }
    }
  }

  lemma InsertOrder(h: Store, ring: seq<int>, t: nat, bp: int)
    requires Stored(h, ring) && Ordered(h, ring, 0, 0) && Between(h, ring, t, bp)
    ensures Ordered(h, InsertAt(ring, t, bp), t, t + 2)
  {
    var r := InsertAt(ring, t, bp);
    hide InsertAt;
    assert Stored(h, r);
    var hi := t + 2;
    forall i: nat | i + 1 < |r|
      ensures OrderAt(h, r, t, hi, i)
    {
      assert i < t ==> OrderAt(h, ring, 0, 0, i);
      assert i > t + 1 ==> OrderAt(h, ring, 0, 0, i - 1);
    }
  }

  lemma OrderedSame(h: Store, h': Store, ring: seq<int>, lo: int, hi: int)
    requires Stored(h, ring) && Stored(h', ring)
    requires forall i | 0 <= i < |ring| :: h[ring[i]].size == h'[ring[i]].size
    requires Ordered(h, ring, lo, hi)
    ensures Ordered(h', ring, lo, hi)
  {
    forall i: nat | i + 1 < |ring|
      ensures OrderAt(h', ring, lo, hi, i)
    {
      assert OrderAt(h, ring, lo, hi, i);
    }
  }

  lemma InsertKeepsChain(h: Store, base: int, ring: seq<int>, brk: int, t: nat, bp: int)
    requires Chain(h, base, ring, brk, 0, 0) && Between(h, ring, t, bp) && bp + h[bp].size <= brk
    ensures Chain(Insert(h, ring[t], bp), base, InsertAt(ring, t, bp), brk, t, t + 2)
    ensures FreeUnits(Insert(h, ring[t], bp), InsertAt(ring, t, bp)) == FreeUnits(h, ring) + h[bp].size
  {
    var h', r := Insert(h, ring[t], bp), InsertAt(ring, t, bp);
    ChainDistinct(h, base, ring, brk, 0, 0);
    forall i | 0 <= i < |ring|
      ensures ring[i] != bp
    {
      assert i < t ==> ring[i] < ring[t];
      assert i > t + 1 ==> ring[t + 1] < ring[i];
    }
    InsertLinks(h, ring, t, bp);
    InsertOrder(h, ring, t, bp);
    OrderedSame(h, h', r, t, t + 2);
    InsertUnits(h, ring, t, bp);
    FreeUnitsSame(h, h', r);
    hide InsertAt, Linked, Ordered;
  }

  ghost function Join(h: Store, a: int, b: int): Store
    requires a in h && b in h
  {
    h[a := Header(h[b].ptr, h[a].size + h[b].size)]
  }

  ghost function JoinAt(ring: seq<int>, t: nat): (r: seq<int>)
    requires t + 1 < |ring|
    ensures |r| == |ring| - 1
    ensures forall i | 0 <= i < |r| :: r[i] == ring[if i <= t then i else i + 1]
  {
    ring[..t + 1] + ring[t + 2..]
  }

  lemma JoinUnits(h: Store, ring: seq<int>, t: nat)
    requires t + 1 < |ring| && Stored(h, ring)
    requires forall i, j | 0 <= i < j < |ring| :: ring[i] != ring[j]
    ensures FreeUnits(Join(h, ring[t], ring[t + 1]), JoinAt(ring, t)) == FreeUnits(h, ring)
  {
    var h' := Join(h, ring[t], ring[t + 1]);
    var a, b := ring[..t], ring[t + 2..];
    var x, y := [ring[t]], [ring[t + 1]];
    assert ring == a + x + y + b && JoinAt(ring, t) == a + x + b;
    FreeUnitsConcat(h, a, x);
    FreeUnitsConcat(h, a + x, y);
    FreeUnitsConcat(h, a + x + y, b);
    FreeUnitsConcat(h', a, x);
    FreeUnitsConcat(h', a + x, b);
    FreeUnitsSame(h, h', a);
    FreeUnitsSame(h, h', b);
    UnitsOfOne(h, ring[t]);
    UnitsOfOne(h, ring[t + 1]);
    UnitsOfOne(h', ring[t]);
  }

  lemma JoinLinks(h: Store, ring: seq<int>, t: nat)
    requires t + 1 < |ring| && Linked(h, ring) && forall i, j | 0 <= i < j < |ring| :: ring[i] != ring[j]
    ensures Linked(Join(h, ring[t], ring[t + 1]), JoinAt(ring, t))
  {
    var h', r := Join(h, ring[t], ring[t + 1]), JoinAt(ring, t);
    hide JoinAt;
    assert Stored(h', r);
    forall i: nat | i < |r|
      ensures LinkAt(h', r, i)
    {
      if i < t {
        assert LinkAt(h, ring, i) && ring[i] != ring[t];
      } else {
        assert LinkAt(h, ring, i + 1) && (i > t ==> ring[t] != ring[i + 1]);
      }
    }
  }

  lemma JoinOrder(h: Store, ring: seq<int>, t: nat, lo: int)
    requires t + 1 < |ring| && Stored(h, ring) && Ordered(h, ring, lo, t + 1) && lo <= t
    requires ring[t] + h[ring[t]].size == ring[t + 1] && forall i, j | 0 <= i < j < |ring| :: ring[i] != ring[j]
    ensures Ordered(Join(h, ring[t], ring[t + 1]), JoinAt(ring, t), lo, t)
  {
    var h', r := Join(h, ring[t], ring[t + 1]), JoinAt(ring, t);
    hide JoinAt;
    assert Stored(h', r);
    forall i: nat | i + 1 < |r|
      ensures OrderAt(h', r, lo, t, i)
    {
      if i < t {
        assert OrderAt(h, ring, lo, t + 1, i) && ring[i] != ring[t];
      } else {
        assert OrderAt(h, ring, lo, t + 1, i + 1) && (i > t ==> ring[t] != ring[i + 1]);
      }
    }
  }

  /** Element `t` swallows the next one, which it touches. */
  lemma JoinKeepsChain(h: Store, base: int, ring: seq<int>, brk: int, t: nat, lo: int)
    requires 0 < t && t + 1 < |ring| && Chain(h, base, ring, brk, lo, t + 1) && lo <= t
    requires ring[t] + h[ring[t]].size == ring[t + 1]
    ensures Chain(Join(h, ring[t], ring[t + 1]), base, JoinAt(ring, t), brk, lo, t)
    ensures FreeUnits(Join(h, ring[t], ring[t + 1]), JoinAt(ring, t)) == FreeUnits(h, ring)
  {
    ChainDistinct(h, base, ring, brk, lo, t + 1);
    JoinLinks(h, ring, t);
    JoinOrder(h, ring, t, lo);
    JoinUnits(h, ring, t);
    hide JoinAt, Linked, Ordered, FreeUnits;
  }

  /** Block `b` overlaps no free block. */
  ghost predicate ClearOf(h: Store, ring: seq<int>, b: Blk)
    requires Stored(h, ring)
  {
    forall i | 0 <= i < |ring| :: Apart(ring[i], h[ring[i]].size, b.addr, b.units)
  }

  /** Some free block has at least `n` units. */
  ghost predicate HasBlock(h: Store, ring: seq<int>, n: nat)
    requires Stored(h, ring)
  {
    exists g | 0 <= g < |ring| :: h[ring[g]].size >= n
  }

  lemma InsertClear(h: Store, ring: seq<int>, t: nat, bp: int, b: Blk)
    requires Linked(h, ring) && t < |ring| && bp in h && bp !in ring && ClearOf(h, ring, b)
    requires forall i, j | 0 <= i < j < |ring| :: ring[i] != ring[j]
    requires Apart(bp, h[bp].size, b.addr, b.units)
    ensures Linked(Insert(h, ring[t], bp), InsertAt(ring, t, bp))
    ensures ClearOf(Insert(h, ring[t], bp), InsertAt(ring, t, bp), b)
  {
    InsertLinks(h, ring, t, bp);
    hide InsertAt;
  }

  lemma JoinClear(h: Store, ring: seq<int>, t: nat, b: Blk)
    requires Linked(h, ring) && t + 1 < |ring| && ClearOf(h, ring, b) && b.units > 0
    requires forall i, j | 0 <= i < j < |ring| :: ring[i] != ring[j]
    requires ring[t] + h[ring[t]].size == ring[t + 1]
    ensures Linked(Join(h, ring[t], ring[t + 1]), JoinAt(ring, t))
    ensures ClearOf(Join(h, ring[t], ring[t + 1]), JoinAt(ring, t), b)
  {
    JoinLinks(h, ring, t);
    hide JoinAt;
    var h', r := Join(h, ring[t], ring[t + 1]), JoinAt(ring, t);
    forall i | 0 <= i < |r|
      ensures Apart(r[i], h'[r[i]].size, b.addr, b.units)
    {
      assert i < t ==> ring[i] != ring[t];
      assert i > t ==> ring[t] != ring[i + 1];
    }
  }

  /** Elements of a chain differ, and `bp` is none of them. */
  lemma BetweenIsNew(h: Store, base: int, ring: seq<int>, brk: int, t: nat, bp: int)
    requires Chain(h, base, ring, brk, 0, 0) && Between(h, ring, t, bp)
    ensures bp !in ring && forall i, j | 0 <= i < j < |ring| :: ring[i] < ring[j]
  {
    ChainDistinct(h, base, ring, brk, 0, 0);
    forall i | 0 <= i < |ring|
      ensures ring[i] != bp
    {
      assert i < t ==> ring[i] < ring[t];
      assert i > t + 1 ==> ring[t + 1] < ring[i];
    }
  }

  /** `Chain` with every pair of neighbours apart. */
  lemma ChainApart(h: Store, base: int, ring: seq<int>, brk: int, t: int)
    requires Chain(h, base, ring, brk, t, t)
    ensures RingOk(h, base, ring, brk)
  {
    forall i: nat | i + 1 < |ring|
      ensures OrderAt(h, ring, 0, 0, i)
    {
      assert OrderAt(h, ring, t, t, i);
    }
    ChainIsRing(h, base, ring, brk);
  }

  /** Narrowing the range of neighbours that may touch, when the ones left out do not. */
  lemma ChainNarrow(h: Store, base: int, ring: seq<int>, brk: int, lo: int, hi: int)
    requires Chain(h, base, ring, brk, lo, hi) && 0 <= lo < hi
    requires hi < |ring| ==> ring[hi - 1] + h[ring[hi - 1]].size != ring[hi]
    ensures Chain(h, base, ring, brk, lo, hi - 1)
  {
    var hi' := hi - 1;
    forall i: nat | i + 1 < |ring|
      ensures OrderAt(h, ring, lo, hi', i)
    {
      assert OrderAt(h, ring, lo, hi, i);
    }
  }

  /** Whether element `t` touches the one after it. */
  ghost predicate Touches(h: Store, ring: seq<int>, t: nat)
    requires Stored(h, ring)
  {
    t + 1 < |ring| && ring[t] + h[ring[t]].size == ring[t + 1]
  }

  /** Join element `t` to the next one if they touch. */
  ghost function Settle(h: Store, ring: seq<int>, t: nat): (Store, seq<int>)
    requires Stored(h, ring)
  {
    if Touches(h, ring, t) then (Join(h, ring[t], ring[t + 1]), JoinAt(ring, t)) else (h, ring)
  }

  lemma SettleKeepsChain(h: Store, base: int, ring: seq<int>, brk: int, t: nat, lo: int)
    requires t < |ring| && Chain(h, base, ring, brk, lo, t + 1) && 0 <= lo <= t
    ensures var (h', r) := Settle(h, ring, t);
            && Chain(h', base, r, brk, lo, t) && FreeUnits(h', r) == FreeUnits(h, ring)
            && t < |r| <= |ring| && (forall i | 0 <= i <= t :: r[i] == ring[i])
            && h'.Keys == h.Keys && (forall x | x in h :: h'[x].size >= h[x].size)
            && (forall i | 0 <= i < t :: h'[ring[i]] == h[ring[i]])
            && forall b: Blk | b.units > 0 && ClearOf(h, ring, b) :: ClearOf(h', r, b)
  {
    ChainDistinct(h, base, ring, brk, lo, t + 1);
    if Touches(h, ring, t) {
      assert ring[0] < ring[t + 1];
      JoinKeepsChain(h, base, ring, brk, t, lo);
      hide JoinAt, Ordered, FreeUnits;
      forall b: Blk | b.units > 0 && ClearOf(h, ring, b)
        ensures ClearOf(Join(h, ring[t], ring[t + 1]), JoinAt(ring, t), b)
      {
        JoinClear(h, ring, t, b);
      }
    } else {
      ChainNarrow(h, base, ring, brk, lo, t + 1);
    }
  }

  /** The list and the headers that free leaves: insert, then join upwards, then downwards. */
  ghost function Freed(h: Store, ring: seq<int>, t: nat, bp: int): (Store, seq<int>)
    requires Stored(h, ring) && t < |ring| && bp in h
  {
    var h1, r1 := Insert(h, ring[t], bp), InsertAt(ring, t, bp);
    var (h2, r2) := Settle(h1, r1, t + 1);
    if Stored(h2, r2) then Settle(h2, r2, t) else (h2, r2)
  }

  /**
   free's linking: the list stays a ring in address order without overlapping or touching blocks, holds exactly
   the freed units more, still contains the predecessor (the new freep), keeps clear of every block in use, and has
   an element at least as large as the freed block.
   */
  lemma FreedIsRing(h: Store, base: int, ring: seq<int>, brk: int, t: nat, bp: int)
    requires RingOk(h, base, ring, brk) && Between(h, ring, t, bp) && bp + h[bp].size <= brk
    ensures var (h', r) := Freed(h, ring, t, bp);
            && RingOk(h', base, r, brk) && FreeUnits(h', r) == FreeUnits(h, ring) + h[bp].size
            && t < |r| && r[t] == ring[t]
            && HasBlock(h', r, h[bp].size)
            && (forall b: Blk | b.units > 0 && ClearOf(h, ring, b) && Apart(bp, h[bp].size, b.addr, b.units) ::
                  ClearOf(h', r, b))
  {
    ChainIsRing(h, base, ring, brk);
    BetweenIsNew(h, base, ring, brk, t, bp);
    var h1, r1 := Insert(h, ring[t], bp), InsertAt(ring, t, bp);
    InsertKeepsChain(h, base, ring, brk, t, bp);
    SettleKeepsChain(h1, base, r1, brk, t + 1, t);
    var (h2, r2) := Settle(h1, r1, t + 1);
    SettleKeepsChain(h2, base, r2, brk, t, t);
    var (h3, r3) := Settle(h2, r2, t);
    ChainApart(h3, base, r3, brk, t);
    FreedHasRoom(h2, base, r2, brk, t, bp, h[bp].size);
    forall b: Blk | b.units > 0 && ClearOf(h, ring, b) && Apart(bp, h[bp].size, b.addr, b.units)
      ensures ClearOf(h3, r3, b)
    {
      InsertClear(h, ring, t, bp, b);
      assert ClearOf(h1, r1, b);
      assert ClearOf(h2, r2, b);
    }
  }

  lemma FreedHasRoom(h: Store, base: int, ring: seq<int>, brk: int, t: nat, bp: int, u: nat)
    requires Chain(h, base, ring, brk, t, t + 1) && t + 1 < |ring| && ring[t + 1] == bp && h[bp].size >= u
    ensures var (h', r) := Settle(h, ring, t);
            Stored(h', r) && HasBlock(h', r, u)
  {
    SettleKeepsChain(h, base, ring, brk, t, t);
    var (h', r) := Settle(h, ring, t);
    var g := if Touches(h, ring, t) then t else t + 1;
    assert h'[r[g]].size >= u;
  }

  /** The code's assignments are these steps. */
  lemma MergedIsFreed(h: Store, base: int, ring: seq<int>, brk: int, t: nat, bp: int)
    requires RingOk(h, base, ring, brk) && Between(h, ring, t, bp) && base < bp && bp + h[bp].size <= brk
    ensures h[ring[t]].ptr in h && ring[t] != bp
    ensures Merged(h, ring[t], bp) == Freed(h, ring, t, bp).0
  {
    hide FreeUnits, Ordered, Spaced, ClearOf;
    ChainIsRing(h, base, ring, brk);
    BetweenIsNew(h, base, ring, brk, t, bp);
    assert LinkAt(h, ring, t);
    var p, q := ring[t], h[ring[t]].ptr;
    var h1, r1 := Insert(h, p, bp), InsertAt(ring, t, bp);
    InsertLinks(h, ring, t, bp);
    assert r1[t] == p && r1[t + 1] == bp;
    assert Touches(h1, r1, t + 1) <==> bp + h[bp].size == q;
    assert Touches(h1, r1, t + 1) ==> r1[t + 2] == q && q != p && q != bp;
    var (h2, r2) := Settle(h1, r1, t + 1);
    assert r2[t] == p && r2[t + 1] == bp;
    assert Stored(h2, r2);
    assert Touches(h2, r2, t) <==> p + h[p].size == bp;
  }

  // ---- malloc ----

  /** malloc's exact fit: unlink element `k`. */
  function Unlinked(h: Store, prev: int, p: int): (r: Store)
    requires prev in h && p in h
  {
    h[prev := Header(h[p].ptr, h[prev].size)]
  }

  lemma UnlinkKeepsRing(h: Store, base: int, ring: seq<int>, brk: int, k: nat)
    requires RingOk(h, base, ring, brk) && 0 < k < |ring|
    ensures var h', r := Unlinked(h, ring[k - 1], ring[k]), JoinAt(ring, k - 1);
            && RingOk(h', base, r, brk) && FreeUnits(h', r) == FreeUnits(h, ring) - h[ring[k]].size
            && r[k - 1] == ring[k - 1]
  {
    var h', r := Unlinked(h, ring[k - 1], ring[k]), JoinAt(ring, k - 1);
    UnlinkLinks(h, ring, k);
    UnlinkUnits(h, ring, k);
    FreeUnitsSame(h, h', r);
    UnlinkSpaced(h, h', ring, brk, k);
    hide JoinAt, FreeUnits, Linked, Spaced;
  }

  lemma UnlinkSpaced(h: Store, h': Store, ring: seq<int>, brk: int, k: nat)
    requires Stored(h, ring) && Spaced(h, ring, brk) && 0 < k < |ring|
    requires forall x | x in h :: x in h' && h'[x].size == h[x].size
    ensures Stored(h', JoinAt(ring, k - 1)) && Spaced(h', JoinAt(ring, k - 1), brk)
  {
    var r := JoinAt(ring, k - 1);
    hide JoinAt;
    forall i, j | 0 <= i < j < |r|
      ensures r[i] + h'[r[i]].size < r[j]
    {
      var i', j' := if i <= k - 1 then i else i + 1, if j <= k - 1 then j else j + 1;
      assert r[i] == ring[i'] && r[j] == ring[j'] && i' < j';
    }
  }

  /** What was clear of the list stays clear, and so is the block taken out. */
  lemma UnlinkClear(h: Store, h': Store, ring: seq<int>, brk: int, k: nat, b: Blk)
    requires Stored(h, ring) && Spaced(h, ring, brk) && 0 < k < |ring|
    requires forall x | x in h :: x in h' && h'[x].size == h[x].size
    requires ClearOf(h, ring, b) || b == Blk(ring[k], h[ring[k]].size)
    ensures Stored(h', JoinAt(ring, k - 1)) && ClearOf(h', JoinAt(ring, k - 1), b)
  {
    var r := JoinAt(ring, k - 1);
    hide JoinAt;
    forall i | 0 <= i < |r|
      ensures r[i] in h' && Apart(r[i], h'[r[i]].size, b.addr, b.units)
    {
      var i' := if i <= k - 1 then i else i + 1;
      assert r[i] == ring[i'];
      assert if i' < k then ring[i'] + h[ring[i']].size < ring[k] else ring[k] + h[ring[k]].size < ring[i'];
    }
  }

  lemma UnlinkLinks(h: Store, ring: seq<int>, k: nat)
    requires Linked(h, ring) && 0 < k < |ring| && forall i, j | 0 <= i < j < |ring| :: ring[i] < ring[j]
    ensures var h', r := Unlinked(h, ring[k - 1], ring[k]), JoinAt(ring, k - 1);
            Linked(h', r) && forall x | x in h :: x in h' && h'[x].size == h[x].size
  {
    var h', r := Unlinked(h, ring[k - 1], ring[k]), JoinAt(ring, k - 1);
    hide JoinAt;
    assert Stored(h', r);
    forall i: nat | i < |r|
      ensures LinkAt(h', r, i)
    {
      if i < k - 1 {
        assert LinkAt(h, ring, i) && ring[i] < ring[k - 1];
      } else {
        assert LinkAt(h, ring, i + 1) && (i > k - 1 ==> ring[k - 1] < ring[i + 1]);
      }
    }
  }

  lemma UnlinkUnits(h: Store, ring: seq<int>, k: nat)
    requires Stored(h, ring) && 0 < k < |ring|
    ensures FreeUnits(h, JoinAt(ring, k - 1)) == FreeUnits(h, ring) - h[ring[k]].size
  {
    var a, x, b := ring[..k], [ring[k]], ring[k + 1..];
    assert ring == a + x + b && JoinAt(ring, k - 1) == a + b;
    FreeUnitsConcat(h, a, x);
    FreeUnitsConcat(h, a + x, b);
    FreeUnitsConcat(h, a, b);
    UnitsOfOne(h, ring[k]);
  }

  /** malloc's split: the tail of block `p` becomes a block of `n` units. */
  function Split(h: Store, p: int, n: nat): (r: Store)
    requires p in h && n < h[p].size
  {
    h[p := Header(h[p].ptr, h[p].size - n)][p + h[p].size - n := Header(0, n)]
  }

  lemma SplitKeepsRing(h: Store, base: int, ring: seq<int>, brk: int, k: nat, n: nat)
    requires RingOk(h, base, ring, brk) && 0 < k < |ring| && 0 < n < h[ring[k]].size
    ensures var h' := Split(h, ring[k], n);
            RingOk(h', base, ring, brk) && FreeUnits(h', ring) == FreeUnits(h, ring) - n
  {
    var h' := Split(h, ring[k], n);
    SplitFrame(h, ring, brk, k, n);
    SplitUnits(h, h', ring, k, n);
    hide FreeUnits;
    forall i: nat | i < |ring|
      ensures LinkAt(h', ring, i)
    {
      assert LinkAt(h, ring, i);
    }
  }

  lemma SplitFrame(h: Store, ring: seq<int>, brk: int, k: nat, n: nat)
    requires Stored(h, ring) && Spaced(h, ring, brk) && k < |ring| && 0 < n < h[ring[k]].size
    ensures var h', a := Split(h, ring[k], n), ring[k] + h[ring[k]].size - n;
            && Stored(h', ring) && a !in ring
            && forall i | 0 <= i < |ring| && i != k :: h'[ring[i]] == h[ring[i]]
  {
    var a := ring[k] + h[ring[k]].size - n;
    forall i | 0 <= i < |ring|
      ensures ring[i] != a && (i != k ==> ring[i] != ring[k])
    {
      assert i < k ==> ring[i] + h[ring[i]].size < ring[k];
      assert i > k ==> ring[k] + h[ring[k]].size < ring[i];
    }
  }

  /** What was clear of the list stays clear, and so is the block cut off. */
  lemma SplitClear(h: Store, ring: seq<int>, brk: int, k: nat, n: nat, b: Blk)
    requires Stored(h, ring) && Spaced(h, ring, brk) && k < |ring| && 0 < n < h[ring[k]].size
    requires ClearOf(h, ring, b) || b == Blk(ring[k] + h[ring[k]].size - n, n)
    ensures Stored(Split(h, ring[k], n), ring) && ClearOf(Split(h, ring[k], n), ring, b)
  {
    SplitFrame(h, ring, brk, k, n);
    var h' := Split(h, ring[k], n);
    forall i | 0 <= i < |ring|
      ensures Apart(ring[i], h'[ring[i]].size, b.addr, b.units)
    {
      assert i < k ==> ring[i] + h[ring[i]].size < ring[k];
      assert i > k ==> ring[k] + h[ring[k]].size < ring[i];
    }
  }

  lemma SplitUnits(h: Store, h': Store, ring: seq<int>, k: nat, n: nat)
    requires Stored(h, ring) && Stored(h', ring) && k < |ring| && h'[ring[k]].size == h[ring[k]].size - n
    requires forall i | 0 <= i < |ring| && i != k :: h'[ring[i]].size == h[ring[i]].size
    ensures FreeUnits(h', ring) == FreeUnits(h, ring) - n
  {
    var a, x, b := ring[..k], [ring[k]], ring[k + 1..];
    assert ring == a + x + b;
    FreeUnitsConcat(h, a, x);
    FreeUnitsConcat(h, a + x, b);
    FreeUnitsConcat(h', a, x);
    FreeUnitsConcat(h', a + x, b);
    FreeUnitsSame(h, h', a);
    FreeUnitsSame(h, h', b);
    UnitsOfOne(h, ring[k]);
    UnitsOfOne(h', ring[k]);
  }
}
