/** The free bitmap of part1/fs.c: bit `b % BPB` of bitmap block `b / BPB` says whether block `b` is in use. */
module Bitmap {
  import opened Blocks

  const BPB: nat := 4096                   // bits in a block

  type Bit = d: int | 0 <= d < 2

  /** `(x >> k) & 1`. */
  function BitOf(x: nat, k: nat): (d: Bit) {
    if k == 0 then x % 2 else BitOf(x / 2, k - 1)
  }

  /** `x` with bit `k` set to `v`: `x | (1 << k)` or `x & ~(1 << k)`. */
  function WithBit(x: nat, k: nat, v: Bit): (r: nat) {
    if k == 0 then x / 2 * 2 + v else WithBit(x / 2, k - 1, v) * 2 + x % 2
  }

  function Pow2(n: nat): (p: nat) {
    if n == 0 then 1 else 2 * Pow2(n - 1)
  }

  /** That is the binary digit of weight 2^k. */
  lemma {:induction false} BitIsDigit(x: nat, k: nat)
    ensures Pow2(k) > 0 && BitOf(x, k) == x / Pow2(k) % 2
  {
    if k > 0 {
      BitIsDigit(x / 2, k - 1);
      DivDiv(x, Pow2(k - 1));
    }
  }

  lemma DivDiv(x: nat, p: nat)
    requires p > 0
    ensures x / 2 / p == x / (2 * p)
  {
    var q, r := x / 2 / p, x / 2 % p;
    assert x / 2 == p * q + r;
    assert (2 * p) * q == 2 * (p * q);
    QuotientIs(x, 2 * p, q, 2 * r + x % 2);
  }

  lemma QuotientIs(x: nat, d: nat, q: nat, r: nat)
    requires d > 0 && r < d && x == d * q + r
    ensures x / d == q
  {
    var q', r' := x / d, x % d;
    assert x == d * q' + r';
    if q' > q {
      Further(d, q, q');
    } else if q' < q {
      Further(d, q', q);
    }
  }

  lemma Further(d: nat, a: nat, b: nat)
    requires a < b
    ensures d * a + d <= d * b
  {
    assert d * b == d * a + d + d * (b - a - 1);
  }

  lemma {:induction false} BitAfterWithBit(x: nat, k: nat, v: Bit, j: nat)
    ensures BitOf(WithBit(x, k, v), j) == if j == k then v else BitOf(x, j)
  {
    if 0 < k && 0 < j {
      BitAfterWithBit(x / 2, k - 1, v, j - 1);
    }
  }

  lemma {:induction false} WithBitFits(x: nat, k: nat, v: Bit, n: nat)
    requires k < n && x < Pow2(n)
    ensures WithBit(x, k, v) < Pow2(n)
  {
    if 0 < k {
      WithBitFits(x / 2, k - 1, v, n - 1);
    }
  }

  function ByteWithBit(x: Byte, k: nat, v: Bit): (r: Byte)
    requires k < 8
  {
    WithBitFits(x, k, v, 8);
    assert Pow2(8) == 256;
    WithBit(x, k, v)
  }

  predicate Marked(blk: Block, bi: nat)
    requires bi < BPB
  {
    BitOf(blk[bi / 8], bi % 8) == 1
  }

  /** `data[bi/8] |= m` for true, `data[bi/8] &= ~m` for false. */
  function Mark(blk: Block, bi: nat, v: bool): (r: Block)
    requires bi < BPB
  {
    blk[bi / 8 := ByteWithBit(blk[bi / 8], bi % 8, if v then 1 else 0)]
  }

  lemma MarkedAfterMark(blk: Block, bi: nat, v: bool, j: nat)
    requires bi < BPB && j < BPB
    ensures Marked(Mark(blk, bi, v), j) == if j == bi then v else Marked(blk, j)
  {
    BitAfterWithBit(blk[bi / 8], bi % 8, if v then 1 else 0, j % 8);
    hide BitOf, WithBit;
  }

  /** The first `size` bits of the bitmap. */
  ghost function Bits(bitmap: seq<Block>, size: nat): (used: seq<bool>)
    ensures |used| == size
    ensures forall b | 0 <= b < size && b / BPB < |bitmap| :: used[b] == Marked(bitmap[b / BPB], b % BPB)
  {
    seq(size, b requires 0 <= b < size => b / BPB < |bitmap| && Marked(bitmap[b / BPB], b % BPB))
  }

  lemma BitsAfterMark(bitmap: seq<Block>, size: nat, b: nat, v: bool)
    requires b < size <= |bitmap| * BPB
    ensures var c := b / BPB;
            Bits(bitmap[c := Mark(bitmap[c], b % BPB, v)], size) == Bits(bitmap, size)[b := v]
  {
    forall d: nat | d < size && d / BPB == b / BPB
      ensures Marked(Mark(bitmap[b / BPB], b % BPB, v), d % BPB)
              == if d == b then v else Marked(bitmap[b / BPB], d % BPB)
    {
      MarkedAfterMark(bitmap[b / BPB], b % BPB, v, d % BPB);
    }
    hide Marked, Mark;
  }

  /** How many blocks are free. */
  ghost function FreeCount(used: seq<bool>): (n: nat) {
    if used == [] then 0 else FreeCount(used[..|used| - 1]) + if used[|used| - 1] then 0 else 1
  }

  lemma {:induction false} FreeCountAfter(used: seq<bool>, b: nat, v: bool)
    requires b < |used| && used[b] != v
    ensures FreeCount(used[b := v]) == FreeCount(used) + if v then -1 else 1
  {
    var n := |used| - 1;
    if b < n {
      FreeCountAfter(used[..n], b, v);
      assert used[b := v][..n] == used[..n][b := v];
    } else {
      assert used[b := v][..n] == used[..n];
    }
  }

  /** There is a free block exactly when the count is not 0. */
  lemma {:induction false} FullMeansNoneFree(used: seq<bool>)
    ensures FreeCount(used) == 0 <==> forall b | 0 <= b < |used| :: used[b]
  {
    if used != [] {
      FullMeansNoneFree(used[..|used| - 1]);
    }
  }
}
