/** The ring of part1/pipe.c as a value: 512 bytes and two 32-bit counters that wrap around. */
module PipeRing {
  import opened Blocks

  const PIPESIZE := 512

  datatype Pipe = Pipe(data: seq<Byte>, nread: Word, nwrite: Word, readopen: bool, writeopen: bool)

  function Next(c: Word): (r: Word) {
    (c + 1) % WORD_LIMIT
  }

  /** `nwrite == nread + PIPESIZE`, in 32 bits. */
  predicate Full(p: Pipe) {
    p.nwrite == (p.nread + PIPESIZE) % WORD_LIMIT
  }

  predicate Empty(p: Pipe) {
    p.nread == p.nwrite
  }

  /** `data[nwrite++ % PIPESIZE] = b`. */
  function Store(p: Pipe, b: Byte): (r: Pipe)
    requires |p.data| == PIPESIZE
  {
    p.(data := p.data[p.nwrite % PIPESIZE := b], nwrite := Next(p.nwrite))
  }

  /** pipewrite's loop from byte `i` until all is stored or the ring is full: the ring and the new `i`. */
  function Fill(p: Pipe, addr: seq<Byte>, i: nat): (r: (Pipe, nat))
    requires |p.data| == PIPESIZE && i <= |addr|
    ensures |r.0.data| == PIPESIZE && i <= r.1 <= |addr| && (r.1 < |addr| ==> Full(r.0))
    decreases |addr| - i
  {
    if i == |addr| || Full(p) then (p, i) else Fill(Store(p, addr[i]), addr, i + 1)
  }

  /** piperead's copy loop for up to `n` bytes: the ring and the bytes. */
  function Drain(p: Pipe, n: nat): (r: (Pipe, seq<Byte>))
    requires |p.data| == PIPESIZE
    ensures |r.0.data| == PIPESIZE && |r.1| <= n
    decreases n
  {
    if n == 0 || Empty(p) then (p, [])
    else
      var r := Drain(p.(nread := Next(p.nread)), n - 1);
      (r.0, [p.data[p.nread % PIPESIZE]] + r.1)
  }

  /** The ring of a pipe into which `sent` was written and from which `received` was read. */
  ghost predicate Holds(p: Pipe, sent: seq<Byte>, received: seq<Byte>) {
    && |p.data| == PIPESIZE
    && |received| <= |sent| <= |received| + PIPESIZE && received == sent[..|received|]
    && p.nread == |received| % WORD_LIMIT && p.nwrite == |sent| % WORD_LIMIT
    && forall k | |received| <= k < |sent| :: p.data[k % PIPESIZE] == sent[k]
  }

  /** The tests on the counters decide emptiness and fullness, whatever has wrapped. */
  lemma CountersDecide(p: Pipe, sent: seq<Byte>, received: seq<Byte>)
    requires Holds(p, sent, received)
    ensures Empty(p) <==> sent == received
    ensures Full(p) <==> |sent| - |received| == PIPESIZE
  {
    var d := |sent| - |received|;
    WrapDecides(|received|, d);
    assert |sent| == |received| ==> sent[..|received|] == sent;
  }

  lemma WrapDecides(r: nat, d: nat)
    requires d <= PIPESIZE
    ensures r % WORD_LIMIT == (r + d) % WORD_LIMIT <==> d == 0
    ensures (r + d) % WORD_LIMIT == (r % WORD_LIMIT + PIPESIZE) % WORD_LIMIT <==> d == PIPESIZE
  {
    var q, m := r / WORD_LIMIT, r % WORD_LIMIT;
    assert r == q * WORD_LIMIT + m;
    WrapAdd(q, m, d);
  }

  lemma WrapAdd(q: nat, m: nat, d: nat)
    requires m < WORD_LIMIT && d <= PIPESIZE
    ensures (q * WORD_LIMIT + m + d) % WORD_LIMIT == if m + d < WORD_LIMIT then m + d else m + d - WORD_LIMIT
  {
  }

  /** A wrapped counter picks the same cell as the full count. */
  lemma CellOfCounter(n: nat)
    ensures n % WORD_LIMIT % PIPESIZE == n % PIPESIZE && Next(n % WORD_LIMIT) == (n + 1) % WORD_LIMIT
  {
    var q, m := n / WORD_LIMIT, n % WORD_LIMIT;
    assert n == q * WORD_LIMIT + m;
    WrapAdd(q, m, 1);
  }

  lemma CellsDiffer(a: nat, b: nat)
    requires a < b < a + PIPESIZE
    ensures a % PIPESIZE != b % PIPESIZE
  {
  }

  lemma StoreHolds(p: Pipe, sent: seq<Byte>, received: seq<Byte>, b: Byte)
    requires Holds(p, sent, received) && !Full(p)
    ensures Holds(Store(p, b), sent + [b], received)
  {
    CountersDecide(p, sent, received);
    CellOfCounter(|sent|);
    var cell, q := |sent| % PIPESIZE, Store(p, b);
    forall k | |received| <= k < |sent|
      ensures q.data[k % PIPESIZE] == (sent + [b])[k]
    {
      CellsDiffer(k, |sent|);
    }
    assert q.data[cell] == b;
  }

  /** Filling appends bytes of the request, as many as there are or as there is room for. */
  lemma {:induction false} FillHolds(p: Pipe, addr: seq<Byte>, i: nat, sent: seq<Byte>, received: seq<Byte>)
    requires Holds(p, sent, received) && i <= |addr|
    ensures var r := Fill(p, addr, i);
            && Holds(r.0, sent + addr[i..r.1], received)
            && r.0 == p.(data := r.0.data, nwrite := r.0.nwrite)
            && var room := PIPESIZE - (|sent| - |received|);
               r.1 - i == if |addr| - i < room then |addr| - i else room
    decreases |addr| - i
  {
    CountersDecide(p, sent, received);
    if i == |addr| || Full(p) {
      assert sent + addr[i..i] == sent;
    } else {
      StoreHolds(p, sent, received, addr[i]);
      var j := Fill(Store(p, addr[i]), addr, i + 1).1;
      FillHolds(Store(p, addr[i]), addr, i + 1, sent + [addr[i]], received);
      assert sent + [addr[i]] + addr[i + 1..j] == sent + addr[i..j];
    }
  }

  /** Draining returns the oldest unread bytes, as many as wanted or as there are. */
  lemma {:induction false} DrainHolds(p: Pipe, n: nat, sent: seq<Byte>, received: seq<Byte>)
    requires Holds(p, sent, received)
    ensures var r := Drain(p, n);
            && Holds(r.0, sent, received + r.1)
            && r.0 == p.(nread := r.0.nread)
            && |r.1| == if n < |sent| - |received| then n else |sent| - |received|
    decreases n
  {
    CountersDecide(p, sent, received);
    if n == 0 || Empty(p) {
      assert received + [] == received;
    } else {
      CellOfCounter(|received|);
      var b := p.data[p.nread % PIPESIZE];
      assert b == sent[|received|];
      var q := p.(nread := Next(p.nread));
      assert sent[..|received| + 1] == received + [b];
      DrainHolds(q, n - 1, sent, received + [b]);
      assert received + [b] + Drain(q, n - 1).1 == received + ([b] + Drain(q, n - 1).1);
    }
  }

  /** The copy loop has taken `got` off `p0` and is at `p` with `left` bytes to go. */
  ghost predicate Draining(p0: Pipe, n: nat, p: Pipe, left: nat, got: seq<Byte>) {
    && |p0.data| == |p.data| == PIPESIZE
    && Drain(p0, n).0 == Drain(p, left).0 && Drain(p0, n).1 == got + Drain(p, left).1
  }

  lemma DrainingSteps(p0: Pipe, n: nat, p: Pipe, left: nat, got: seq<Byte>)
    requires Draining(p0, n, p, left, got)
    ensures if left == 0 || Empty(p) then Drain(p0, n) == (p, got)
            else Draining(p0, n, p.(nread := Next(p.nread)), left - 1, got + [p.data[p.nread % PIPESIZE]])
  {
    if left == 0 || Empty(p) {
      assert got + [] == got;
    } else {
      var b, rest := p.data[p.nread % PIPESIZE], Drain(p.(nread := Next(p.nread)), left - 1).1;
      assert got + ([b] + rest) == got + [b] + rest;
    }
  }

  lemma DrainingStarts(p: Pipe, n: nat)
    requires |p.data| == PIPESIZE
    ensures Draining(p, n, p, n, [])
  {
    assert [] + Drain(p, n).1 == Drain(p, n).1;
  }
}
