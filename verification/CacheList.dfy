/**
 The buffer records of part1/bio.c and the doubly linked list through them. Buffers are named by their index in
 bcache.buf; index NBUF is the list head.
 */
module CacheList {
  import opened Blocks

  const NBUF := 30
  const HEAD: nat := NBUF

  datatype Buf = Buf(dev: nat, blockno: nat, refcnt: nat, valid: bool, dirty: bool, locked: bool, data: Block,
                     prev: nat, next: nat)

  ghost function After(f: seq<nat>, i: nat): nat
    requires i < |f|
  {
    if i + 1 < |f| then f[i + 1] else f[0]
  }

  ghost predicate LinksAt(bs: seq<Buf>, f: seq<nat>, i: nat) {
    i < |f| && f[i] < |bs| && After(f, i) < |bs| && bs[f[i]].next == After(f, i) && bs[After(f, i)].prev == f[i]
  }

  ghost predicate Distinct(f: seq<nat>) {
    forall i, j | 0 <= i < j < |f| :: f[i] != f[j]
  }

  /** `f` is the circular list, head first: next leads along it, prev leads back. */
  ghost predicate Circle(bs: seq<Buf>, f: seq<nat>) {
    && f != [] && f[0] == HEAD && Distinct(f)
    && (forall x | x in f :: x < |bs|) && forall i: nat | i < |f| :: LinksAt(bs, f, i)
  }

  function Remove(f: seq<nat>, k: nat): (r: seq<nat>)
    requires k < |f|
    ensures |r| == |f| - 1 && forall i | 0 <= i < |r| :: r[i] == f[if i < k then i else i + 1]
    ensures Distinct(f) ==> f[k] !in r && Distinct(r)
    ensures forall x :: x in r ==> x in f
  {
    f[..k] + f[k + 1..]
  }

  function PutFirst(f: seq<nat>, b: nat): (r: seq<nat>)
    requires f != []
    ensures |r| == |f| + 1 && r[0] == f[0] && r[1] == b && forall i | 2 <= i < |r| :: r[i] == f[i - 1]
  {
    [f[0], b] + f[1..]
  }

  /** The two assignments that take `b` out of the list. */
  function Unhook(bs: seq<Buf>, b: nat): (r: seq<Buf>)
    requires b < |bs| && bs[b].next < |bs| && bs[b].prev < |bs|
    ensures |r| == |bs|
  {
    var r1 := bs[bs[b].next := bs[bs[b].next].(prev := bs[b].prev)];
    r1[bs[b].prev := r1[bs[b].prev].(next := r1[b].next)]
  }

  /** The four assignments that put `b` behind the head. */
  function Hook(bs: seq<Buf>, b: nat): (r: seq<Buf>)
    requires b < |bs| && HEAD < |bs| && bs[HEAD].next < |bs|
    ensures |r| == |bs|
  {
    var n := bs[HEAD].next;
    var r1 := bs[b := bs[b].(next := n, prev := HEAD)];
    var r2 := r1[n := r1[n].(prev := b)];
    r2[HEAD := r2[HEAD].(next := b)]
  }

  /** Nothing but links differs. */
  ghost predicate SameButLinks(a: seq<Buf>, b: seq<Buf>) {
    |a| == |b| && forall i | 0 <= i < |a| :: b[i] == a[i].(prev := b[i].prev, next := b[i].next)
  }

  lemma UnhookKeepsCircle(bs: seq<Buf>, f: seq<nat>, k: nat)
    requires Circle(bs, f) && 0 < k < |f|
    ensures f[k] < |bs| && bs[f[k]].next < |bs| && bs[f[k]].prev < |bs|
    ensures Circle(Unhook(bs, f[k]), Remove(f, k)) && SameButLinks(bs, Unhook(bs, f[k]))
  {
    var b, r := f[k], Remove(f, k);
    assert LinksAt(bs, f, k) && LinksAt(bs, f, k - 1);
    assert After(f, k - 1) == b;
    var bs' := Unhook(bs, b);
    forall i: nat | i < |r|
      ensures LinksAt(bs', r, i)
    {
      if i < k - 1 {
        assert LinksAt(bs, f, i);
        assert i + 1 < |f| && f[i] != f[k - 1];
      } else if i == k - 1 {
        assert LinksAt(bs, f, k);
      } else {
        assert LinksAt(bs, f, i + 1);
        assert f[i + 1] != f[k - 1];
        assert After(f, i + 1) != After(f, k);
      }
    }
  }

  lemma HookKeepsCircle(bs: seq<Buf>, f: seq<nat>, b: nat)
    requires Circle(bs, f) && b < |bs| && b !in f
    ensures HEAD < |bs| && bs[HEAD].next < |bs|
    ensures Circle(Hook(bs, b), PutFirst(f, b)) && SameButLinks(bs, Hook(bs, b))
  {
    var r := PutFirst(f, b);
    assert LinksAt(bs, f, 0);
    var bs' := Hook(bs, b);
    forall i: nat | i < |r|
      ensures LinksAt(bs', r, i)
    {
      if i >= 2 {
        assert LinksAt(bs, f, i - 1);
      }
    }
    forall i, j | 0 <= i < j < |r|
      ensures r[i] != r[j]
    {
      assert j >= 2 ==> r[j] == f[j - 1] && f[j - 1] in f;
      assert i >= 2 ==> r[i] == f[i - 1];
    }
    forall x | x in r
      ensures x < |bs'|
    {
      assert x == b || x in f;
    }
  }
}
