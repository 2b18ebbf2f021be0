/** Parse trees whose words are still spans of the line, and the NULs that nulterminate writes into it. */
module ShellNodes {
  import opened ShellSyntax

  /** A word from `q` up to `eq`. */
  datatype Span = Span(q: nat, eq: nat)

  datatype Node =
    | ExecNode(args: seq<Span>)
    | RedirNode(cmd: Node, file: Span, mode: int, fd: int)
    | PipeNode(left: Node, right: Node)
    | ListNode(left: Node, right: Node)
    | BackNode(cmd: Node)

  function Text(line: string, sp: Span): (w: string) {
    if sp.q <= sp.eq <= |line| then line[sp.q..sp.eq] else ""
  }

  function Texts(line: string, sps: seq<Span>): (ws: seq<string>)
    ensures |ws| == |sps| && forall i | 0 <= i < |sps| :: ws[i] == Text(line, sps[i])
  {
    seq(|sps|, i requires 0 <= i < |sps| => Text(line, sps[i]))
  }

  /** The tree with its words read off the line. */
  function Resolve(line: string, n: Node): (c: Cmd) {
    match n
    case ExecNode(args) => Exec(Texts(line, args))
    case RedirNode(d, file, mode, fd) => Redir(Resolve(line, d), Text(line, file), mode, fd)
    case PipeNode(l, r) => Pipe(Resolve(line, l), Resolve(line, r))
    case ListNode(l, r) => List(Resolve(line, l), Resolve(line, r))
    case BackNode(d) => Back(Resolve(line, d))
  }

  /** A maximal run of word characters. */
  ghost predicate IsToken(line: string, sp: Span) {
    && sp.q < sp.eq <= |line| && (forall i | sp.q <= i < sp.eq :: InWord(line[i]))
    && (sp.eq < |line| ==> !InWord(line[sp.eq]))
  }

  ghost predicate HasSpan(n: Node, sp: Span) {
    match n
    case ExecNode(args) => sp in args
    case RedirNode(d, file, _, _) => sp == file || HasSpan(d, sp)
    case PipeNode(l, r) => HasSpan(l, sp) || HasSpan(r, sp)
    case ListNode(l, r) => HasSpan(l, sp) || HasSpan(r, sp)
    case BackNode(d) => HasSpan(d, sp)
  }

  ghost predicate Tokens(line: string, n: Node) {
    forall sp | HasSpan(n, sp) :: IsToken(line, sp)
  }

  // ---- nulterminate ----

  /** Every span's end overwritten. */
  ghost predicate Nulled(b: seq<char>, b': seq<char>, n: Node) {
    |b'| == |b| && forall i | 0 <= i < |b| :: b'[i] == if EndsSpan(n, i) then '\0' else b[i]
  }

  ghost predicate EndsSpan(n: Node, i: int) {
    exists sp :: HasSpan(n, sp) && sp.eq == i
  }

  lemma NulledTwice(b: seq<char>, b1: seq<char>, b2: seq<char>, n: Node, l: Node, r: Node)
    requires Nulled(b, b1, l) && Nulled(b1, b2, r) && forall sp :: HasSpan(n, sp) <==> HasSpan(l, sp) || HasSpan(r, sp)
    ensures Nulled(b, b2, n)
  {
    forall i | 0 <= i < |b|
      ensures EndsSpan(n, i) <==> EndsSpan(l, i) || EndsSpan(r, i)
    {
      if EndsSpan(l, i) {
        var sp :| HasSpan(l, sp) && sp.eq == i;
        assert HasSpan(n, sp);
      }
      if EndsSpan(r, i) {
        var sp :| HasSpan(r, sp) && sp.eq == i;
        assert HasSpan(n, sp);
      }
    }
  }

  /** The C string at `q`. */
  function CString(b: seq<char>, q: nat): (s: string)
    requires q <= |b|
    decreases |b| - q
  {
    if q == |b| || b[q] == '\0' then "" else [b[q]] + CString(b, q + 1)
  }

  lemma {:induction false} CStringIs(b: seq<char>, q: nat, e: nat)
    requires q <= e < |b| && b[e] == '\0' && forall i | q <= i < e :: b[i] != '\0'
    ensures CString(b, q) == b[q..e]
    decreases e - q
  {
    if q < e {
      CStringIs(b, q + 1, e);
      assert [b[q]] + b[q + 1..e] == b[q..e];
    }
  }

  /** After nulterminate, each word of the tree is a C string at the place where it began. */
  lemma WordsSurvive(b: seq<char>, b': seq<char>, es: nat, n: Node, sp: Span)
    requires es < |b| && (forall i | 0 <= i < es :: b[i] != '\0')
    requires Tokens(b[..es], n) && Nulled(b, b', n) && HasSpan(n, sp)
    ensures sp.q < |b'| && CString(b', sp.q) == Text(b[..es], sp)
    ensures forall i | 0 <= i < |b| && b'[i] != b[i] :: i >= es || !InWord(b[i])
  {
    var line := b[..es];
    assert IsToken(line, sp);
    forall i | 0 <= i < |b| && EndsSpan(n, i)
      ensures i == es || (i < es && !InWord(b[i]))
    {
      var other :| HasSpan(n, other) && other.eq == i;
      assert IsToken(line, other);
    }
    forall i | sp.q <= i < sp.eq
      ensures b'[i] == b[i]
    {
      assert InWord(line[i]);
    }
    assert EndsSpan(n, sp.eq);
    CStringIs(b', sp.q, sp.eq);
    assert b'[sp.q..sp.eq] == line[sp.q..sp.eq];
  }
}
