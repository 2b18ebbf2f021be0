/** The command language of part1/sh.c: its tokens, its trees, and what the recursive parser computes. */
module ShellSyntax {
  const MAXARGS: nat := 10
  const O_RDONLY := 0
  const O_WRONLY_CREATE := 0x201

  predicate IsSpace(c: char) {
    c == ' ' || c == '\t' || c == '\r' || c == '\n' || c == 0x0B as char
  }

  predicate IsSymbol(c: char) {
    c == '<' || c == '|' || c == '>' || c == '&' || c == ';' || c == '(' || c == ')'
  }

  predicate InWord(c: char) {
    !IsSpace(c) && !IsSymbol(c)
  }

  datatype Tok = Sym(c: char) | Append | Word(w: string)

  predicate IsWord(w: string) {
    w != "" && forall i | 0 <= i < |w| :: InWord(w[i])
  }

  /** Length of the word at the start of `t`. */
  function WordLen(t: string): (k: nat)
    ensures k <= |t| && (forall i | 0 <= i < k :: InWord(t[i])) && (k < |t| ==> !InWord(t[k]))
  {
    if t == "" || !InWord(t[0]) then 0 else 1 + WordLen(t[1..])
  }

  /** The tokens of a line. */
  function Lex(t: string): (ts: seq<Tok>)
    ensures |ts| <= |t|
  {
    if t == "" then []
    else if IsSpace(t[0]) then Lex(t[1..])
    else if t[0] == '>' && |t| > 1 && t[1] == '>' then [Append] + Lex(t[2..])
    else if IsSymbol(t[0]) then [Sym(t[0])] + Lex(t[1..])
    else assert InWord(t[0]); [Word(t[..WordLen(t)])] + Lex(t[WordLen(t)..])
  }

  datatype Cmd =
    | Exec(argv: seq<string>)
    | Redir(cmd: Cmd, file: string, mode: int, fd: int)
    | Pipe(left: Cmd, right: Cmd)
    | List(left: Cmd, right: Cmd)
    | Back(cmd: Cmd)

  datatype Error = MissingFile | MissingParen | Syntax | TooManyArgs | Leftovers

  datatype Parsed = Good(cmd: Cmd, rest: seq<Tok>) | Bad(error: Error)

  /** The next token starts with character `c`. */
  predicate At(ts: seq<Tok>, c: char) {
    ts != [] && match ts[0] case Sym(d) => d == c case Append => c == '>' case Word(_) => false
  }

  predicate AtRedir(ts: seq<Tok>) {
    At(ts, '<') || At(ts, '>')
  }

  /** The commands after which an argument list stops. */
  predicate AtStop(ts: seq<Tok>) {
    At(ts, '|') || At(ts, ')') || At(ts, '&') || At(ts, ';')
  }

  datatype Redirection = Redirection(file: string, mode: int, fd: int)

  datatype Redirs = Redirected(list: seq<Redirection>, rest: seq<Tok>) | BadRedir

  function RedirOf(t: Tok, file: string): (r: Redirection) {
    if t == Sym('<') then Redirection(file, O_RDONLY, 0) else Redirection(file, O_WRONLY_CREATE, 1)
  }

  function Wrap(cmd: Cmd, rs: seq<Redirection>): (r: Cmd) {
    if rs == [] then cmd
    else
      var last := rs[|rs| - 1];
      Redir(Wrap(cmd, rs[..|rs| - 1]), last.file, last.mode, last.fd)
  }

  /** parseredirs, collecting after `done`. */
  function ParseRedirs(done: seq<Redirection>, ts: seq<Tok>): (r: Redirs)
    ensures r.Redirected? ==> |r.rest| <= |ts| && !AtRedir(r.rest)
    decreases |ts|
  {
    if !AtRedir(ts) then Redirected(done, ts)
    else if |ts| < 2 || !ts[1].Word? then BadRedir
    else ParseRedirs(done + [RedirOf(ts[0], ts[1].w)], ts[2..])
  }

  /** parseexec's argument loop. */
  function ParseArgs(argv: seq<string>, rs: seq<Redirection>, ts: seq<Tok>): (r: Parsed)
    requires |argv| < MAXARGS
    ensures r.Good? ==> |r.rest| <= |ts|
    decreases |ts|
  {
    if AtStop(ts) || ts == [] then Good(Wrap(Exec(argv), rs), ts)
    else if !ts[0].Word? then Bad(Syntax)
    else if |argv| + 1 >= MAXARGS then Bad(TooManyArgs)
    else
      var r := ParseRedirs(rs, ts[1..]);
      if r.BadRedir? then Bad(MissingFile) else ParseArgs(argv + [ts[0].w], r.list, r.rest)
  }

  function ParseBlock(ts: seq<Tok>): (r: Parsed)
    requires At(ts, '(')
    ensures r.Good? ==> |r.rest| < |ts|
    decreases |ts|, 0
  {
    var inner := ParseLine(ts[1..]);
    if inner.Bad? then inner
    else if !At(inner.rest, ')') then Bad(MissingParen)
    else
      var r := ParseRedirs([], inner.rest[1..]);
      if r.BadRedir? then Bad(MissingFile) else Good(Wrap(inner.cmd, r.list), r.rest)
  }

  function ParseExec(ts: seq<Tok>): (r: Parsed)
    ensures r.Good? ==> |r.rest| <= |ts|
    decreases |ts|, 1
  {
    if At(ts, '(') then ParseBlock(ts)
    else
      var r := ParseRedirs([], ts);
      if r.BadRedir? then Bad(MissingFile) else ParseArgs([], r.list, r.rest)
  }

  function ParsePipe(ts: seq<Tok>): (r: Parsed)
    ensures r.Good? ==> |r.rest| <= |ts|
    decreases |ts|, 2
  {
    var l := ParseExec(ts);
    if l.Bad? || !At(l.rest, '|') then l
    else
      var r := ParsePipe(l.rest[1..]);
      if r.Bad? then r else Good(Pipe(l.cmd, r.cmd), r.rest)
  }

  /** parseline's loop over `&`. */
  function Backs(cmd: Cmd, ts: seq<Tok>): (r: (Cmd, seq<Tok>))
    ensures |r.1| <= |ts| && !At(r.1, '&')
    decreases |ts|
  {
    if At(ts, '&') then Backs(Back(cmd), ts[1..]) else (cmd, ts)
  }

  function ParseLine(ts: seq<Tok>): (r: Parsed)
    ensures r.Good? ==> |r.rest| <= |ts|
    decreases |ts|, 3
  {
    var p := ParsePipe(ts);
    if p.Bad? then p
    else
      var (cmd, rest) := Backs(p.cmd, p.rest);
      if !At(rest, ';') then Good(cmd, rest)
      else
        var r := ParseLine(rest[1..]);
        if r.Bad? then r else Good(List(cmd, r.cmd), r.rest)
  }

  function ParseCmd(ts: seq<Tok>): (r: Parsed) {
    var r := ParseLine(ts);
    if r.Good? && r.rest != [] then Bad(Leftovers) else r
  }

  // ---- Canonical text ----

  /** Trees the parser can build. */
  predicate Valid(c: Cmd) {
    match c
    case Exec(argv) => |argv| < MAXARGS && forall w | w in argv :: IsWord(w)
    case Redir(d, file, mode, fd) =>
      Valid(d) && IsWord(file) && ((mode == O_RDONLY && fd == 0) || (mode == O_WRONLY_CREATE && fd == 1))
    case Pipe(l, r) => Valid(l) && Valid(r)
    case List(l, r) => Valid(l) && Valid(r)
    case Back(d) => Valid(d)
  }

  function Words(argv: seq<string>): (ts: seq<Tok>)
    ensures |ts| == |argv| && forall i | 0 <= i < |argv| :: ts[i] == Word(argv[i])
  {
    seq(|argv|, i requires 0 <= i < |argv| => Word(argv[i]))
  }

  function Paren(ts: seq<Tok>): seq<Tok> {
    [Sym('(')] + ts + [Sym(')')]
  }

  /** The fully parenthesised form of a tree. */
  function Canonical(c: Cmd): (ts: seq<Tok>) {
    match c
    case Exec(argv) => Words(argv)
    case Redir(d, file, mode, fd) => Paren(Canonical(d)) + [Sym(if fd == 0 then '<' else '>'), Word(file)]
    case Pipe(l, r) => Paren(Canonical(l)) + [Sym('|')] + Paren(Canonical(r))
    case List(l, r) => Paren(Canonical(l)) + [Sym(';')] + Paren(Canonical(r))
    case Back(d) => Paren(Canonical(d)) + [Sym('&')]
  }

  function Spelling(t: Tok): (s: string) {
    match t case Sym(c) => [c] case Append => ">>" case Word(w) => w
  }

  /** Tokens written out, each followed by a space. */
  function Spell(ts: seq<Tok>): (s: string) {
    if ts == [] then "" else Spelling(ts[0]) + " " + Spell(ts[1..])
  }
}
