/**
 The grammar that the parser of part1/sh.c accepts, as trees of its own, with their tokens and what they mean. The
 parser accepts the tokens of every line of the grammar and nothing else, and finds the one tree that the line means.
 */
module ShellGrammar {
  import opened ShellSyntax
  import opened ShellRoundTrip
  import opened ShellText

  /** A word of a command, or a redirection. */
  datatype Item = Arg(w: string) | Into(op: Tok, file: string)

  datatype Unit = Plain(items: seq<Item>) | Block(line: Line, redirs: seq<Item>)

  datatype Pipeline = One(first: Unit) | Piped(first: Unit, more: Pipeline)

  /** A pipeline, the number of `&` after it, and what follows a `;`. */
  datatype Line = Last(pipe: Pipeline, backs: nat) | Then(pipe: Pipeline, backs: nat, next: Line)

  // ---- Tokens of a line ----

  function ItemToks(items: seq<Item>): (ts: seq<Tok>) {
    if items == [] then []
    else (match items[0] case Arg(w) => [Word(w)] case Into(op, file) => [op, Word(file)]) + ItemToks(items[1..])
  }

  function UnitToks(u: Unit): (ts: seq<Tok>)
    decreases u, 0
  {
    match u
    case Plain(items) => ItemToks(items)
    case Block(line, redirs) => [Sym('(')] + (LineToks(line) + ([Sym(')')] + ItemToks(redirs)))
  }

  function PipeToks(p: Pipeline): (ts: seq<Tok>)
    decreases p, 1
  {
    match p
    case One(u) => UnitToks(u)
    case Piped(u, more) => UnitToks(u) + ([Sym('|')] + PipeToks(more))
  }

  function Amps(n: nat): (ts: seq<Tok>)
    ensures |ts| == n && forall i | 0 <= i < n :: ts[i] == Sym('&')
  {
    seq(n, i => Sym('&'))
  }

  function LineToks(l: Line): (ts: seq<Tok>)
    decreases l, 2
  {
    match l
    case Last(p, n) => PipeToks(p) + Amps(n)
    case Then(p, n, next) => PipeToks(p) + (Amps(n) + ([Sym(';')] + LineToks(next)))
  }

  /** Only redirections after a block, `<`, `>` or `>>` for each, and at most nine words in a command. */
  predicate UnitOk(u: Unit)
    decreases u, 0
  {
    match u
    case Plain(items) => OpsOk(items) && |WordsIn(items)| < MAXARGS
    case Block(line, redirs) => OpsOk(redirs) && WordsIn(redirs) == [] && LineOk(line)
  }

  predicate PipeOk(p: Pipeline)
    decreases p, 1
  {
    UnitOk(p.first) && (p.Piped? ==> PipeOk(p.more))
  }

  predicate LineOk(l: Line)
    decreases l, 2
  {
    PipeOk(l.pipe) && (l.Then? ==> LineOk(l.next))
  }

  predicate IsOp(t: Tok) {
    t == Sym('<') || t == Sym('>') || t == Append
  }

  predicate OpsOk(items: seq<Item>) {
    forall i | 0 <= i < |items| && items[i].Into? :: IsOp(items[i].op)
  }

  // ---- What a line means ----

  /** The words among the items, in order. */
  function WordsIn(items: seq<Item>): (ws: seq<string>) {
    if items == [] then [] else (if items[0].Arg? then [items[0].w] else []) + WordsIn(items[1..])
  }

  /** The redirections among the items, in order: input for `<`, output for `>` and for `>>`. */
  function RedirsIn(items: seq<Item>): (rs: seq<Redirection>) {
    if items == [] then []
    else
      (match items[0]
       case Arg(_) => []
       case Into(op, file) =>
         if op == Sym('<') then [Redirection(file, O_RDONLY, 0)] else [Redirection(file, O_WRONLY_CREATE, 1)])
      + RedirsIn(items[1..])
  }

  /** The redirections around a tree, the inner ones first. */
  function RedirsOf(c: Cmd): (rs: seq<Redirection>) {
    if c.Redir? then RedirsOf(c.cmd) + [Redirection(c.file, c.mode, c.fd)] else []
  }

  /** What is inside all of them. */
  function CoreOf(c: Cmd): (d: Cmd) {
    if c.Redir? then CoreOf(c.cmd) else c
  }

  /** The tree without its `n` outermost redirections. */
  function Under(c: Cmd, n: nat): (d: Cmd) {
    if n == 0 || !c.Redir? then c else Under(c.cmd, n - 1)
  }

  /** The tree under `n` background nodes. */
  predicate HasBacks(c: Cmd, n: nat) {
    n == 0 || (c.Back? && HasBacks(c.cmd, n - 1))
  }

  function UnderBacks(c: Cmd, n: nat): (d: Cmd)
    requires HasBacks(c, n)
  {
    if n == 0 then c else UnderBacks(c.cmd, n - 1)
  }

  predicate UnitMeans(u: Unit, c: Cmd)
    decreases u, 0
  {
    match u
    case Plain(items) => CoreOf(c) == Exec(WordsIn(items)) && RedirsOf(c) == RedirsIn(items)
    case Block(line, redirs) =>
      var d := Under(c, |redirs|);
      LineMeans(line, d) && RedirsOf(c) == RedirsOf(d) + RedirsIn(redirs)
  }

  /** `a | b | c` is a piped into the rest. */
  predicate PipeMeans(p: Pipeline, c: Cmd)
    decreases p, 1
  {
    match p
    case One(u) => UnitMeans(u, c)
    case Piped(u, more) => c.Pipe? && UnitMeans(u, c.left) && PipeMeans(more, c.right)
  }

  /** `a & ; b ; c` is a, in the background, and then the rest. */
  predicate LineMeans(l: Line, c: Cmd)
    decreases l, 2
  {
    match l
    case Last(p, n) => HasBacks(c, n) && PipeMeans(p, UnderBacks(c, n))
    case Then(p, n, next) =>
      c.List? && HasBacks(c.left, n) && PipeMeans(p, UnderBacks(c.left, n)) && LineMeans(next, c.right)
  }

  // ---- A line means one tree ----

  lemma {:induction false} SameParts(c: Cmd, d: Cmd)
    requires CoreOf(c) == CoreOf(d) && RedirsOf(c) == RedirsOf(d)
    ensures c == d
  {
    if c.Redir? {
      var rs, r := RedirsOf(c.cmd), Redirection(c.file, c.mode, c.fd);
      assert RedirsOf(c) == rs + [r] && d.Redir?;
      var rs', r' := RedirsOf(d.cmd), Redirection(d.file, d.mode, d.fd);
      assert (rs + [r])[|rs|] == r && (rs' + [r'])[|rs'|] == r';
      assert rs == (rs + [r])[..|rs|] == (rs' + [r'])[..|rs'|] == rs';
      SameParts(c.cmd, d.cmd);
    } else {
      assert d.Redir? ==> |RedirsOf(d)| > 0;
    }
  }

  lemma {:induction false} UnderKeepsCore(c: Cmd, n: nat)
    ensures CoreOf(Under(c, n)) == CoreOf(c)
    decreases n
  {
    if n > 0 && c.Redir? {
      UnderKeepsCore(c.cmd, n - 1);
    }
  }

  lemma {:induction false} SameUnderBacks(c: Cmd, d: Cmd, n: nat)
    requires HasBacks(c, n) && HasBacks(d, n) && UnderBacks(c, n) == UnderBacks(d, n)
    ensures c == d
    decreases n
  {
    if n > 0 {
      SameUnderBacks(c.cmd, d.cmd, n - 1);
    }
  }

  lemma {:induction false} UnitMeansOne(u: Unit, c: Cmd, d: Cmd)
    requires UnitMeans(u, c) && UnitMeans(u, d)
    ensures c == d
    decreases u, 0
  {
    if u.Block? {
      var n := |u.redirs|;
      LineMeansOne(u.line, Under(c, n), Under(d, n));
      UnderKeepsCore(c, n);
      UnderKeepsCore(d, n);
    }
    SameParts(c, d);
  }

  lemma {:induction false} PipeMeansOne(p: Pipeline, c: Cmd, d: Cmd)
    requires PipeMeans(p, c) && PipeMeans(p, d)
    ensures c == d
    decreases p, 1
  {
    match p
    case One(u) => UnitMeansOne(u, c, d);
    case Piped(u, more) =>
      UnitMeansOne(u, c.left, d.left);
      PipeMeansOne(more, c.right, d.right);
  }

  /** No line means two trees. */
  lemma {:induction false} LineMeansOne(l: Line, c: Cmd, d: Cmd)
    requires LineMeans(l, c) && LineMeans(l, d)
    ensures c == d
    decreases l, 2
  {
    match l
    case Last(p, n) =>
      PipeMeansOne(p, UnderBacks(c, n), UnderBacks(d, n));
      SameUnderBacks(c, d, n);
    case Then(p, n, next) =>
      PipeMeansOne(p, UnderBacks(c.left, n), UnderBacks(d.left, n));
      SameUnderBacks(c.left, d.left, n);
      LineMeansOne(next, c.right, d.right);
  }

  // ---- What the parser's helpers build ----

  lemma Joins<T>(a: seq<T>, b: seq<T>, c: seq<T>)
    ensures a + b + c == a + (b + c)
  {
  }

  lemma Empty<T>(a: seq<T>)
    ensures [] + a == a == a + []
  {
  }

  lemma {:induction false} WrapParts(c: Cmd, rs: seq<Redirection>)
    ensures CoreOf(Wrap(c, rs)) == CoreOf(c) && RedirsOf(Wrap(c, rs)) == RedirsOf(c) + rs
    ensures Under(Wrap(c, rs), |rs|) == c
    decreases |rs|
  {
    if rs == [] {
      assert RedirsOf(c) + rs == RedirsOf(c);
    } else {
      var init := rs[..|rs| - 1];
      WrapParts(c, init);
      assert RedirsOf(c) + init + [rs[|rs| - 1]] == RedirsOf(c) + rs;
    }
  }

  lemma {:induction false} BacksParts(c: Cmd, n: nat, rest: seq<Tok>)
    requires !At(rest, '&')
    ensures var (d, after) := Backs(c, Amps(n) + rest);
            after == rest && HasBacks(d, n) && UnderBacks(d, n) == c
    decreases n
  {
    var ts := Amps(n) + rest;
    if n == 0 {
      assert ts == rest;
    } else {
      assert ts[0] == Sym('&') && ts[1..] == Amps(n - 1) + rest;
      BacksParts(Back(c), n - 1, rest);
      var d := Backs(c, ts).0;
      BacksAlso(d, n - 1);
    }
  }

  lemma {:induction false} BacksAlso(d: Cmd, n: nat)
    requires HasBacks(d, n) && UnderBacks(d, n).Back?
    ensures HasBacks(d, n + 1) && UnderBacks(d, n + 1) == UnderBacks(d, n).cmd
    decreases n
  {
    if n > 0 {
      BacksAlso(d.cmd, n - 1);
    }
  }

  // ---- The parser accepts every line ----

  /** What may follow a simple command. */
  predicate Stops(rest: seq<Tok>) {
    rest == [] || AtStop(rest)
  }

  lemma ArgFirst(w: string, more: seq<Item>, rest: seq<Tok>)
    ensures ItemToks([Arg(w)] + more) + rest == [Word(w)] + (ItemToks(more) + rest)
    ensures WordsIn([Arg(w)] + more) == [w] + WordsIn(more) && RedirsIn([Arg(w)] + more) == RedirsIn(more)
  {
    assert ([Arg(w)] + more)[1..] == more;
  }

  lemma IntoFirst(op: Tok, file: string, more: seq<Item>, rest: seq<Tok>)
    requires IsOp(op)
    ensures ItemToks([Into(op, file)] + more) + rest == [op, Word(file)] + (ItemToks(more) + rest)
    ensures WordsIn([Into(op, file)] + more) == WordsIn(more)
    ensures RedirsIn([Into(op, file)] + more) == [RedirOf(op, file)] + RedirsIn(more)
  {
    assert ([Into(op, file)] + more)[1..] == more;
  }

  lemma RedirsTake(rs: seq<Redirection>, op: Tok, file: string, ts: seq<Tok>)
    requires IsOp(op)
    ensures ParseRedirs(rs, [op, Word(file)] + ts) == ParseRedirs(rs + [RedirOf(op, file)], ts)
    ensures !At([op, Word(file)] + ts, '(')
  {
    assert ([op, Word(file)] + ts)[2..] == ts;
  }

  lemma ArgsTake(argv: seq<string>, rs: seq<Redirection>, w: string, ts: seq<Tok>)
    requires |argv| < MAXARGS
    ensures ParseRedirs(rs, [Word(w)] + ts) == Redirected(rs, [Word(w)] + ts) && !At([Word(w)] + ts, '(')
    ensures var r := ParseRedirs(rs, ts);
            ParseArgs(argv, rs, [Word(w)] + ts) ==
            if |argv| + 1 >= MAXARGS then Bad(TooManyArgs)
            else if r.BadRedir? then Bad(MissingFile)
            else ParseArgs(argv + [w], r.list, r.rest)
  {
    assert ([Word(w)] + ts)[1..] == ts;
  }

  /** What the items' tokens, and then `rest`, are parsed to. */
  ghost predicate ParseItems(
    argv: seq<string>, rs: seq<Redirection>, ts: seq<Tok>, words: seq<string>, redirs: seq<Redirection>, rest: seq<Tok>)
    requires |argv| < MAXARGS
  {
    var r := ParseRedirs(rs, ts);
    && r.Redirected?
    && ParseArgs(argv, r.list, r.rest) ==
       if |argv| + |words| < MAXARGS then Good(Wrap(Exec(argv + words), rs + redirs), rest) else Bad(TooManyArgs)
  }

  lemma ArgParses(
    argv: seq<string>, rs: seq<Redirection>, w: string, ts: seq<Tok>, words: seq<string>, redirs: seq<Redirection>,
    rest: seq<Tok>)
    requires |argv| < MAXARGS && (|argv| + 1 < MAXARGS ==> ParseItems(argv + [w], rs, ts, words, redirs, rest))
    ensures ParseItems(argv, rs, [Word(w)] + ts, [w] + words, redirs, rest)
  {
    ArgsTake(argv, rs, w, ts);
    assert argv + [w] + words == argv + ([w] + words);
  }

  lemma IntoParses(
    argv: seq<string>, rs: seq<Redirection>, op: Tok, file: string, ts: seq<Tok>, words: seq<string>,
    redirs: seq<Redirection>, rest: seq<Tok>)
    requires |argv| < MAXARGS && IsOp(op) && ParseItems(argv, rs + [RedirOf(op, file)], ts, words, redirs, rest)
    ensures ParseItems(argv, rs, [op, Word(file)] + ts, words, [RedirOf(op, file)] + redirs, rest)
  {
    RedirsTake(rs, op, file, ts);
    assert rs + [RedirOf(op, file)] + redirs == rs + ([RedirOf(op, file)] + redirs);
  }

  /** Redirections in front, then words with redirections among them: nine words at most. */
  lemma {:induction false} ItemsParse(argv: seq<string>, rs: seq<Redirection>, items: seq<Item>, rest: seq<Tok>)
    requires |argv| < MAXARGS && OpsOk(items) && Stops(rest)
    ensures ParseItems(argv, rs, ItemToks(items) + rest, WordsIn(items), RedirsIn(items), rest)
    ensures !At(ItemToks(items) + rest, '(')
    decreases |items|
  {
    if items == [] {
      assert ItemToks(items) + rest == rest && argv + [] == argv && rs + [] == rs;
    } else {
      hide ParseItems, WordsIn, RedirsIn, ItemToks;
      var more := items[1..];
      assert items == [items[0]] + more;
      match items[0]
      case Arg(w) =>
        ArgFirst(w, more, rest);
        if |argv| + 1 < MAXARGS {
          ItemsParse(argv + [w], rs, more, rest);
        }
        ArgParses(argv, rs, w, ItemToks(more) + rest, WordsIn(more), RedirsIn(more), rest);
      case Into(op, file) =>
        assert IsOp(items[0].op);
        IntoFirst(op, file, more, rest);
        ItemsParse(argv, rs + [RedirOf(op, file)], more, rest);
        IntoParses(argv, rs, op, file, ItemToks(more) + rest, WordsIn(more), RedirsIn(more), rest);
    }
  }

  /** The redirections after a block. */
  lemma {:induction false} RedirsParse(rs: seq<Redirection>, items: seq<Item>, rest: seq<Tok>)
    requires OpsOk(items) && WordsIn(items) == [] && !AtRedir(rest)
    ensures ParseRedirs(rs, ItemToks(items) + rest) == Redirected(rs + RedirsIn(items), rest)
    ensures |RedirsIn(items)| == |items|
    decreases |items|
  {
    if items == [] {
      assert ItemToks(items) + rest == rest && rs + [] == rs;
    } else {
      var more := items[1..];
      assert items == [items[0]] + more && IsOp(items[0].op);
      IntoFirst(items[0].op, items[0].file, more, rest);
      var r := RedirOf(items[0].op, items[0].file);
      RedirsTake(rs, items[0].op, items[0].file, ItemToks(more) + rest);
      RedirsParse(rs + [r], more, rest);
      assert rs + [r] + RedirsIn(more) == rs + ([r] + RedirsIn(more));
    }
  }

  predicate UnitFound(u: Unit, p: Parsed, rest: seq<Tok>) {
    p.Good? && p.rest == rest && UnitMeans(u, p.cmd)
  }

  lemma PlainParses(items: seq<Item>, rest: seq<Tok>)
    requires UnitOk(Plain(items)) && Stops(rest)
    ensures UnitFound(Plain(items), ParseExec(UnitToks(Plain(items)) + rest), rest)
  {
    var c := Exec(WordsIn(items));
    assert CoreOf(c) == c && RedirsOf(c) == [];
    hide ItemToks, WordsIn, RedirsIn, RedirsOf, CoreOf, ParseArgs, ParseRedirs, Wrap, At, OpsOk;
    ItemsParse([], [], items, rest);
    Empty(WordsIn(items));
    Empty(RedirsIn(items));
    WrapParts(c, RedirsIn(items));
  }

  lemma BlockStep(body: seq<Tok>, d: Cmd, after: seq<Tok>, rs: seq<Redirection>, rest: seq<Tok>)
    requires ParseLine(body) == Good(d, [Sym(')')] + after) && ParseRedirs([], after) == Redirected(rs, rest)
    ensures ParseExec([Sym('(')] + body) == Good(Wrap(d, rs), rest)
  {
    hide ParseLine, ParseRedirs, Wrap;
    assert ([Sym('(')] + body)[1..] == body && ([Sym(')')] + after)[1..] == after;
  }

  lemma BlockParses(line: Line, d: Cmd, redirs: seq<Item>, rest: seq<Tok>)
    requires UnitOk(Block(line, redirs)) && !AtRedir(rest) && LineMeans(line, d)
    requires var close := [Sym(')')] + (ItemToks(redirs) + rest); ParseLine(LineToks(line) + close) == Good(d, close)
    ensures UnitFound(Block(line, redirs), ParseExec(UnitToks(Block(line, redirs)) + rest), rest)
  {
    hide ParseExec, ParseLine, LineToks, ItemToks, RedirsIn, LineMeans, RedirsOf, CoreOf, Wrap, Under, OpsOk, WordsIn;
    var close := [Sym(')')] + (ItemToks(redirs) + rest);
    RedirsParse([], redirs, rest);
    Empty(RedirsIn(redirs));
    WrapParts(d, RedirsIn(redirs));
    BlockStep(LineToks(line) + close, d, ItemToks(redirs) + rest, RedirsIn(redirs), rest);
    Joins([Sym(')')], ItemToks(redirs), rest);
    Joins(LineToks(line), [Sym(')')] + ItemToks(redirs), rest);
    Joins([Sym('(')], LineToks(line) + ([Sym(')')] + ItemToks(redirs)), rest);
  }

  lemma {:induction false} UnitParses(u: Unit, rest: seq<Tok>)
    requires UnitOk(u) && Stops(rest)
    ensures UnitFound(u, ParseExec(UnitToks(u) + rest), rest)
    decreases u, 0
  {
    match u
    case Plain(items) => PlainParses(items, rest);
    case Block(line, redirs) =>
      var close := [Sym(')')] + (ItemToks(redirs) + rest);
      LineParsesTo(line, close);
      BlockParses(line, ParseLine(LineToks(line) + close).cmd, redirs, rest);
  }

  lemma {:induction false} PipeParses(p: Pipeline, rest: seq<Tok>)
    requires PipeOk(p) && Stops(rest) && !At(rest, '|')
    ensures var r := ParsePipe(PipeToks(p) + rest); r.Good? && r.rest == rest && PipeMeans(p, r.cmd)
    decreases p, 1
  {
    match p
    case One(u) => UnitParses(u, rest);
    case Piped(u, more) =>
      var next := [Sym('|')] + (PipeToks(more) + rest);
      assert PipeToks(p) + rest == UnitToks(u) + next && next[1..] == PipeToks(more) + rest;
      UnitParses(u, next);
      PipeParses(more, rest);
  }

  /** A pipeline with its `&`s, before the end of a line or a `;`. */
  lemma {:induction false} PartParses(p: Pipeline, n: nat, rest: seq<Tok>)
    requires PipeOk(p) && Stops(rest) && !At(rest, '|') && !At(rest, '&')
    ensures var r := ParsePipe(PipeToks(p) + (Amps(n) + rest));
            && r.Good?
            && var (c, after) := Backs(r.cmd, r.rest);
               after == rest && HasBacks(c, n) && PipeMeans(p, UnderBacks(c, n))
    decreases p, 2
  {
    var amps := Amps(n) + rest;
    assert n == 0 ==> amps == rest;
    assert n > 0 ==> amps[0] == Sym('&');
    PipeParses(p, amps);
    BacksParts(ParsePipe(PipeToks(p) + amps).cmd, n, rest);
  }

  /** Every line of the grammar is accepted, and the parser finds what it means. */
  lemma {:induction false} LineParsesTo(l: Line, rest: seq<Tok>)
    requires LineOk(l) && Ends(rest)
    ensures var r := ParseLine(LineToks(l) + rest); r.Good? && r.rest == rest && LineMeans(l, r.cmd)
    decreases l, 3
  {
    match l
    case Last(p, n) =>
      assert LineToks(l) + rest == PipeToks(p) + (Amps(n) + rest);
      PartParses(p, n, rest);
    case Then(p, n, next) =>
      var more := [Sym(';')] + (LineToks(next) + rest);
      assert LineToks(l) + rest == PipeToks(p) + (Amps(n) + more) && more[1..] == LineToks(next) + rest;
      PartParses(p, n, more);
      LineParsesTo(next, rest);
  }

  // ---- And nothing else ----

  lemma {:induction false} RedirsFrom(rs: seq<Redirection>, ts: seq<Tok>) returns (items: seq<Item>)
    requires ParseRedirs(rs, ts).Redirected?
    ensures OpsOk(items) && WordsIn(items) == [] && ts == ItemToks(items) + ParseRedirs(rs, ts).rest
    ensures ParseRedirs(rs, ts).list == rs + RedirsIn(items)
    decreases |ts|
  {
    if !AtRedir(ts) {
      items := [];
      Empty(rs);
      Empty(ts);
    } else {
      assert IsOp(ts[0]) && ts == [ts[0], Word(ts[1].w)] + ts[2..];
      var op, file, rest := ts[0], ts[1].w, ParseRedirs(rs, ts).rest;
      hide WordsIn, RedirsIn, ItemToks, RedirOf, AtRedir, ParseRedirs, IsOp;
      RedirsTake(rs, op, file, ts[2..]);
      var more := RedirsFrom(rs + [RedirOf(op, file)], ts[2..]);
      items := [Into(op, file)] + more;
      IntoFirst(op, file, more, rest);
      Joins(rs, [RedirOf(op, file)], RedirsIn(more));
    }
  }

  lemma ItemsCons(x: Item, a: seq<Item>)
    ensures ItemToks([x] + a) == ItemToks([x]) + ItemToks(a)
    ensures WordsIn([x] + a) == WordsIn([x]) + WordsIn(a) && RedirsIn([x] + a) == RedirsIn([x]) + RedirsIn(a)
  {
    assert ([x] + a)[1..] == a && [x][1..] == [];
  }

  lemma {:induction false} ItemsConcat(a: seq<Item>, b: seq<Item>)
    ensures ItemToks(a + b) == ItemToks(a) + ItemToks(b)
    ensures WordsIn(a + b) == WordsIn(a) + WordsIn(b) && RedirsIn(a + b) == RedirsIn(a) + RedirsIn(b)
    decreases |a|
  {
    if a == [] {
      Empty(b);
      Empty(ItemToks(b));
      Empty(WordsIn(b));
      Empty(RedirsIn(b));
    } else {
      hide ItemToks, WordsIn, RedirsIn;
      var x, more := a[0], a[1..];
      ItemsConcat(more, b);
      ItemsCons(x, more);
      ItemsCons(x, more + b);
      assert a == [x] + more;
      Joins([x], more, b);
      Joins(ItemToks([x]), ItemToks(more), ItemToks(b));
      Joins(WordsIn([x]), WordsIn(more), WordsIn(b));
      Joins(RedirsIn([x]), RedirsIn(more), RedirsIn(b));
    }
  }

  /** A word, the redirections after it and what follows. */
  lemma WithArg(w: string, into: seq<Item>, more: seq<Item>, rest: seq<Tok>) returns (items: seq<Item>)
    requires OpsOk(into) && OpsOk(more) && WordsIn(into) == []
    ensures OpsOk(items) && ItemToks(items) + rest == [Word(w)] + (ItemToks(into) + (ItemToks(more) + rest))
    ensures WordsIn(items) == [w] + WordsIn(more) && RedirsIn(items) == RedirsIn(into) + RedirsIn(more)
  {
    items := [Arg(w)] + (into + more);
    assert OpsOk(items);
    hide ItemToks, WordsIn, RedirsIn, OpsOk;
    ArgFirst(w, into + more, rest);
    ItemsConcat(into, more);
    Empty(WordsIn(more));
    Joins(ItemToks(into), ItemToks(more), rest);
  }

  lemma ArgsUnfold(argv: seq<string>, rs: seq<Redirection>, ts: seq<Tok>)
    requires |argv| < MAXARGS && ParseArgs(argv, rs, ts).Good? && !(AtStop(ts) || ts == [])
    ensures ts != [] && ts[0].Word? && ts == [Word(ts[0].w)] + ts[1..] && |argv| + 1 < MAXARGS
    ensures var r := ParseRedirs(rs, ts[1..]);
            r.Redirected? && |r.rest| < |ts| && ParseArgs(argv, rs, ts) == ParseArgs(argv + [ts[0].w], r.list, r.rest)
  {
    hide ParseRedirs, Wrap;
  }

  lemma {:induction false} ArgsFrom(argv: seq<string>, rs: seq<Redirection>, ts: seq<Tok>) returns (items: seq<Item>)
    requires |argv| < MAXARGS && ParseArgs(argv, rs, ts).Good?
    ensures var p := ParseArgs(argv, rs, ts);
            && OpsOk(items) && ts == ItemToks(items) + p.rest && |argv| + |WordsIn(items)| < MAXARGS
            && p.cmd == Wrap(Exec(argv + WordsIn(items)), rs + RedirsIn(items))
    decreases |ts|
  {
    if AtStop(ts) || ts == [] {
      items := [];
      Empty(argv);
      Empty(rs);
      Empty(ts);
    } else {
      hide ItemToks, WordsIn, RedirsIn, ParseArgs, ParseRedirs, Wrap, AtStop, OpsOk;
      ArgsUnfold(argv, rs, ts);
      var w, rest := ts[0].w, ParseArgs(argv, rs, ts).rest;
      var into := RedirsFrom(rs, ts[1..]);
      var r := ParseRedirs(rs, ts[1..]);
      var more := ArgsFrom(argv + [w], r.list, r.rest);
      items := WithArg(w, into, more, rest);
      Joins(argv, [w], WordsIn(more));
      Joins(rs, RedirsIn(into), RedirsIn(more));
    }
  }

  lemma PlainMeans(items: seq<Item>, c: Cmd)
    requires OpsOk(items) && |WordsIn(items)| < MAXARGS
    requires CoreOf(c) == Exec(WordsIn(items)) && RedirsOf(c) == [] + RedirsIn(items)
    ensures UnitOk(Plain(items)) && UnitMeans(Plain(items), c)
  {
    Empty(RedirsIn(items));
  }

  lemma PlainFrom(ts: seq<Tok>) returns (u: Unit)
    requires ParseExec(ts).Good? && !At(ts, '(')
    ensures UnitOk(u) && ts == UnitToks(u) + ParseExec(ts).rest && UnitMeans(u, ParseExec(ts).cmd)
  {
    var into := RedirsFrom([], ts);
    var r := ParseRedirs([], ts);
    var more := ArgsFrom([], r.list, r.rest);
    assert ParseExec(ts) == ParseArgs([], r.list, r.rest);
    hide ItemToks, WordsIn, RedirsIn, ParseArgs, ParseRedirs, Wrap, ParseExec, RedirsOf, CoreOf;
    ItemsConcat(into, more);
    u := Plain(into + more);
    Empty(WordsIn(more));
    Empty(RedirsIn(into));
    Joins(ItemToks(into), ItemToks(more), ParseExec(ts).rest);
    WrapParts(Exec(WordsIn(more)), RedirsIn(into + more));
    PlainMeans(into + more, ParseExec(ts).cmd);
  }

  lemma {:induction false} UnitFrom(ts: seq<Tok>) returns (u: Unit)
    requires ParseExec(ts).Good?
    ensures UnitOk(u) && ts == UnitToks(u) + ParseExec(ts).rest && UnitMeans(u, ParseExec(ts).cmd)
    decreases |ts|, 1
  {
    if At(ts, '(') {
      var line := LineFrom(ts[1..]);
      u := BlockFrom(ts, line);
    } else {
      u := PlainFrom(ts);
    }
  }

  lemma BlockFrom(ts: seq<Tok>, line: Line) returns (u: Unit)
    requires ParseExec(ts).Good? && At(ts, '(') && LineOk(line) && ParseLine(ts[1..]).Good?
    requires ts[1..] == LineToks(line) + ParseLine(ts[1..]).rest && LineMeans(line, ParseLine(ts[1..]).cmd)
    ensures UnitOk(u) && ts == UnitToks(u) + ParseExec(ts).rest && UnitMeans(u, ParseExec(ts).cmd)
  {
    var inner := ParseLine(ts[1..]);
    var after, rest := inner.rest[1..], ParseExec(ts).rest;
    var redirs := RedirsFrom([], after);
    u := Block(line, redirs);
    assert ParseExec(ts) == Good(Wrap(inner.cmd, ParseRedirs([], after).list), ParseRedirs([], after).rest);
    assert ts == [Sym('(')] + ts[1..] && inner.rest == [Sym(')')] + after;
    hide ParseExec, ParseLine, ParseRedirs, LineToks, ItemToks, RedirsIn, LineMeans, RedirsOf, CoreOf, Wrap, Under;
    Empty(RedirsIn(redirs));
    WrapParts(inner.cmd, RedirsIn(redirs));
    RedirCount(redirs);
    Joins([Sym(')')], ItemToks(redirs), rest);
    Joins(LineToks(line), [Sym(')')] + ItemToks(redirs), rest);
    Joins([Sym('(')], LineToks(line) + ([Sym(')')] + ItemToks(redirs)), rest);
  }

  lemma {:induction false} RedirCount(items: seq<Item>)
    requires WordsIn(items) == []
    ensures |RedirsIn(items)| == |items|
  {
    if items != [] {
      RedirCount(items[1..]);
    }
  }

  lemma {:induction false} PipeFrom(ts: seq<Tok>) returns (p: Pipeline)
    requires ParsePipe(ts).Good?
    ensures PipeOk(p) && ts == PipeToks(p) + ParsePipe(ts).rest && PipeMeans(p, ParsePipe(ts).cmd)
    decreases |ts|, 2
  {
    var u := UnitFrom(ts);
    var l := ParseExec(ts);
    if !At(l.rest, '|') {
      p := One(u);
    } else {
      var more := PipeFrom(l.rest[1..]);
      p := Piped(u, more);
      assert l.rest == [Sym('|')] + l.rest[1..];
      var rest := ParsePipe(ts).rest;
      Joins([Sym('|')], PipeToks(more), rest);
      Joins(UnitToks(u), [Sym('|')] + PipeToks(more), rest);
    }
  }

  lemma {:induction false} BacksFrom(c: Cmd, ts: seq<Tok>) returns (n: nat)
    ensures var (d, rest) := Backs(c, ts); ts == Amps(n) + rest && HasBacks(d, n) && UnderBacks(d, n) == c
    decreases |ts|
  {
    if At(ts, '&') {
      var k := BacksFrom(Back(c), ts[1..]);
      n := k + 1;
      BacksAlso(Backs(c, ts).0, k);
      assert ts == [Sym('&')] + ts[1..];
      assert Amps(n) == [Sym('&')] + Amps(k);
      Joins([Sym('&')], Amps(k), Backs(c, ts).1);
    } else {
      n := 0;
      Empty(ts);
    }
  }

  /** Every text that is accepted, up to where the parser stops, is a line of the grammar. */
  lemma {:induction false} LineFrom(ts: seq<Tok>) returns (l: Line)
    requires ParseLine(ts).Good?
    ensures LineOk(l) && ts == LineToks(l) + ParseLine(ts).rest && LineMeans(l, ParseLine(ts).cmd)
    decreases |ts|, 3
  {
    var p := PipeFrom(ts);
    var r := ParsePipe(ts);
    var n := BacksFrom(r.cmd, r.rest);
    var (c, after) := Backs(r.cmd, r.rest);
    if !At(after, ';') {
      l := Last(p, n);
      Joins(PipeToks(p), Amps(n), after);
    } else {
      var next := LineFrom(after[1..]);
      l := Then(p, n, next);
      var rest := ParseLine(ts).rest;
      assert after == [Sym(';')] + after[1..];
      Joins([Sym(';')], LineToks(next), rest);
      Joins(Amps(n), [Sym(';')] + LineToks(next), rest);
      Joins(PipeToks(p), Amps(n) + ([Sym(';')] + LineToks(next)), rest);
    }
  }

  // ---- Whole commands ----

  /** The tokens are a line of the grammar that means `c`. */
  ghost predicate IsLine(ts: seq<Tok>, c: Cmd) {
    exists l :: LineOk(l) && LineToks(l) == ts && LineMeans(l, c)
  }

  /** The parser accepts a token sequence exactly if it is a line of the grammar, and yields the tree it means. */
  lemma ParsesExactly(ts: seq<Tok>, c: Cmd)
    ensures ParseCmd(ts) == Good(c, []) <==> IsLine(ts, c)
  {
    if ParseCmd(ts) == Good(c, []) {
      var l := LineFrom(ts);
      Empty(LineToks(l));
    }
    forall l | LineOk(l) && LineToks(l) == ts && LineMeans(l, c)
      ensures ParseCmd(ts) == Good(c, [])
    {
      LineParsesTo(l, []);
      Empty(ts);
      LineMeansOne(l, c, ParseLine(ts).cmd);
    }
  }

  /** So it is with text, however it is spaced. */
  lemma TextParses(l: Line, gaps: seq<string>)
    requires LineOk(l) && (forall t | t in LineToks(l) :: ValidTok(t))
    requires |gaps| == |LineToks(l)| + 1 && Apart(LineToks(l), gaps)
    ensures var r := ParseCmd(Lex(Laid(LineToks(l), gaps))); r.Good? && LineMeans(l, r.cmd)
  {
    LexLaid(LineToks(l), gaps);
    LineParsesTo(l, []);
    Empty(LineToks(l));
  }

  /** A simple command: its words and its redirections, in order, wherever the redirections stand. */
  lemma SimpleCommand(items: seq<Item>)
    requires OpsOk(items)
    ensures var r := ParseCmd(ItemToks(items));
            if |WordsIn(items)| < MAXARGS then
              r.Good? && CoreOf(r.cmd) == Exec(WordsIn(items)) && RedirsOf(r.cmd) == RedirsIn(items)
            else r == Bad(TooManyArgs)
  {
    hide ParseLine, ParseExec, ItemToks, WordsIn, RedirsIn, RedirsOf, CoreOf;
    var ts := ItemToks(items);
    Empty(ts);
    if |WordsIn(items)| < MAXARGS {
      PlainParses(items, []);
      LineOfExec(ts, ParseExec(ts).cmd, []);
    } else {
      ItemsParse([], [], items, []);
      TooMany(items);
    }
  }

  lemma TooMany(items: seq<Item>)
    requires ParseItems([], [], ItemToks(items) + [], WordsIn(items), RedirsIn(items), [])
    requires |WordsIn(items)| >= MAXARGS && !At(ItemToks(items) + [], '(')
    ensures ParseLine(ItemToks(items)) == Bad(TooManyArgs)
  {
    hide ItemToks, WordsIn, RedirsIn, ParseArgs, ParseRedirs;
    Empty(ItemToks(items));
    assert ParseExec(ItemToks(items)) == Bad(TooManyArgs);
  }
}
