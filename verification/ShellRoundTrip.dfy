/** Every tree is what the parser makes of its canonical text. */
module ShellRoundTrip {
  import opened ShellSyntax

  predicate ValidTok(t: Tok) {
    match t case Sym(c) => IsSymbol(c) case Append => true case Word(w) => IsWord(w)
  }

  // ---- Text to tokens ----

  lemma {:induction false} WordLenIs(w: string, rest: string)
    requires forall i | 0 <= i < |w| :: InWord(w[i])
    requires rest == "" || !InWord(rest[0])
    ensures WordLen(w + rest) == |w|
  {
    if w == "" {
      assert w + rest == rest;
    } else {
      assert (w + rest)[1..] == w[1..] + rest;
      WordLenIs(w[1..], rest);
    }
  }

  lemma LexOne(t: Tok, more: string)
    requires ValidTok(t)
    ensures Lex(Spelling(t) + " " + more) == [t] + Lex(more)
  {
    var tail := " " + more;
    var s := Spelling(t) + tail;
    assert tail[1..] == more && Lex(tail) == Lex(more);
    match t {
      case Sym(c) => assert s[1..] == tail && s[0] == c && s[1] == ' ';
      case Append => assert s[2..] == tail && s[0] == '>' && s[1] == '>';
      case Word(w) =>
        WordLenIs(w, tail);
        assert s[..|w|] == w && s[|w|..] == tail && s[0] == w[0] && InWord(s[0]);
    }
    assert s == Spelling(t) + " " + more;
  }

  lemma {:induction false} LexSpell(ts: seq<Tok>)
    requires forall t | t in ts :: ValidTok(t)
    ensures Lex(Spell(ts)) == ts
  {
    if ts != [] {
      assert ts[0] in ts;
      LexSpell(ts[1..]);
      LexOne(ts[0], Spell(ts[1..]));
    }
  }

  lemma {:induction c} CanonicalToks(c: Cmd)
    requires Valid(c)
    ensures forall t | t in Canonical(c) :: ValidTok(t)
  {
  }

  // ---- Tokens to trees ----

  /** What may follow a canonical command. */
  predicate Ends(rest: seq<Tok>) {
    rest == [] || At(rest, ')')
  }

  lemma WordsThenEnd(argv: seq<string>, rest: seq<Tok>)
    requires Ends(rest)
    ensures !AtRedir(Words(argv) + rest)
  {
    var ts := Words(argv) + rest;
    assert argv == [] ==> ts == rest;
    assert argv != [] ==> ts[0] == Word(argv[0]);
  }

  lemma {:induction false} ArgsParse(done: seq<string>, argv: seq<string>, rest: seq<Tok>)
    requires |done| + |argv| < MAXARGS && Ends(rest)
    ensures ParseArgs(done, [], Words(argv) + rest) == Good(Exec(done + argv), rest)
    decreases |argv|
  {
    var ts := Words(argv) + rest;
    if argv == [] {
      assert ts == rest && done + argv == done;
    } else {
      assert ts[0] == Word(argv[0]) && ts[1..] == Words(argv[1..]) + rest;
      WordsThenEnd(argv[1..], rest);
      ArgsParse(done + [argv[0]], argv[1..], rest);
      assert done + [argv[0]] + argv[1..] == done + argv;
    }
  }

  /** A parenthesised command parses as a block, whatever follows. */
  lemma {:induction false} BlockParses(c: Cmd, rest: seq<Tok>)
    requires Valid(c) && !AtRedir(rest)
    ensures ParseExec(Paren(Canonical(c)) + rest) == Good(c, rest)
    decreases c, 2
  {
    var ts := Paren(Canonical(c)) + rest;
    var close := [Sym(')')] + rest;
    assert ts[0] == Sym('(') && ts[1..] == Canonical(c) + close;
    LineParses(c, close);
    assert close[1..] == rest;
  }

  lemma PipeOfBlock(c: Cmd, rest: seq<Tok>)
    requires ParseExec(Paren(Canonical(c)) + rest) == Good(c, rest) && !At(rest, '|')
    ensures ParsePipe(Paren(Canonical(c)) + rest) == Good(c, rest)
  {
  }

  /** After one block, the line ends or goes on with an operator and a second block. */
  lemma LineOfBlocks(l: Cmd, op: char, r: Cmd, rest: seq<Tok>)
    requires (op == '|' || op == ';') && Ends(rest)
    requires var more := [Sym(op)] + (Paren(Canonical(r)) + rest);
             ParseExec(Paren(Canonical(l)) + more) == Good(l, more)
    requires ParseExec(Paren(Canonical(r)) + rest) == Good(r, rest)
    ensures ParseLine(Paren(Canonical(l)) + ([Sym(op)] + (Paren(Canonical(r)) + rest))) ==
            Good(if op == '|' then Pipe(l, r) else List(l, r), rest)
  {
    var second := Paren(Canonical(r)) + rest;
    var more := [Sym(op)] + second;
    assert more[1..] == second && At(more, op);
    PipeOfBlock(r, rest);
    if op == ';' {
      PipeOfBlock(l, more);
      assert ParseLine(second) == Good(r, rest);
    } else {
      assert ParsePipe(Paren(Canonical(l)) + more) == Good(Pipe(l, r), rest);
    }
  }

  lemma {:induction false} LineParses(c: Cmd, rest: seq<Tok>)
    requires Valid(c) && Ends(rest)
    ensures ParseLine(Canonical(c) + rest) == Good(c, rest)
    decreases c, 1
  {
    hide Canonical, ParseLine, Ends;
    match c
    case Exec(argv) => ExecLineParses(argv, rest);
    case Redir(d, file, mode, fd) => RedirParses(d, file, mode, fd, rest);
    case Pipe(l, r) => PairParses(l, '|', r, rest);
    case List(l, r) => PairParses(l, ';', r, rest);
    case Back(d) => BackParses(d, rest);
  }

  lemma {:induction false} PairParses(l: Cmd, op: char, r: Cmd, rest: seq<Tok>)
    requires (op == '|' || op == ';') && Valid(l) && Valid(r) && Ends(rest)
    ensures var c := if op == '|' then Pipe(l, r) else List(l, r);
            ParseLine(Canonical(c) + rest) == Good(c, rest)
    decreases if op == '|' then Pipe(l, r) else List(l, r), 0
  {
    var more := [Sym(op)] + (Paren(Canonical(r)) + rest);
    BlockParses(l, more);
    BlockParses(r, rest);
    LineOfBlocks(l, op, r, rest);
    PairText(l, op, r, rest);
  }

  lemma PairText(l: Cmd, op: char, r: Cmd, rest: seq<Tok>)
    requires op == '|' || op == ';'
    ensures Canonical(if op == '|' then Pipe(l, r) else List(l, r)) + rest
            == Paren(Canonical(l)) + ([Sym(op)] + (Paren(Canonical(r)) + rest))
  {
  }

  lemma {:induction false} BackParses(d: Cmd, rest: seq<Tok>)
    requires Valid(d) && Ends(rest)
    ensures ParseLine(Canonical(Back(d)) + rest) == Good(Back(d), rest)
    decreases Back(d), 0
  {
    var more := [Sym('&')] + rest;
    BlockParses(d, more);
    PipeOfBlock(d, more);
    assert Canonical(Back(d)) + rest == Paren(Canonical(d)) + more;
    assert more[1..] == rest && Backs(Back(d), rest) == (Back(d), rest);
  }

  lemma ExecLineParses(argv: seq<string>, rest: seq<Tok>)
    requires Valid(Exec(argv)) && Ends(rest)
    ensures ParseLine(Canonical(Exec(argv)) + rest) == Good(Exec(argv), rest)
  {
    var ts := Words(argv) + rest;
    ArgsParse([], argv, rest);
    assert argv != [] ==> ts[0] == Word(argv[0]);
    assert argv == [] ==> ts == rest;
    assert !AtRedir(ts) && !At(ts, '(');
    assert [] + argv == argv;
    assert ParseExec(ts) == Good(Exec(argv), rest);
  }

  lemma OneRedir(sym: char, file: string, rest: seq<Tok>)
    requires (sym == '<' || sym == '>') && Ends(rest)
    ensures ParseRedirs([], [Sym(sym), Word(file)] + rest) == Redirected([RedirOf(Sym(sym), file)], rest)
  {
    var more, rs := [Sym(sym), Word(file)] + rest, [RedirOf(Sym(sym), file)];
    assert more[2..] == rest && [] + rs == rs;
    assert ParseRedirs(rs, rest) == Redirected(rs, rest);
  }

  lemma WrapOne(c: Cmd, r: Redirection)
    ensures Wrap(c, [r]) == Redir(c, r.file, r.mode, r.fd)
  {
    assert [r][..0] == [];
  }

  lemma {:induction false} RedirParses(d: Cmd, file: string, mode: int, fd: int, rest: seq<Tok>)
    requires Valid(Redir(d, file, mode, fd)) && Ends(rest)
    ensures ParseLine(Canonical(Redir(d, file, mode, fd)) + rest) == Good(Redir(d, file, mode, fd), rest)
    decreases d, 3
  {
    var c, sym := Redir(d, file, mode, fd), if fd == 0 then '<' else '>';
    var ts, more := Canonical(c) + rest, [Sym(sym), Word(file)] + rest;
    var close := [Sym(')')] + more;
    assert ts[0] == Sym('(') && ts[1..] == Canonical(d) + close && close[1..] == more;
    LineParses(d, close);
    OneRedir(sym, file, rest);
    WrapOne(d, RedirOf(Sym(sym), file));
    assert ParseExec(ts) == Good(c, rest);
    LineOfExec(ts, c, rest);
  }

  lemma LineOfExec(ts: seq<Tok>, c: Cmd, rest: seq<Tok>)
    requires ParseExec(ts) == Good(c, rest) && Ends(rest)
    ensures ParseLine(ts) == Good(c, rest)
  {
    assert ParsePipe(ts) == Good(c, rest);
  }

  /** Parsing the canonical text of a tree gives that tree. */
  lemma RoundTrip(c: Cmd)
    requires Valid(c)
    ensures ParseCmd(Lex(Spell(Canonical(c)))) == Good(c, [])
  {
    CanonicalToks(c);
    LexSpell(Canonical(c));
    LineParses(c, []);
    assert Canonical(c) + [] == Canonical(c);
  }

  // ---- And back: whatever parses is a valid tree ----

  lemma {:induction false} LexValid(t: string)
    ensures forall x | x in Lex(t) :: ValidTok(x)
    decreases |t|
  {
    if t != "" {
      if IsSpace(t[0]) {
        LexValid(t[1..]);
      } else if t[0] == '>' && |t| > 1 && t[1] == '>' {
        LexValid(t[2..]);
      } else if IsSymbol(t[0]) {
        LexValid(t[1..]);
      } else {
        assert InWord(t[0]);
        LexValid(t[WordLen(t)..]);
      }
    }
  }

  predicate ValidToks(ts: seq<Tok>) {
    forall i | 0 <= i < |ts| :: ValidTok(ts[i])
  }

  predicate ValidRedirs(rs: seq<Redirection>) {
    forall i | 0 <= i < |rs| ::
      IsWord(rs[i].file) && ((rs[i].mode == O_RDONLY && rs[i].fd == 0)
        || (rs[i].mode == O_WRONLY_CREATE && rs[i].fd == 1))
  }

  lemma {:induction false} WrapValid(c: Cmd, rs: seq<Redirection>)
    requires Valid(c) && ValidRedirs(rs)
    ensures Valid(Wrap(c, rs))
    decreases |rs|
  {
    if rs != [] {
      WrapValid(c, rs[..|rs| - 1]);
    }
  }

  lemma {:induction false} RedirsValid(done: seq<Redirection>, ts: seq<Tok>)
    requires ValidRedirs(done) && ValidToks(ts)
    ensures var r := ParseRedirs(done, ts); r.Redirected? ==> ValidRedirs(r.list) && ValidToks(r.rest)
    decreases |ts|
  {
    if AtRedir(ts) && |ts| >= 2 && ts[1].Word? {
      RedirsValid(done + [RedirOf(ts[0], ts[1].w)], ts[2..]);
    }
  }

  lemma {:induction false} ArgsValid(argv: seq<string>, rs: seq<Redirection>, ts: seq<Tok>)
    requires |argv| < MAXARGS && (forall w | w in argv :: IsWord(w)) && ValidRedirs(rs) && ValidToks(ts)
    ensures var r := ParseArgs(argv, rs, ts); r.Good? ==> Valid(r.cmd) && ValidToks(r.rest)
    decreases |ts|
  {
    if AtStop(ts) || ts == [] {
      WrapValid(Exec(argv), rs);
    } else if ts[0].Word? && |argv| + 1 < MAXARGS {
      RedirsValid(rs, ts[1..]);
      var r := ParseRedirs(rs, ts[1..]);
      if r.Redirected? {
        ArgsValid(argv + [ts[0].w], r.list, r.rest);
      }
    }
  }

  lemma {:induction false} ExecValid(ts: seq<Tok>)
    requires ValidToks(ts)
    ensures var r := ParseExec(ts); r.Good? ==> Valid(r.cmd) && ValidToks(r.rest)
    decreases |ts|, 1
  {
    if At(ts, '(') {
      LineValid(ts[1..]);
      var inner := ParseLine(ts[1..]);
      if inner.Good? && At(inner.rest, ')') {
        RedirsValid([], inner.rest[1..]);
        var r := ParseRedirs([], inner.rest[1..]);
        if r.Redirected? {
          WrapValid(inner.cmd, r.list);
        }
      }
    } else {
      RedirsValid([], ts);
      var r := ParseRedirs([], ts);
      if r.Redirected? {
        ArgsValid([], r.list, r.rest);
      }
    }
  }

  lemma {:induction false} PipeValid(ts: seq<Tok>)
    requires ValidToks(ts)
    ensures var r := ParsePipe(ts); r.Good? ==> Valid(r.cmd) && ValidToks(r.rest)
    decreases |ts|, 2
  {
    ExecValid(ts);
    var l := ParseExec(ts);
    if l.Good? && At(l.rest, '|') {
      PipeValid(l.rest[1..]);
    }
  }

  lemma {:induction false} BacksValid(c: Cmd, ts: seq<Tok>)
    requires Valid(c) && ValidToks(ts)
    ensures Valid(Backs(c, ts).0) && ValidToks(Backs(c, ts).1)
    decreases |ts|
  {
    if At(ts, '&') {
      BacksValid(Back(c), ts[1..]);
    }
  }

  lemma {:induction false} LineValid(ts: seq<Tok>)
    requires ValidToks(ts)
    ensures var r := ParseLine(ts); r.Good? ==> Valid(r.cmd) && ValidToks(r.rest)
    decreases |ts|, 3
  {
    PipeValid(ts);
    var p := ParsePipe(ts);
    if p.Good? {
      BacksValid(p.cmd, p.rest);
      var rest := Backs(p.cmd, p.rest).1;
      if At(rest, ';') {
        LineValid(rest[1..]);
      }
    }
  }

  /** Any line that parses means the same as its canonical text. */
  lemma AcceptedLinesAreCanonical(line: string)
    ensures var r := ParseCmd(Lex(line));
            r.Good? ==> Valid(r.cmd) && ParseCmd(Lex(Spell(Canonical(r.cmd)))) == r
  {
    LexValid(line);
    LineValid(Lex(line));
    var r := ParseCmd(Lex(line));
    if r.Good? {
      RoundTrip(r.cmd);
    }
  }
}
