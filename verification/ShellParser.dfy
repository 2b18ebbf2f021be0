/** The parser of part1/sh.c: a pointer that moves along the line, and NULs written into it at the end. */
module ShellParser {
  import opened ShellSyntax
  import opened ShellNodes
  import ShellGrammar

  datatype Result = Fine(node: Node) | Fail(error: Error)

  datatype RedirSpan = RedirSpan(file: Span, mode: int, fd: int)

  /** The first character of the next token is one of `toks`. */
  predicate AtAny(ts: seq<Tok>, toks: string) {
    ts != [] && match ts[0] case Sym(d) => d in toks case Append => '>' in toks case Word(_) => false
  }

  function WrapNode(n: Node, rs: seq<RedirSpan>): (r: Node) {
    if rs == [] then n
    else
      var last := rs[|rs| - 1];
      RedirNode(WrapNode(n, rs[..|rs| - 1]), last.file, last.mode, last.fd)
  }

  function ResolveRedirs(line: string, rs: seq<RedirSpan>): (r: seq<Redirection>)
    ensures |r| == |rs|
    ensures forall i | 0 <= i < |rs| :: r[i] == Redirection(Text(line, rs[i].file), rs[i].mode, rs[i].fd)
  {
    seq(|rs|, i requires 0 <= i < |rs| => Redirection(Text(line, rs[i].file), rs[i].mode, rs[i].fd))
  }

  ghost predicate RedirTokens(line: string, rs: seq<RedirSpan>) {
    forall i | 0 <= i < |rs| :: IsToken(line, rs[i].file)
  }

  lemma {:induction false} WrapResolves(line: string, n: Node, rs: seq<RedirSpan>)
    requires Tokens(line, n) && RedirTokens(line, rs)
    ensures Resolve(line, WrapNode(n, rs)) == Wrap(Resolve(line, n), ResolveRedirs(line, rs))
    ensures Tokens(line, WrapNode(n, rs))
    decreases |rs|
  {
    if rs != [] {
      var init := rs[..|rs| - 1];
      WrapResolves(line, n, init);
      assert ResolveRedirs(line, rs)[..|rs| - 1] == ResolveRedirs(line, init);
    }
  }

  lemma AppendRedir(line: string, rs: seq<RedirSpan>, r: RedirSpan)
    ensures ResolveRedirs(line, rs + [r]) == ResolveRedirs(line, rs) + [Redirection(Text(line, r.file), r.mode, r.fd)]
  {
  }

  lemma RedirsStep(done: seq<Redirection>, ts: seq<Tok>)
    ensures if !AtAny(ts, "<>") then ParseRedirs(done, ts) == Redirected(done, ts)
            else if |ts| < 2 || !ts[1].Word? then ParseRedirs(done, ts) == BadRedir
            else ParseRedirs(done, ts) == ParseRedirs(done + [RedirOf(ts[0], ts[1].w)], ts[2..])
  {
    assert AtAny(ts, "<>") <==> AtRedir(ts);
  }

  lemma NotAtEnd(ts: seq<Tok>, toks: string)
    requires AtAny(ts, toks)
    ensures ts != []
  {
  }

  lemma LexSkip(line: string, s: nat)
    requires s < |line| && IsSpace(line[s])
    ensures Lex(line[s..]) == Lex(line[s + 1..])
  {
    assert line[s..][1..] == line[s + 1..];
  }

  lemma {:induction false} WordLenAt(line: string, q: nat, e: nat)
    requires q <= e <= |line| && (forall i | q <= i < e :: InWord(line[i])) && (e < |line| ==> !InWord(line[e]))
    ensures WordLen(line[q..]) == e - q
    decreases e - q
  {
    if q < e {
      assert line[q..][1..] == line[q + 1..];
      WordLenAt(line, q + 1, e);
    }
  }

  lemma LexWord(line: string, q: nat, e: nat)
    requires IsToken(line, Span(q, e))
    ensures Lex(line[q..]) == [Word(line[q..e])] + Lex(line[e..])
  {
    WordLenAt(line, q, e);
    assert InWord(line[q..][0]);
    assert line[q..][..e - q] == line[q..e] && line[q..][e - q..] == line[e..];
  }

  lemma LexSymbol(line: string, q: nat)
    requires q < |line| && IsSymbol(line[q])
    ensures if line[q] == '>' && q + 1 < |line| && line[q + 1] == '>' then
              Lex(line[q..]) == [Append] + Lex(line[q + 2..])
            else Lex(line[q..]) == [Sym(line[q])] + Lex(line[q + 1..])
  {
    assert line[q..][1..] == line[q + 1..];
    assert q + 1 < |line| ==> line[q..][2..] == line[q + 2..] && line[q..][1] == line[q + 1];
  }

  /** At a character that is no space, the next token starts there. */
  lemma LexHead(line: string, s: nat, toks: string)
    requires s <= |line| && (s < |line| ==> !IsSpace(line[s])) && forall c | c in toks :: IsSymbol(c)
    ensures AtAny(Lex(line[s..]), toks) <==> s < |line| && line[s] in toks
    ensures Lex(line[s..]) == [] <==> s == |line|
  {
    if s < |line| {
      if IsSymbol(line[s]) {
        LexSymbol(line, s);
      } else {
        var k := WordLen(line[s..]);
        assert InWord(line[s..][0]);
        assert Lex(line[s..])[0].Word?;
      }
    }
  }

  /** The method's outcome is the specification's. */
  ghost predicate Agrees(r: Result, line: string, rest: seq<Tok>, spec: Parsed) {
    match r
    case Fail(e) => spec == Bad(e)
    case Fine(n) => spec == Good(Resolve(line, n), rest) && Tokens(line, n)
  }

  lemma AgreesFail(e: Error, line: string, rest: seq<Tok>, spec: Parsed)
    requires spec == Bad(e)
    ensures Agrees(Fail(e), line, rest, spec)
  {
  }

  ghost predicate ArgTokens(line: string, args: seq<Span>) {
    forall i | 0 <= i < |args| :: IsToken(line, args[i])
  }

  /** The arrays hold the spans found so far. */
  ghost predicate Entries(argv: seq<int>, eargv: seq<int>, args: seq<Span>) {
    |args| <= |argv| == |eargv| && forall i | 0 <= i < |args| :: argv[i] == args[i].q && eargv[i] == args[i].eq
  }

  lemma NoTokens(line: string)
    ensures ArgTokens(line, [])
  {
  }

  lemma AppendText(line: string, args: seq<Span>, sp: Span)
    ensures Texts(line, args + [sp]) == Texts(line, args) + [Text(line, sp)]
    ensures ArgTokens(line, args) && IsToken(line, sp) ==> ArgTokens(line, args + [sp])
  {
  }

  lemma ResolveConcat(line: string, rs: seq<RedirSpan>, more: seq<RedirSpan>)
    ensures ResolveRedirs(line, rs + more) == ResolveRedirs(line, rs) + ResolveRedirs(line, more)
    ensures RedirTokens(line, rs) && RedirTokens(line, more) ==> RedirTokens(line, rs + more)
  {
  }

  lemma ArgsStep(argv: seq<string>, rs: seq<Redirection>, ts: seq<Tok>)
    requires |argv| < MAXARGS
    ensures if AtAny(ts, "|)&;") || ts == [] then ParseArgs(argv, rs, ts) == Good(Wrap(Exec(argv), rs), ts)
            else if !ts[0].Word? then ParseArgs(argv, rs, ts) == Bad(Syntax)
            else if |argv| + 1 >= MAXARGS then ParseArgs(argv, rs, ts) == Bad(TooManyArgs)
            else
              var r := ParseRedirs(rs, ts[1..]);
              ParseArgs(argv, rs, ts) ==
              if r.BadRedir? then Bad(MissingFile) else ParseArgs(argv + [ts[0].w], r.list, r.rest)
  {
    assert AtAny(ts, "|)&;") <==> AtStop(ts);
  }

  lemma ExecAgrees(line: string, args: seq<Span>, rs: seq<RedirSpan>, rest: seq<Tok>, spec: Parsed)
    requires ArgTokens(line, args) && RedirTokens(line, rs)
    requires spec == Good(Wrap(Exec(Texts(line, args)), ResolveRedirs(line, rs)), rest)
    ensures Agrees(Fine(WrapNode(ExecNode(args), rs)), line, rest, spec)
  {
    assert Tokens(line, ExecNode(args));
    WrapResolves(line, ExecNode(args), rs);
  }

  lemma BothTokens(line: string, l: Node, r: Node)
    requires Tokens(line, l) && Tokens(line, r)
    ensures Tokens(line, PipeNode(l, r)) && Tokens(line, ListNode(l, r))
  {
  }

  lemma OneToken(line: string, n: Node)
    requires Tokens(line, n)
    ensures Tokens(line, BackNode(n))
  {
  }

  lemma EndsInBuffer(line: string, n: Node)
    requires Tokens(line, n)
    ensures forall sp | HasSpan(n, sp) :: sp.eq <= |line|
  {
    forall sp | HasSpan(n, sp)
      ensures sp.eq <= |line|
    {
      assert IsToken(line, sp);
    }
  }

  ghost predicate EndsAmong(args: seq<Span>, k: int) {
    exists i :: 0 <= i < |args| && args[i].eq == k
  }

  lemma EndsAmongNext(args: seq<Span>, i: nat)
    requires i < |args|
    ensures forall k :: EndsAmong(args[..i + 1], k) <==> EndsAmong(args[..i], k) || k == args[i].eq
  {
    forall k
      ensures EndsAmong(args[..i + 1], k) <==> EndsAmong(args[..i], k) || k == args[i].eq
    {
      if EndsAmong(args[..i], k) {
        var j :| 0 <= j < i && args[..i][j].eq == k;
        assert args[..i + 1][j].eq == k;
      }
      if k == args[i].eq {
        assert args[..i + 1][i].eq == k;
      }
      if EndsAmong(args[..i + 1], k) && k != args[i].eq {
        var j :| 0 <= j < i + 1 && args[..i + 1][j].eq == k;
        assert args[..i][j].eq == k;
      }
    }
  }

  lemma EndsAmongAll(args: seq<Span>)
    ensures args[..|args|] == args && forall k :: EndsAmong(args, k) <==> EndsSpan(ExecNode(args), k)
  {
    forall k
      ensures EndsAmong(args, k) <==> EndsSpan(ExecNode(args), k)
    {
      if EndsAmong(args, k) {
        var i :| 0 <= i < |args| && args[i].eq == k;
        assert HasSpan(ExecNode(args), args[i]);
      }
    }
  }

  lemma NulledOne(b: seq<char>, b': seq<char>, sp: Span)
    requires sp.eq < |b| && b' == b[sp.eq := '\0']
    ensures Nulled(b, b', ExecNode([sp]))
  {
    assert HasSpan(ExecNode([sp]), sp);
  }

  class Parser {
    const buf: array<char>
    const es: nat                          // the terminating NUL
    var s: nat

    ghost predicate Valid()
      reads this, buf
    {
      s <= es < buf.Length && buf[es] == '\0' && forall i | 0 <= i < es :: buf[i] != '\0'
    }

    ghost function Line(): string
      reads this, buf
      requires Valid()
    {
      buf[..es]
    }

    ghost function Rest(): seq<Tok>
      reads this, buf
      requires Valid()
    {
      Lex(Line()[s..])
    }

    constructor (buf: array<char>, es: nat)
      requires es < buf.Length && buf[es] == '\0' && forall i | 0 <= i < es :: buf[i] != '\0'
      ensures Valid() && this.buf == buf && this.es == es && Rest() == Lex(buf[..es])
    {
      this.buf, this.es, s := buf, es, 0;
      new;
      assert Line()[0..] == Line();
    }

    method SkipSpace()
      requires Valid()
      modifies this`s
      ensures Valid() && old(s) <= s && Rest() == old(Rest())
      ensures s < es ==> !IsSpace(buf[s])
    {
      hide Lex;
      while s < es && IsSpace(buf[s])
        invariant Valid() && old(s) <= s && Rest() == old(Rest())
      {
        LexSkip(Line(), s);
        s := s + 1;
      }
    }

    /** peek. */
    method Peek(toks: string) returns (b: bool)
      requires Valid() && forall c | c in toks :: IsSymbol(c)
      modifies this`s
      ensures Valid() && old(s) <= s && Rest() == old(Rest())
      ensures b <==> AtAny(Rest(), toks)
      ensures s == es <==> Rest() == []
    {
      hide Lex;
      SkipSpace();
      LexHead(Line(), s, toks);
      b := buf[s] != '\0' && buf[s] in toks;
    }

    /** The loop of gettoken that moves to the end of a word. */
    method TakeWord()
      requires Valid() && s < es && InWord(buf[s])
      modifies this`s
      ensures Valid() && IsToken(Line(), Span(old(s), s))
    {
      hide Lex;
      ghost var q := s;
      while s < es && !IsSpace(buf[s]) && !IsSymbol(buf[s])
        invariant q <= s <= es && (s == q ==> InWord(buf[s])) && forall i | q <= i < s :: InWord(buf[i])
      {
        s := s + 1;
      }
    }

    /** gettoken: takes one token off the line. */
    method GetToken() returns (ret: char, q: nat, eq: nat)
      requires Valid()
      modifies this`s
      ensures Valid() && old(s) <= s
      ensures if old(Rest()) == [] then ret == '\0' && Rest() == []
              else
                && old(s) < s && Rest() == old(Rest())[1..]
                && match old(Rest())[0]
                   case Sym(c) => IsSymbol(c) && ret == c
                   case Append => ret == '+'
                   case Word(w) => ret == 'a' && IsToken(Line(), Span(q, eq)) && w == Line()[q..eq]
    {
      hide Lex, IsSpace;
      SkipSpace();
      LexHead(Line(), s, "");
      ghost var line, ts := Line(), Rest();
      q := s;
      ret := buf[s];
      if ret == '\0' {
      } else if IsSymbol(ret) {
        LexSymbol(line, s);
        s := s + 1;
        if ret == '>' && buf[s] == '>' {
          ret := '+';
          s := s + 1;
        }
      } else {
        ret := 'a';
        TakeWord();
        LexWord(line, q, s);
      }
      eq := s;
      assert ts == [] || ts == [ts[0]] + Lex(line[s..]);
      SkipSpace();
    }

    /** parseredirs: the redirections at the pointer, in order. */
    method ParseRedirections(ghost done: seq<Redirection>) returns (ok: bool, rs: seq<RedirSpan>)
      requires Valid()
      modifies this`s
      ensures Valid() && old(s) <= s
      ensures ok <==> ParseRedirs(done, old(Rest())).Redirected?
      ensures ok ==>
                && RedirTokens(Line(), rs)
                && ParseRedirs(done, old(Rest())) == Redirected(done + ResolveRedirs(Line(), rs), Rest())
    {
      hide Lex, ParseRedirs, ResolveRedirs, AtAny;
      rs := [];
      assert done + ResolveRedirs(Line(), rs) == done;
      while true
        invariant Valid() && old(s) <= s && RedirTokens(Line(), rs)
        invariant ParseRedirs(done, old(Rest())) == ParseRedirs(done + ResolveRedirs(Line(), rs), Rest())
        decreases es - s
      {
        ghost var ts, sofar := Rest(), done + ResolveRedirs(Line(), rs);
        RedirsStep(sofar, ts);
        var b := Peek("<>");
        if !b {
          return true, rs;
        }
        assert ts != [] by {
          NotAtEnd(ts, "<>");
        }
        var tok, _, _ := GetToken();
        var ret, q, eq := GetToken();
        if ret != 'a' {
          return false, [];
        }
        var r := if tok == '<' then RedirSpan(Span(q, eq), O_RDONLY, 0) else RedirSpan(Span(q, eq), O_WRONLY_CREATE, 1);
        AppendRedir(Line(), rs, r);
        assert Text(Line(), r.file) == ts[1].w && Redirection(ts[1].w, r.mode, r.fd) == RedirOf(ts[0], ts[1].w);
        assert ts[2..] == ts[1..][1..];
        rs := rs + [r];
        assert done + ResolveRedirs(Line(), rs) == sofar + [RedirOf(ts[0], ts[1].w)];
      }
    }

    /** The word at the pointer, unless the arguments end here. */
    method NextWord() returns (stop: bool, word: bool, sp: Span)
      requires Valid()
      modifies this`s
      ensures Valid() && old(s) <= s
      ensures stop <==> AtAny(old(Rest()), "|)&;") || old(Rest()) == []
      ensures stop ==> Rest() == old(Rest())
      ensures !stop ==> old(s) < s && Rest() == old(Rest())[1..] && (word <==> old(Rest())[0].Word?)
      ensures !stop && word ==> IsToken(Line(), sp) && old(Rest())[0].w == Text(Line(), sp)
    {
      hide Lex, AtAny;
      var b := Peek("|)&;");
      if b {
        return true, false, Span(0, 0);
      }
      ghost var ts := Rest();
      var tok, q, eq := GetToken();
      if tok == '\0' {
        return true, false, Span(0, 0);
      }
      return false, tok == 'a', Span(q, eq);
    }

    /** parseexec's argument loop; argv and eargv are arrays of MAXARGS entries. */
    method ParseArguments(first: seq<RedirSpan>) returns (r: Result)
      requires Valid() && RedirTokens(Line(), first)
      modifies this`s
      ensures Valid() && old(s) <= s
      ensures Agrees(r, Line(), Rest(), ParseArgs([], ResolveRedirs(Line(), first), old(Rest())))
    {
      hide Lex, ParseArgs, ParseRedirs, Wrap, WrapNode, Texts, ResolveRedirs, AtAny, Agrees;
      hide IsToken, ArgTokens, RedirTokens, Text;
      var argv, eargv := new int[MAXARGS](_ => -1), new int[MAXARGS](_ => -1);
      var argc := 0;
      var args: seq<Span>, rs := [], first;
      ghost var line, spec := Line(), ParseArgs([], ResolveRedirs(Line(), first), Rest());
      assert Texts(line, []) == [];
      NoTokens(line);
      var going := true;
      while going
        invariant Valid() && old(s) <= s && argc == |args| < MAXARGS
        invariant Entries(argv[..], eargv[..], args) && ArgTokens(line, args) && RedirTokens(line, rs)
        invariant spec == ParseArgs(Texts(line, args), ResolveRedirs(line, rs), Rest())
        invariant !going ==> spec == Good(Wrap(Exec(Texts(line, args)), ResolveRedirs(line, rs)), Rest())
        decreases going, es - s
      {
        ArgsStep(Texts(line, args), ResolveRedirs(line, rs), Rest());
        var stop, word, sp := NextWord();
        going := !stop;
        if going {
          if !word {
            AgreesFail(Syntax, line, Rest(), spec);
            return Fail(Syntax);
          }
          argv[argc] := sp.q;
          eargv[argc] := sp.eq;
          argc := argc + 1;
          if argc >= MAXARGS {
            AgreesFail(TooManyArgs, line, Rest(), spec);
            return Fail(TooManyArgs);
          }
          var ok, more := ParseRedirections(ResolveRedirs(line, rs));
          if !ok {
            AgreesFail(MissingFile, line, Rest(), spec);
            return Fail(MissingFile);
          }
          AppendText(line, args, sp);
          ResolveConcat(line, rs, more);
          args, rs := args + [sp], rs + more;
        }
      }
      argv[argc], eargv[argc] := -1, -1;
      ExecAgrees(line, args, rs, Rest(), spec);
      return Fine(WrapNode(ExecNode(args), rs));
    }

    /** parseblock; its first panic is unreachable. */
    method Block() returns (r: Result)
      requires Valid() && At(Rest(), '(')
      modifies this`s
      ensures Valid() && old(s) <= s && Agrees(r, Line(), Rest(), ParseBlock(old(Rest())))
      decreases es - s, 0
    {
      hide Lex, ParseLine, ParseRedirs, Resolve, Tokens, WrapNode, ResolveRedirs, Wrap, RedirTokens;
      ghost var line, ts := Line(), Rest();
      var b := Peek("(");
      assert b;
      var _, _, _ := GetToken();
      r := ParseLineAt();
      if r.Fine? {
        ghost var inner := ParseLine(ts[1..]);
        b := Peek(")");
        if !b {
          return Fail(MissingParen);
        }
        var _, _, _ := GetToken();
        ghost var rest := Rest();
        var ok, rs := ParseRedirections([]);
        if !ok {
          return Fail(MissingFile);
        }
        WrapResolves(line, r.node, rs);
        assert [] + ResolveRedirs(line, rs) == ResolveRedirs(line, rs);
        r := Fine(WrapNode(r.node, rs));
      }
    }

    /** parseexec. */
    method ParseExecAt() returns (r: Result)
      requires Valid()
      modifies this`s
      ensures Valid() && old(s) <= s && Agrees(r, Line(), Rest(), ParseExec(old(Rest())))
      decreases es - s, 1
    {
      hide Lex, ParseArgs, ParseBlock, ParseRedirs, Resolve, Tokens;
      var b := Peek("(");
      if b {
        r := Block();
      } else {
        var ok, rs := ParseRedirections([]);
        if !ok {
          return Fail(MissingFile);
        }
        assert [] + ResolveRedirs(Line(), rs) == ResolveRedirs(Line(), rs);
        r := ParseArguments(rs);
      }
    }

    /** parsepipe. */
    method ParsePipeAt() returns (r: Result)
      requires Valid()
      modifies this`s
      ensures Valid() && old(s) <= s && Agrees(r, Line(), Rest(), ParsePipe(old(Rest())))
      decreases es - s, 2
    {
      hide Lex, ParseExec, Tokens, IsToken;
      ghost var line := Line();
      r := ParseExecAt();
      if r.Fine? {
        ghost var left := r.node;
        var b := Peek("|");
        if b {
          var _, _, _ := GetToken();
          var right := ParsePipeAt();
          if right.Fail? {
            return right;
          }
          BothTokens(line, r.node, right.node);
          r := Fine(PipeNode(r.node, right.node));
        }
      }
    }

    /** parseline. */
    method ParseLineAt() returns (r: Result)
      requires Valid()
      modifies this`s
      ensures Valid() && old(s) <= s && Agrees(r, Line(), Rest(), ParseLine(old(Rest())))
      decreases es - s, 3
    {
      hide Lex, ParsePipe, Tokens, IsToken;
      ghost var line, ts := Line(), Rest();
      r := ParsePipeAt();
      if r.Fine? {
        ghost var p := ParsePipe(ts);
        var cmd := r.node;
        var b := Peek("&");
        while b
          invariant Valid() && old(s) <= s && (b <==> At(Rest(), '&')) && Tokens(line, cmd)
          invariant Backs(p.cmd, p.rest) == Backs(Resolve(line, cmd), Rest())
          decreases es - s
        {
          var _, _, _ := GetToken();
          OneToken(line, cmd);
          cmd := BackNode(cmd);
          b := Peek("&");
        }
        b := Peek(";");
        if b {
          var _, _, _ := GetToken();
          var right := ParseLineAt();
          if right.Fail? {
            return right;
          }
          BothTokens(line, cmd, right.node);
          r := Fine(ListNode(cmd, right.node));
        } else {
          r := Fine(cmd);
        }
      }
    }

    /** nulterminate: the end of every word becomes a NUL. */
    method NulTerminate(n: Node)
      requires forall sp | HasSpan(n, sp) :: sp.eq < buf.Length
      modifies buf
      ensures Nulled(old(buf[..]), buf[..], n)
      decreases n
    {
      match n
      case ExecNode(args) =>
        for i := 0 to |args|
          invariant forall k | 0 <= k < buf.Length :: buf[k] == if EndsAmong(args[..i], k) then '\0' else old(buf[k])
        {
          assert HasSpan(n, args[i]);
          EndsAmongNext(args, i);
          buf[args[i].eq] := '\0';
        }
        EndsAmongAll(args);
      case RedirNode(d, file, _, _) =>
        NulTerminate(d);
        ghost var mid := buf[..];
        buf[file.eq] := '\0';
        NulledOne(mid, buf[..], file);
        NulledTwice(old(buf[..]), mid, buf[..], n, d, ExecNode([file]));
      case PipeNode(l, r) =>
        NulTerminate(l);
        ghost var mid := buf[..];
        NulTerminate(r);
        NulledTwice(old(buf[..]), mid, buf[..], n, l, r);
      case ListNode(l, r) =>
        NulTerminate(l);
        ghost var mid := buf[..];
        NulTerminate(r);
        NulledTwice(old(buf[..]), mid, buf[..], n, l, r);
      case BackNode(d) =>
        NulTerminate(d);
        NulledTwice(old(buf[..]), buf[..], buf[..], n, d, ExecNode([]));
    }

    /**
     parsecmd: the whole line, then its words cut off by NULs. It succeeds exactly on the lines of the grammar, with the
     tree that the line means.
     */
    method ParseCommand() returns (r: Result)
      requires Valid() && s == 0
      modifies this`s, buf
      ensures Agrees(r, old(Line()), [], ParseCmd(Lex(old(Line()))))
      ensures r.Fine? ==> ShellGrammar.IsLine(Lex(old(Line())), Resolve(old(Line()), r.node))
      ensures r.Fail? ==> forall c :: !ShellGrammar.IsLine(Lex(old(Line())), c)
      ensures r.Fine? ==> Nulled(old(buf[..]), buf[..], r.node)
      ensures r.Fine? ==> forall sp | HasSpan(r.node, sp) ::
                sp.q <= buf.Length && CString(buf[..], sp.q) == Text(old(Line()), sp)
      ensures r.Fail? ==> buf[..] == old(buf[..])
    {
      hide Lex, ParseLine, IsToken, CString, ShellGrammar.IsLine;
      ghost var line, text := Line(), buf[..];
      forall c
        ensures ParseCmd(Lex(line)) == Good(c, []) <==> ShellGrammar.IsLine(Lex(line), c)
      {
        ShellGrammar.ParsesExactly(Lex(line), c);
      }
      assert line[0..] == line;
      r := ParseLineAt();
      if r.Fine? {
        var _ := Peek("");
        if s != es {
          return Fail(Leftovers);
        }
        EndsInBuffer(line, r.node);
        NulTerminate(r.node);
        forall sp | HasSpan(r.node, sp)
          ensures sp.q <= buf.Length && CString(buf[..], sp.q) == Text(line, sp)
        {
          WordsSurvive(text, buf[..], es, r.node, sp);
        }
      }
    }
  }
}
