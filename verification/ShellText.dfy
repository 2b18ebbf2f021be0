/** Lines of text and their tokens: gettoken of part1/sh.c reads tokens back however they are spaced. */
module ShellText {
  import opened ShellSyntax
  import opened ShellRoundTrip

  /** Tokens written out with `gaps[i]` before token `i` and the last gap at the end. */
  function Laid(ts: seq<Tok>, gaps: seq<string>): (t: string)
    requires |gaps| == |ts| + 1
  {
    if ts == [] then gaps[0] else gaps[0] + (Spelling(ts[0]) + Laid(ts[1..], gaps[1..]))
  }

  predicate Blank(s: string) {
    forall i | 0 <= i < |s| :: IsSpace(s[i])
  }

  /** The gaps are white space, and some where two tokens would run together. */
  predicate Apart(ts: seq<Tok>, gaps: seq<string>)
    requires |gaps| == |ts| + 1
  {
    && (forall i | 0 <= i < |gaps| :: Blank(gaps[i]))
    && forall i | 0 < i < |ts| && gaps[i] == "" ::
         !(ts[i - 1].Word? && ts[i].Word?) && !(ts[i - 1] == Sym('>') && (ts[i] == Sym('>') || ts[i] == Append))
  }

  lemma {:induction false} LexGap(gap: string, s: string)
    requires Blank(gap)
    ensures Lex(gap + s) == Lex(s)
  {
    if gap == "" {
      assert gap + s == s;
    } else {
      assert (gap + s)[1..] == gap[1..] + s;
      LexGap(gap[1..], s);
    }
  }

  /** Token `t` comes first if what follows does not make it longer. */
  lemma LexFirst(t: Tok, s: string)
    requires ValidTok(t)
    requires t.Word? && s != "" ==> !InWord(s[0])
    requires t == Sym('>') && s != "" ==> s[0] != '>'
    ensures Lex(Spelling(t) + s) == [t] + Lex(s)
  {
    var u := Spelling(t) + s;
    match t
    case Sym(c) => assert u[1..] == s && u[0] == c;
    case Append => assert u[2..] == s && u[0] == u[1] == '>';
    case Word(w) =>
      WordLenIs(w, s);
      assert u[..|w|] == w && u[|w|..] == s && u[0] == w[0] && InWord(u[0]);
  }

  lemma LaidHead(ts: seq<Tok>, gaps: seq<string>)
    requires |gaps| == |ts| + 1 && Apart(ts, gaps) && forall t | t in ts :: ValidTok(t)
    requires Laid(ts, gaps) != ""
    ensures var c := Laid(ts, gaps)[0];
            if gaps[0] != "" then IsSpace(c)
            else ts != [] && Spelling(ts[0]) != "" && c == Spelling(ts[0])[0] && (InWord(c) <==> ts[0].Word?)
  {
    if ts != [] {
      assert ts[0] in ts;
    }
  }

  /** However tokens are spaced, they are read back as they are. */
  lemma {:induction false} LexLaid(ts: seq<Tok>, gaps: seq<string>)
    requires |gaps| == |ts| + 1 && Apart(ts, gaps) && forall t | t in ts :: ValidTok(t)
    ensures Lex(Laid(ts, gaps)) == ts
    decreases |ts|
  {
    if ts == [] {
      LexGap(gaps[0], "");
      assert gaps[0] + "" == gaps[0];
    } else {
      var s := Laid(ts[1..], gaps[1..]);
      assert ts[0] in ts && Apart(ts[1..], gaps[1..]);
      LexLaid(ts[1..], gaps[1..]);
      if s != "" {
        LaidHead(ts[1..], gaps[1..]);
      }
      LexFirst(ts[0], s);
      LexGap(gaps[0], Spelling(ts[0]) + s);
    }
  }

  /** The first token of a text is as long as it can be. */
  lemma LexHead(t: string) returns (k: nat)
    requires t != "" && !IsSpace(t[0])
    ensures 0 < k <= |t| && Lex(t) != [] && Lex(t)[1..] == Lex(t[k..]) && Spelling(Lex(t)[0]) == t[..k]
    ensures k < |t| && Lex(t)[0].Word? ==> !InWord(t[k])
    ensures k < |t| && Lex(t)[0] == Sym('>') ==> t[k] != '>'
  {
    k := if t[0] == '>' && |t| > 1 && t[1] == '>' then 2 else if IsSymbol(t[0]) then 1 else WordLen(t);
  }

  /** Every text is its tokens with such gaps. */
  lemma {:induction false} TextIsLaid(t: string) returns (gaps: seq<string>)
    ensures |gaps| == |Lex(t)| + 1 && Apart(Lex(t), gaps) && Laid(Lex(t), gaps) == t
    decreases |t|
  {
    if t == "" {
      gaps := [""];
    } else if IsSpace(t[0]) {
      var g := TextIsLaid(t[1..]);
      gaps := g[0 := [t[0]] + g[0]];
      SpaceFirst(Lex(t), t[0], g);
      assert t == [t[0]] + t[1..];
    } else {
      var k := LexHead(t);
      hide Lex, Apart;
      var g := TextIsLaid(t[k..]);
      gaps := [""] + g;
      assert gaps[1..] == g;
      assert t == t[..k] + t[k..];
      FirstGap(Lex(t), t, k, g);
      assert "" + (t[..k] + t[k..]) == t;
    }
  }

  lemma SpaceFirst(ts: seq<Tok>, c: char, g: seq<string>)
    requires |g| == |ts| + 1 && Apart(ts, g) && IsSpace(c)
    ensures Apart(ts, g[0 := [c] + g[0]]) && Laid(ts, g[0 := [c] + g[0]]) == [c] + Laid(ts, g)
  {
    var gaps := g[0 := [c] + g[0]];
    assert Apart(ts, gaps) by {
      assert Blank(g[0]) && Blank([c] + g[0]);
    }
    hide Apart;
    assert gaps[1..] == g[1..];
    if ts != [] {
      var more := Spelling(ts[0]) + Laid(ts[1..], g[1..]);
      assert [c] + g[0] + more == [c] + (g[0] + more);
    }
  }

  lemma FirstGap(ts: seq<Tok>, t: string, k: nat, g: seq<string>)
    requires ts != [] && 0 < k <= |t| && ts[1..] == Lex(t[k..]) && |g| == |ts| && Apart(ts[1..], g)
    requires Laid(ts[1..], g) == t[k..] && ts == Lex(t) && Spelling(ts[0]) == t[..k]
    requires k < |t| && ts[0].Word? ==> !InWord(t[k])
    requires k < |t| && ts[0] == Sym('>') ==> t[k] != '>'
    ensures Apart(ts, [""] + g)
  {
    var gaps := [""] + g;
    LexValid(t);
    if |ts| > 1 && g[0] == "" {
      LaidHead(ts[1..], g);
    }
    forall i | 0 < i < |ts| && gaps[i] == ""
      ensures !(ts[i - 1].Word? && ts[i].Word?)
      ensures !(ts[i - 1] == Sym('>') && (ts[i] == Sym('>') || ts[i] == Append))
    {
      assert ts[i] == ts[1..][i - 1] && gaps[i] == g[i - 1];
      if i > 1 {
        assert ts[i - 1] == ts[1..][i - 2];
      }
    }
  }
}
