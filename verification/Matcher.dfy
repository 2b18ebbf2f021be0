/** The regular-expression matcher of part1/grep.c against a declarative meaning of patterns. */
module Matcher {
  /** One character, a run of characters, or the end of the text; '.' stands for any character. */
  datatype Item = One(c: char) | Many(c: char) | End

  function Items(re: string): (items: seq<Item>) {
    if re == "" then []
    else if |re| >= 2 && re[1] == '*' then [Many(re[0])] + Items(re[2..])
    else if re == "$" then [End]
    else [One(re[0])] + Items(re[1..])
  }

  predicate Fits(c: char, x: char) {
    c == '.' || c == x
  }

  /** Item `it` covers `text[lo..hi]`. */
  ghost predicate Covers(it: Item, text: string, lo: nat, hi: nat) {
    lo <= hi <= |text| &&
    match it
    case One(c) => hi == lo + 1 && Fits(c, text[lo])
    case Many(c) => forall i | lo <= i < hi :: Fits(c, text[i])
    case End => lo == hi == |text|
  }

  ghost predicate CoversAt(items: seq<Item>, text: string, cuts: seq<nat>, i: nat)
    requires i < |items| == |cuts| - 1
  {
    Covers(items[i], text, cuts[i], cuts[i + 1])
  }

  /** The items cover consecutive pieces of the text; piece `i` lies between two cuts. */
  ghost predicate Split(items: seq<Item>, text: string, cuts: seq<nat>) {
    |cuts| == |items| + 1 && forall i: nat | i < |items| :: CoversAt(items, text, cuts, i)
  }

  /** The items match from position `at` on. */
  ghost predicate MatchesAt(items: seq<Item>, text: string, at: nat) {
    at <= |text| && exists cuts: seq<nat> :: Split(items, text, cuts) && cuts[0] == at
  }

  /** A pattern matches at the start if it begins with '^', else anywhere. */
  ghost predicate Matches(re: string, text: string) {
    if re != "" && re[0] == '^' then MatchesAt(Items(re[1..]), text, 0)
    else exists at: nat :: MatchesAt(Items(re), text, at)
  }

  // ---- One item at a time ----

  lemma EmptyMatches(text: string, at: nat)
    requires at <= |text|
    ensures MatchesAt([], text, at)
  {
    assert Split([], text, [at]);
  }

  lemma FirstItem(it: Item, rest: seq<Item>, text: string, at: nat)
    requires at <= |text|
    ensures MatchesAt([it] + rest, text, at)
            <==> exists hi: nat :: Covers(it, text, at, hi) && MatchesAt(rest, text, hi)
  {
    var items := [it] + rest;
    if MatchesAt(items, text, at) {
      var cuts: seq<nat> :| Split(items, text, cuts) && cuts[0] == at;
      assert CoversAt(items, text, cuts, 0);
      var cuts' := cuts[1..];
      forall i: nat | i < |rest|
        ensures CoversAt(rest, text, cuts', i)
      {
        assert CoversAt(items, text, cuts, i + 1);
      }
      assert Split(rest, text, cuts') && cuts'[0] == cuts[1];
      assert Covers(it, text, at, cuts[1]) && MatchesAt(rest, text, cuts[1]);
    }
    if hi: nat :| Covers(it, text, at, hi) && MatchesAt(rest, text, hi) {
      var cuts: seq<nat> :| Split(rest, text, cuts) && cuts[0] == hi;
      var cuts' := [at] + cuts;
      forall i: nat | i < |items|
        ensures CoversAt(items, text, cuts', i)
      {
        if i > 0 {
          assert CoversAt(rest, text, cuts, i - 1);
        }
      }
      assert Split(items, text, cuts') && cuts'[0] == at;
    }
  }

  // ---- The code ----

  /** matchhere, on the text from `at` on. */
  method MatchHere(re: string, text: string, at: nat) returns (b: bool)
    requires at <= |text|
    ensures b <==> MatchesAt(Items(re), text, at)
    decreases |re|, 0
  {
    if re == "" {
      EmptyMatches(text, at);
      return true;
    }
    if |re| >= 2 && re[1] == '*' {
      b := MatchStar(re[0], re[2..], text, at);
      FirstItem(Many(re[0]), Items(re[2..]), text, at);
      return;
    }
    if re == "$" {
      FirstItem(End, [], text, at);
      if at == |text| {
        EmptyMatches(text, at);
        assert Covers(End, text, at, at);
      }
      assert [End] + [] == [End];
      return at == |text|;
    }
    FirstItem(One(re[0]), Items(re[1..]), text, at);
    if at < |text| && (re[0] == '.' || re[0] == text[at]) {
      b := MatchHere(re[1..], text, at + 1);
      assert Covers(One(re[0]), text, at, at + 1);
      return;
    }
    return false;
  }

  /** matchstar: a run of `c`, then `re`. */
  method MatchStar(c: char, re: string, text: string, at: nat) returns (b: bool)
    requires at <= |text|
    ensures b <==> exists hi: nat :: Covers(Many(c), text, at, hi) && MatchesAt(Items(re), text, hi)
    decreases |re|, 1
  {
    var t := at;
    while true
      invariant at <= t <= |text| && Covers(Many(c), text, at, t)
      invariant forall hi: nat | at <= hi < t :: !MatchesAt(Items(re), text, hi)
      decreases |text| - t
    {
      b := MatchHere(re, text, t);
      if b {
        return true;
      }
      if t == |text| || !(text[t] == c || c == '.') {
        return false;
      }
      t := t + 1;
    }
  }

  /** match. */
  method Match(re: string, text: string) returns (b: bool)
    ensures b <==> Matches(re, text)
  {
    if re != "" && re[0] == '^' {
      b := MatchHere(re[1..], text, 0);
      return;
    }
    var t := 0;
    while true
      invariant t <= |text| && forall at: nat | at < t :: !MatchesAt(Items(re), text, at)
      decreases |text| - t
    {
      b := MatchHere(re, text, t);
      if b {
        return true;
      }
      if t == |text| {
        return false;
      }
      t := t + 1;
    }
  }
}
