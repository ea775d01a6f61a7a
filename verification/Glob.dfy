/** The shell's `find -name` patterns: a backtracking matcher, and what a pattern means. */
module Glob {
  // ------------------------------------------------------------- the matcher

  method GlobMatch(pattern: string, name: string) returns (r: bool)
    ensures r == Matched(pattern, name)
    decreases |pattern|
  {
    var (pi, ni) := (0, 0);
    assert pattern[0..] == pattern && name[0..] == name;
    while pi < |pattern|
      invariant 0 <= pi <= |pattern| && 0 <= ni <= |name|
      invariant Matched(pattern[pi..], name[ni..]) == Matched(pattern, name)
    {
      var c := pattern[pi];
      Tails(pattern, pi);
      if c == '*' {
        pi := pi + 1;
        if pi == |pattern| { return true; }
        ghost var start := ni;
        while ni < |name|
          invariant start <= ni <= |name|
          invariant forall k :: start <= k < ni ==> !Matched(pattern[pi..], name[k..])
        {
          var rest := GlobMatch(pattern[pi..], name[ni..]);
          if rest {
            assert name[start..][ni - start..] == name[ni..];
            return true;
          }
          ni := ni + 1;
        }
        assert forall k :: 0 <= k < |name[start..]| ==> name[start..][k..] == name[start + k..];
        return false;
      }
      if ni == |name| { return false; }
      Tails(name, ni);
      if c != '?' && name[ni] != c { return false; }
      pi, ni := pi + 1, ni + 1;
    }
    return ni == |name|;
  }

  lemma Tails(s: string, i: nat)
    requires i < |s|
    ensures s[i..] != "" && s[i..][0] == s[i] && s[i..][1..] == s[i + 1..]
  {
  }

  /** What it computes: a star that is not the last tries only the places before the name's end. */
  predicate Matched(pattern: string, name: string)
    decreases |pattern|
  {
    if pattern == "" then name == ""
    else if pattern[0] == '*' then
      |pattern| == 1 || exists k :: 0 <= k < |name| && Matched(pattern[1..], name[k..])
    else
      name != "" && (pattern[0] == '?' || pattern[0] == name[0]) && Matched(pattern[1..], name[1..])
  }

  // --------------------------------------------------------- what a pattern means

  /** A star stands for any run of characters, a question mark for any one, another character for itself. */
  predicate Fits(c: char, piece: string) { c == '*' || (|piece| == 1 && (c == '?' || piece[0] == c)) }

  function Join(pieces: seq<string>): string { if pieces == [] then "" else pieces[0] + Join(pieces[1..]) }

  predicate Splits(pattern: string, pieces: seq<string>, name: string) {
    && |pieces| == |pattern| && Join(pieces) == name
    && forall i :: 0 <= i < |pattern| ==> Fits(pattern[i], pieces[i])
  }

  /** The name is pieces one after another, one for each character of the pattern. */
  ghost predicate Means(pattern: string, name: string) { exists pieces :: Splits(pattern, pieces, name) }

  lemma MeansNothing(name: string)
    ensures Means("", name) <==> name == ""
  {
    assert name == "" ==> Splits("", [], name);
  }

  ghost predicate FirstAt(pattern: string, name: string, k: nat)
    requires pattern != ""
  {
    k <= |name| && Fits(pattern[0], name[..k]) && Means(pattern[1..], name[k..])
  }

  lemma MeansFirst(pattern: string, name: string)
    requires pattern != ""
    ensures Means(pattern, name) <==> exists k: nat :: FirstAt(pattern, name, k)
  {
    if Means(pattern, name) {
      var pieces :| Splits(pattern, pieces, name);
      var k := |pieces[0]|;
      assert name[..k] == pieces[0] && name[k..] == Join(pieces[1..]);
      assert Splits(pattern[1..], pieces[1..], name[k..]);
      assert FirstAt(pattern, name, k);
    }
    if k: nat :| FirstAt(pattern, name, k) {
      var rest :| Splits(pattern[1..], rest, name[k..]);
      var pieces := [name[..k]] + rest;
      assert pieces[1..] == rest && name == name[..k] + name[k..];
      assert Splits(pattern, pieces, name);
    }
  }

  lemma MeansOne(pattern: string, name: string)
    requires pattern != "" && pattern[0] != '*'
    ensures Means(pattern, name) <==>
      name != "" && (pattern[0] == '?' || pattern[0] == name[0]) && Means(pattern[1..], name[1..])
  {
    MeansFirst(pattern, name);
    if name != "" && (pattern[0] == '?' || pattern[0] == name[0]) && Means(pattern[1..], name[1..]) {
      assert FirstAt(pattern, name, 1);
    }
  }

  lemma MeansStar(pattern: string, name: string)
    requires pattern != "" && pattern[0] == '*'
    ensures Means(pattern, name) <==> exists k: nat :: k <= |name| && Means(pattern[1..], name[k..])
  {
    MeansFirst(pattern, name);
    if k: nat :| k <= |name| && Means(pattern[1..], name[k..]) { assert FirstAt(pattern, name, k); }
  }

  // ------------------------------------------------------------ the two compared

  predicate EndsInTwoStars(pattern: string)
    { |pattern| >= 2 && pattern[|pattern| - 1] == pattern[|pattern| - 2] == '*' }

  /** The pattern matched in fact: two stars at the end take one character at least. */
  function Effective(pattern: string): string {
    if EndsInTwoStars(pattern) then pattern[..|pattern| - 2] + "?*" else pattern
  }

  function Needs(pattern: string): nat {
    if pattern == "" then 0 else Needs(pattern[1..]) + if pattern[0] == '*' then 0 else 1
  }

  /** A name has a character at least for each one of the pattern that is not a star. */
  lemma {:induction false} NeedsThem(pattern: string, name: string)
    requires Means(pattern, name)
    ensures |name| >= Needs(pattern)
  {
    if pattern != "" {
      MeansFirst(pattern, name);
      var k: nat :| FirstAt(pattern, name, k);
      NeedsThem(pattern[1..], name[k..]);
    }
  }

  lemma TwoCharacters(pattern: string)
    requires |pattern| >= 2
    ensures |pattern| == 2 && EndsInTwoStars(pattern) ==> pattern == "**"
  {
    if |pattern| == 2 { assert pattern == [pattern[0], pattern[1]]; }
  }

  lemma EffectiveTail(pattern: string)
    requires |pattern| >= 2 && pattern != "**"
    ensures Effective(pattern) == [pattern[0]] + Effective(pattern[1..])
  {
    if EndsInTwoStars(pattern) {
      TwoCharacters(pattern);
      assert pattern[..|pattern| - 2] == [pattern[0]] + pattern[1..][..|pattern| - 3];
    }
  }

  /** Only stars mean the empty name. */
  lemma EffectiveNeeds(pattern: string)
    requires |pattern| >= 1 && (pattern[|pattern| - 1] != '*' || |pattern| >= 2)
    ensures Needs(Effective(pattern)) >= 1
    decreases |pattern|
  {
    var e := Effective(pattern);
    if |pattern| >= 3 || (|pattern| == 2 && pattern != "**") {
      EffectiveTail(pattern);
      assert e[1..] == Effective(pattern[1..]);
      if pattern[0] == '*' { EffectiveNeeds(pattern[1..]); }
    } else if pattern == "**" {
      assert e == "?*";
    }
  }

  lemma TwoStars(name: string)
    ensures Matched("**", name) <==> Means(Effective("**"), name)
  {
    assert "**"[..0] + "?*" == "?*";
    MeansOne("?*", name);
    if name != "" {
      assert "**"[1..] == "*" && Matched("*", name[0..]);
      assert "?*"[1..] == "*";
      MeansStar("*", name[1..]);
      assert "*"[1..] == "" && name[1..][|name| - 1..] == "";
      MeansNothing("");
    }
  }

  lemma OneStar(name: string)
    ensures Means("*", name)
  {
    MeansStar("*", name);
    MeansNothing(name[|name|..]);
    assert "*"[1..] == "";
  }

  /** A star first, with something after it that the matcher must not find in an empty rest. */
  lemma StarFirst(pattern: string, name: string)
    requires |pattern| >= 2 && pattern != "**" && pattern[0] == '*'
    requires forall k :: 0 <= k < |name| ==>
      (Matched(pattern[1..], name[k..]) <==> Means(Effective(pattern[1..]), name[k..]))
    ensures Matched(pattern, name) <==> Means(Effective(pattern), name)
  {
    var (e, rest) := (Effective(pattern), Effective(pattern[1..]));
    EffectiveTail(pattern);
    assert e[1..] == rest;
    MeansStar(e, name);
    TwoCharacters(pattern);
    EffectiveNeeds(pattern[1..]);
    if Means(rest, name[|name|..]) { NeedsThem(rest, name[|name|..]); }
  }

  /** The matcher finds just what the pattern in effect means. */
  lemma {:induction false} MatchesItsEffect(pattern: string, name: string)
    ensures Matched(pattern, name) <==> Means(Effective(pattern), name)
    decreases |pattern|
  {
    if pattern == "" {
      MeansNothing(name);
    } else if pattern == "**" {
      TwoStars(name);
    } else if pattern[0] == '*' {
      if |pattern| == 1 {
        assert pattern == "*";
        OneStar(name);
      } else {
        forall k | 0 <= k < |name|
          ensures Matched(pattern[1..], name[k..]) <==> Means(Effective(pattern[1..]), name[k..])
        {
          MatchesItsEffect(pattern[1..], name[k..]);
        }
        StarFirst(pattern, name);
      }
    } else {
      var e := Effective(pattern);
      if |pattern| >= 2 { EffectiveTail(pattern); }
      assert e[1..] == Effective(pattern[1..]) && e[0] == pattern[0];
      MeansOne(e, name);
      if name != "" { MatchesItsEffect(pattern[1..], name[1..]); }
    }
  }

  lemma {:induction false} EffectMeansMore(pattern: string, other: string, name: string)
    requires |other| == |pattern| && Means(other, name)
    requires forall i :: 0 <= i < |pattern| ==> other[i] == pattern[i] || pattern[i] == '*'
    ensures Means(pattern, name)
  {
    var pieces :| Splits(other, pieces, name);
    assert Splits(pattern, pieces, name);
  }

  /** The matcher never finds a name that the pattern does not mean. */
  lemma MatchIsSound(pattern: string, name: string)
    requires Matched(pattern, name)
    ensures Means(pattern, name)
  {
    MatchesItsEffect(pattern, name);
    EffectMeansMore(pattern, Effective(pattern), name);
  }

  /** A shortest name the pattern means. */
  function Shortest(pattern: string): string {
    if pattern == "" then ""
    else (if pattern[0] == '*' then "" else [pattern[0]]) + Shortest(pattern[1..])
  }

  lemma {:induction false} ShortestIsMeant(pattern: string)
    ensures Means(pattern, Shortest(pattern)) && |Shortest(pattern)| == Needs(pattern)
  {
    if pattern == "" {
      MeansNothing("");
    } else {
      ShortestIsMeant(pattern[1..]);
      var (s, k) := (Shortest(pattern), if pattern[0] == '*' then 0 else 1);
      assert s[k..] == Shortest(pattern[1..]);
      assert FirstAt(pattern, s, k);
      MeansFirst(pattern, s);
    }
  }

  lemma {:induction false} TwoStarsNeedOne(pattern: string)
    requires EndsInTwoStars(pattern)
    ensures Needs(Effective(pattern)) == Needs(pattern) + 1
  {
    if pattern == "**" {
      assert Effective(pattern) == "?*" && "?*"[1..] == "*" && "*"[1..] == "" && pattern[1..] == "*";
    } else {
      TwoCharacters(pattern);
      EffectiveTail(pattern);
      TwoStarsNeedOne(pattern[1..]);
      assert Effective(pattern)[1..] == Effective(pattern[1..]);
    }
  }

  /** It finds every name the pattern means exactly when the pattern does not end in two stars. */
  lemma CompleteUnlessTwoStarsEnd(pattern: string)
    ensures (forall name :: Means(pattern, name) ==> Matched(pattern, name)) <==> !EndsInTwoStars(pattern)
  {
    if EndsInTwoStars(pattern) {
      var name := Shortest(pattern);
      ShortestIsMeant(pattern);
      MatchesItsEffect(pattern, name);
      TwoStarsNeedOne(pattern);
      if Means(Effective(pattern), name) { NeedsThem(Effective(pattern), name); }
      assert Means(pattern, name) && !Matched(pattern, name);
    } else {
      forall name | Means(pattern, name) ensures Matched(pattern, name) { MatchesItsEffect(pattern, name); }
    }
  }
}
