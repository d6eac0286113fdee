/** LIKE patterns built from user keywords. */
module LikePattern {
  import opened Text

  /** The escaper works rune by rune: backslash, percent and underscore get a backslash in front. */
  function EscapeLikePattern(s: string): string {
    if s == [] then []
    else (if s[0] in {'\\', '%', '_'} then ['\\', s[0]] else [s[0]]) + EscapeLikePattern(s[1..])
  }

  /** The LIKE predicate with escape character backslash, section 8.5 of ISO/IEC 9075-2:2003: percent
      stands for any string, underscore for any character, and a backslash for the wildcard or
      backslash it precedes. */
  ghost predicate Like(pattern: string, text: string)
    decreases |pattern| + |text|
  {
    if pattern == [] then text == []
    else if pattern[0] == '%' then Like(pattern[1..], text) || (text != [] && Like(pattern, text[1..]))
    else if pattern[0] == '_' then text != [] && Like(pattern[1..], text[1..])
    else if pattern[0] == '\\' then
      |pattern| >= 2 && text != [] && text[0] == pattern[1] && Like(pattern[2..], text[1..])
    else text != [] && text[0] == pattern[0] && Like(pattern[1..], text[1..])
  }

  /** The standard makes any other use of the escape character an error. */
  ghost predicate WellFormed(pattern: string) {
    pattern == [] ||
    if pattern[0] == '\\' then |pattern| >= 2 && pattern[1] in {'\\', '%', '_'} && WellFormed(pattern[2..])
    else WellFormed(pattern[1..])
  }

  lemma {:induction false} EscapedIsWellFormed(s: string, tail: string)
    requires WellFormed(tail)
    ensures WellFormed(EscapeLikePattern(s) + tail)
  {
    if s == [] {
      assert EscapeLikePattern(s) + tail == tail;
    } else {
      EscapedIsWellFormed(s[1..], tail);
      var rest := EscapeLikePattern(s[1..]) + tail;
      if s[0] in {'\\', '%', '_'} {
        assert EscapeLikePattern(s) + tail == ['\\', s[0]] + rest;
        assert (['\\', s[0]] + rest)[2..] == rest;
      } else {
        assert EscapeLikePattern(s) + tail == [s[0]] + rest;
        assert ([s[0]] + rest)[1..] == rest;
      }
    }
  }

  /** Escaped text matches itself and nothing else. */
  lemma {:induction false} EscapedIsLiteral(s: string, tail: string, text: string)
    ensures Like(EscapeLikePattern(s) + tail, text) <==> s <= text && Like(tail, text[|s|..])
  {
    var p := EscapeLikePattern(s) + tail;
    if s == [] {
      assert p == tail && text[0..] == text;
    } else {
      var rest := EscapeLikePattern(s[1..]) + tail;
      if s[0] in {'\\', '%', '_'} {
        assert p == ['\\', s[0]] + rest && p[2..] == rest;
      } else {
        assert p == [s[0]] + rest && p[1..] == rest;
      }
      assert Like(p, text) <==> text != [] && text[0] == s[0] && Like(rest, text[1..]);
      if text != [] {
        EscapedIsLiteral(s[1..], tail, text[1..]);
        if s[1..] <= text[1..] && s[0] == text[0] {
          assert s == [s[0]] + s[1..] && text == [text[0]] + text[1..];
          assert text[|s|..] == text[1..][|s| - 1..];
        }
      }
    }
  }

  lemma {:induction false} PercentMatchesAll(text: string)
    ensures Like("%", text)
  {
    if text != [] {
      PercentMatchesAll(text[1..]);
    } else {
      assert "%"[1..] == [];
    }
  }

  lemma ContainsStep(text: string, s: string)
    ensures Contains(text, s) <==> s <= text || (text != [] && Contains(text[1..], s))
  {
    if s <= text {
      assert text[0..] == text;
    }
    if text != [] && Contains(text[1..], s) {
      var i :| 0 <= i <= |text[1..]| && s <= text[1..][i..];
      assert text[1..][i..] == text[i + 1..];
    }
    if Contains(text, s) && !(s <= text) {
      var i :| 0 <= i <= |text| && s <= text[i..];
      assert i > 0 && text[i..] == text[1..][i - 1..];
    }
  }

  lemma PercentFirst(rest: string, text: string)
    ensures Like("%" + rest, text) <==> Like(rest, text) || (text != [] && Like("%" + rest, text[1..]))
  {
    assert ("%" + rest)[1..] == rest;
  }

  lemma {:induction false} LeadingPercent(s: string, text: string)
    ensures Like("%" + (EscapeLikePattern(s) + "%"), text) <==> Contains(text, s)
    decreases |text|
  {
    var rest := EscapeLikePattern(s) + "%";
    PercentFirst(rest, text);
    ContainsStep(text, s);
    EscapedIsLiteral(s, "%", text);
    if s <= text {
      PercentMatchesAll(text[|s|..]);
    }
    if text != [] {
      LeadingPercent(s, text[1..]);
    }
  }

  /** No two keywords escape alike. */
  lemma {:induction false} EscapingIsInjective(s: string, t: string)
    requires EscapeLikePattern(s) == EscapeLikePattern(t)
    ensures s == t
  {
    var e := EscapeLikePattern(s);
    assert e + [] == e;
    PlainSelf(s);
    PlainSelf(t);
    EscapedIsLiteral(s, [], t);
    EscapedIsLiteral(t, [], s);
  }

  lemma PlainSelf(s: string)
    ensures Like(EscapeLikePattern(s), s)
  {
    assert EscapeLikePattern(s) + [] == EscapeLikePattern(s);
    EscapedIsLiteral(s, [], s);
  }

  // --- Keywords. ---

  /** Trimming and lower-casing; lower stands for the rune table. */
  function NormalizeKeyword(lower: char -> char, keyword: string): string {
    var t := TrimSpace(keyword);
    seq(|t|, i requires 0 <= i < |t| => lower(t[i]))
  }

  function KeywordLikePattern(lower: char -> char, keyword: string): string {
    "%" + EscapeLikePattern(NormalizeKeyword(lower, keyword)) + "%"
  }

  /** The pattern is valid SQL and matches exactly the texts that contain the normalized keyword. */
  lemma KeywordPatternMeansContains(lower: char -> char, keyword: string, text: string)
    ensures WellFormed(KeywordLikePattern(lower, keyword))
    ensures Like(KeywordLikePattern(lower, keyword), text) <==> Contains(text, NormalizeKeyword(lower, keyword))
  {
    var k := NormalizeKeyword(lower, keyword);
    assert WellFormed("%") by { assert "%"[1..] == []; }
    EscapedIsWellFormed(k, "%");
    var p := EscapeLikePattern(k) + "%";
    assert KeywordLikePattern(lower, keyword) == "%" + p && ("%" + p)[1..] == p;
    LeadingPercent(k, text);
  }

  // --- Without regard to case. ---

  function Fold(lower: char -> char, s: string): string {
    seq(|s|, i requires 0 <= i < |s| => lower(s[i]))
  }

  /** ILIKE: both sides are folded first. */
  ghost predicate ILike(lower: char -> char, pattern: string, text: string) {
    Like(Fold(lower, pattern), Fold(lower, text))
  }

  /** A rune table that folds what is folded to itself, and leaves the escape character and percent alone. */
  ghost predicate Folds(lower: char -> char) {
    lower('\\') == '\\' && lower('%') == '%' && forall c :: lower(lower(c)) == lower(c)
  }

  lemma {:induction false} EscapedIsFolded(lower: char -> char, s: string)
    requires lower('\\') == '\\' && forall i :: 0 <= i < |s| ==> lower(s[i]) == s[i]
    ensures Fold(lower, EscapeLikePattern(s)) == EscapeLikePattern(s)
  {
    if s != [] {
      assert forall i :: 0 <= i < |s| - 1 ==> s[1..][i] == s[i + 1];
      EscapedIsFolded(lower, s[1..]);
      var e := EscapeLikePattern(s[1..]);
      assert forall i :: 0 <= i < |e| ==> Fold(lower, e)[i] == e[i];
    }
  }

  /** As the query runs it, the pattern finds exactly the texts that contain the keyword, letter case
      and space around the keyword aside. */
  lemma KeywordIsFoundInAnyCase(lower: char -> char, keyword: string, text: string)
    requires Folds(lower)
    ensures ILike(lower, KeywordLikePattern(lower, keyword), text)
       <==> Contains(Fold(lower, text), Fold(lower, TrimSpace(keyword)))
  {
    var k := NormalizeKeyword(lower, keyword);
    var pattern, e := KeywordLikePattern(lower, keyword), EscapeLikePattern(k);
    EscapedIsFolded(lower, k);
    assert forall i :: 0 <= i < |e| ==> Fold(lower, e)[i] == e[i];
    assert Fold(lower, pattern) == pattern;
    assert k == Fold(lower, TrimSpace(keyword));
    KeywordPatternMeansContains(lower, keyword, Fold(lower, text));
  }

  // --- The cache. ---

  /** Keywords share a cache entry, keyed by the normalized form, exactly if they share a pattern. */
  lemma SamePatternIffSameKey(lower: char -> char, a: string, b: string)
    ensures KeywordLikePattern(lower, a) == KeywordLikePattern(lower, b) <==>
            NormalizeKeyword(lower, a) == NormalizeKeyword(lower, b)
  {
    var ka, kb := NormalizeKeyword(lower, a), NormalizeKeyword(lower, b);
    var pa, pb := KeywordLikePattern(lower, a), KeywordLikePattern(lower, b);
    assert pa[1..|pa| - 1] == EscapeLikePattern(ka);
    assert pb[1..|pb| - 1] == EscapeLikePattern(kb);
    if pa == pb {
      EscapingIsInjective(ka, kb);
    }
  }
}
