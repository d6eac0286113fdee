/** Regular expressions by their languages. */
module Regex {
  import opened Wrappers

  datatype Re =
    | Lit(s: string)
    | OneOf(cs: set<char>)
    | Dot                      // any character but a newline
    | Cat(a: Re, b: Re)
    | Alt(a: Re, b: Re)
    | Opt(r: Re)
    | Star(r: Re)

  predicate Matches(r: Re, s: string)
    decreases r, |s|
  {
    match r
    case Lit(l) => s == l
    case OneOf(cs) => |s| == 1 && s[0] in cs
    case Dot => |s| == 1 && s[0] != '\n'
    case Cat(a, b) => exists i :: 0 <= i <= |s| && Matches(a, s[..i]) && Matches(b, s[i..])
    case Alt(a, b) => Matches(a, s) || Matches(b, s)
    case Opt(p) => s == [] || Matches(p, s)
    case Star(p) => s == [] || exists i :: 1 <= i <= |s| && Matches(p, s[..i]) && Matches(r, s[i..])
  }

  /** An expression anchored at the start only. */
  predicate MatchesPrefix(r: Re, s: string) {
    exists i :: 0 <= i <= |s| && Matches(r, s[..i])
  }

  function Plus(r: Re): Re {
    Cat(r, Star(r))
  }

  /** What \s stands for. */
  const WS := {' ', '\t', '\n', '\r', '\U{000C}'}

  const Spaces := Star(OneOf(WS))

  lemma InSequence(a: Re, b: Re, x: string, y: string)
    requires Matches(a, x) && Matches(b, y)
    ensures Matches(Cat(a, b), x + y)
  {
    assert (x + y)[..|x|] == x && (x + y)[|x|..] == y;
  }

  /** The two parts of a match. */
  lemma Parts(a: Re, b: Re, s: string) returns (x: string, y: string)
    requires Matches(Cat(a, b), s)
    ensures s == x + y && Matches(a, x) && Matches(b, y)
  {
    var i :| 0 <= i <= |s| && Matches(a, s[..i]) && Matches(b, s[i..]);
    x, y := s[..i], s[i..];
  }

  lemma SpacedLiteral(l: string, b: Re, s: string) returns (x: string, y: string)
    requires Matches(Cat(Spaces, Cat(Lit(l), b)), s)
    ensures s == x + (l + y) && Matches(Spaces, x) && Matches(b, y)
  {
    var t;
    x, t := Parts(Spaces, Cat(Lit(l), b), s);
    LiteralFirst(l, b, t);
    y := t[|l|..];
  }

  lemma SpaceLiteral(l: string, b: Re, x: string, y: string)
    requires Matches(Spaces, x) && Matches(b, y)
    ensures Matches(Cat(Spaces, Cat(Lit(l), b)), x + (l + y))
  {
    InSequence(Lit(l), b, l, y);
    InSequence(Spaces, Cat(Lit(l), b), x, l + y);
  }

  lemma NothingFirst(r: Re, b: Re, y: string)
    requires Matches(b, y) && (r.Star? || r.Opt?)
    ensures Matches(Cat(r, b), y)
  {
    InSequence(r, b, "", y);
    assert "" + y == y;
  }

  lemma Once(r: Re, x: string)
    requires Matches(r, x) && x != []
    ensures Matches(Star(r), x)
  {
    assert x[..|x|] == x && x[|x|..] == [];
  }

  /** A literal, after optional space. */
  lemma LiteralNext(l: string, b: Re, y: string)
    requires Matches(b, y)
    ensures Matches(Cat(Spaces, Cat(Lit(l), b)), l + y)
  {
    InSequence(Lit(l), b, l, y);
    NothingFirst(Spaces, Cat(Lit(l), b), l + y);
  }

  lemma FirstOfSpaces(x: string)
    requires Matches(Spaces, x) && x != []
    ensures x[0] in WS
  {
    var j :| 1 <= j <= |x| && Matches(OneOf(WS), x[..j]) && Matches(Spaces, x[j..]);
    assert x[..j][0] == x[0];
  }

  /** In front of a visible character, or nothing, optional space matches nothing. */
  lemma StartsVisible(b: Re, s: string)
    requires Matches(Cat(Spaces, b), s) && (s == [] || s[0] !in WS)
    ensures Matches(b, s)
  {
    var i :| 0 <= i <= |s| && Matches(Spaces, s[..i]) && Matches(b, s[i..]);
    if i > 0 {
      FirstOfSpaces(s[..i]);
    }
    assert s[0..] == s;
  }

  lemma LiteralFirst(l: string, b: Re, s: string)
    requires Matches(Cat(Lit(l), b), s)
    ensures l <= s && Matches(b, s[|l|..])
  {
    var i :| 0 <= i <= |s| && Matches(Lit(l), s[..i]) && Matches(b, s[i..]);
  }

  /** The first character that is not space. */
  function Visible(s: string): Option<char> {
    if s == [] then None else if s[0] in WS then Visible(s[1..]) else Some(s[0])
  }

  lemma {:induction false} SpacesHide(x: string, y: string)
    requires Matches(Spaces, x) && y != [] && y[0] !in WS
    ensures Visible(x + y) == Some(y[0])
    decreases |x|
  {
    if x == [] {
      assert x + y == y;
    } else {
      var i :| 1 <= i <= |x| && Matches(OneOf(WS), x[..i]) && Matches(Spaces, x[i..]);
      assert x[..i][0] == x[0];
      assert (x + y)[1..] == x[1..] + y;
      SpacesHide(x[1..], y);
    }
  }

  lemma {:induction false} VisibleOfPrefix(s: string, i: nat)
    requires i <= |s| && Visible(s[..i]).Some?
    ensures Visible(s) == Visible(s[..i])
  {
    if s[0] in WS {
      assert s[..i][1..] == s[1..][..i - 1];
      VisibleOfPrefix(s[1..], i - 1);
    }
  }

  lemma {:induction false} AllOneOf(cs: set<char>, s: string)
    requires forall c :: c in s ==> c in cs
    ensures Matches(Star(OneOf(cs)), s)
    decreases |s|
  {
    if s != [] {
      AllOneOf(cs, s[1..]);
      assert s[..1] == [s[0]];
    }
  }
}
