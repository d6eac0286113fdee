/** The string operations the text functions build on. */
module Text {
  /** White space as Unicode and Go's unicode.IsSpace list it. */
  predicate IsSpace(c: char) {
    || c in {' ', '\t', '\n', '\r', '\U{000B}', '\U{000C}', '\U{0085}', '\U{00A0}', '\U{1680}'}
    || c in {'\U{2028}', '\U{2029}', '\U{202F}', '\U{205F}', '\U{3000}'}
    || '\U{2000}' <= c <= '\U{200A}'
  }

  function One(b: bool): nat {
    if b then 1 else 0
  }

  function TrimLeft(s: string): string {
    if s != [] && IsSpace(s[0]) then TrimLeft(s[1..]) else s
  }

  function TrimRight(s: string): string {
    if s != [] && IsSpace(s[|s| - 1]) then TrimRight(s[..|s| - 1]) else s
  }

  function TrimSpace(s: string): string {
    TrimRight(TrimLeft(s))
  }

  predicate AllSpace(s: string) {
    forall c :: c in s ==> IsSpace(c)
  }

  /** A trimmed text is the text without some white space in front and behind, and has none there. */
  lemma TrimSpaceIs(s: string) returns (front: string, behind: string)
    ensures s == front + TrimSpace(s) + behind && AllSpace(front) && AllSpace(behind)
    ensures TrimSpace(s) != "" ==> !IsSpace(TrimSpace(s)[0]) && !IsSpace(TrimSpace(s)[|TrimSpace(s)| - 1])
  {
    front := TrimLeftIs(s);
    behind := TrimRightIs(TrimLeft(s));
    assert front + (TrimSpace(s) + behind) == front + TrimSpace(s) + behind;
  }

  lemma {:induction false} TrimLeftIs(s: string) returns (front: string)
    ensures s == front + TrimLeft(s) && AllSpace(front)
    ensures TrimLeft(s) != "" ==> !IsSpace(TrimLeft(s)[0])
  {
    if s != [] && IsSpace(s[0]) {
      var more := TrimLeftIs(s[1..]);
      front := [s[0]] + more;
      ThreePieces(s, more, TrimLeft(s[1..]));
    } else {
      front := "";
    }
  }

  lemma ThreePieces(s: string, more: string, rest: string)
    requires s != [] && s[1..] == more + rest
    ensures s == ([s[0]] + more) + rest
  {
  }

  lemma {:induction false} TrimRightIs(s: string) returns (behind: string)
    ensures s == TrimRight(s) + behind && AllSpace(behind)
    ensures TrimRight(s) != "" ==> !IsSpace(TrimRight(s)[|TrimRight(s)| - 1])
  {
    if s != [] && IsSpace(s[|s| - 1]) {
      var n := |s| - 1;
      var more := TrimRightIs(s[..n]);
      behind := more + [s[n]];
      assert s[..n] + [s[n]] == s;
    } else {
      behind := "";
    }
  }

  ghost predicate Contains(text: string, s: string) {
    exists i :: 0 <= i <= |text| && s <= text[i..]
  }

  lemma DropDrop(s: string, a: nat, b: nat)
    requires a + b <= |s|
    ensures s[a..][b..] == s[a + b..]
  {
  }

  lemma ThreeParts(a: string, b: string, c: string)
    ensures (a + b + c)[..|a|] == a && (a + b + c)[|a| + |b|..] == c
  {
  }

  lemma Regroup(a: string, b: string, c: string, d: string, e: string)
    ensures a + b + c + d + e == a + b + (c + d + e)
  {
  }

  /** The first index at which s occurs in text, or -1. */
  function Find(text: string, s: string): (i: int)
    ensures -1 <= i && (i >= 0 ==> i + |s| <= |text|)
  {
    if s <= text then 0
    else if text == [] then -1
    else
      var i := Find(text[1..], s);
      if i < 0 then -1 else i + 1
  }

  lemma {:induction false} FindIsThere(text: string, s: string)
    requires Find(text, s) >= 0
    ensures s <= text[Find(text, s)..]
  {
    if s <= text {
      assert text[0..] == text;
    } else {
      FindIsThere(text[1..], s);
      assert text[Find(text, s)..] == text[1..][Find(text[1..], s)..];
    }
  }

  lemma {:induction false} FindIsFirst(text: string, s: string, k: nat)
    requires k <= |text| && s <= text[k..]
    ensures 0 <= Find(text, s) <= k
  {
    if k == 0 {
      assert text[0..] == text;
    } else if !(s <= text) {
      assert text[k..] == text[1..][k - 1..];
      FindIsFirst(text[1..], s, k - 1);
    }
  }

  /** What was found is there. */
  lemma FoundAt(text: string, s: string)
    requires Find(text, s) >= 0
    ensures forall i :: 0 <= i < |s| ==> text[Find(text, s) + i] == s[i] && s[i] in text
  {
    var k := Find(text, s);
    FindIsThere(text, s);
    forall i | 0 <= i < |s| ensures text[k + i] == s[i] && s[i] in text {
      assert text[k..][i] == s[i];
    }
  }

  lemma NoMark(line: string, mark: string)
    requires mark != [] && mark[0] !in line
    ensures Find(line, mark) < 0
  {
    if Find(line, mark) >= 0 {
      FoundAt(line, mark);
    }
  }

  lemma FoundAtEnd(front: string, mark: string)
    requires mark != [] && mark[0] !in front
    ensures Find(front + mark, mark) == |front|
  {
    var line, n := front + mark, |front|;
    assert line[n..] == mark;
    FindIsFirst(line, mark, n);
    FoundAt(line, mark);
    assert line[Find(line, mark) + 0] == mark[0];
    assert forall i :: 0 <= i < n ==> line[i] in front;
  }

  function Join(parts: seq<string>, sep: string): string {
    if parts == [] then []
    else if |parts| == 1 then parts[0]
    else parts[0] + sep + Join(parts[1..], sep)
  }

  function Concat(parts: seq<string>): string {
    if parts == [] then [] else parts[0] + Concat(parts[1..])
  }

  /** The parts that are not white space only, trimmed. */
  function TrimmedNonEmpty(parts: seq<string>): seq<string> {
    if parts == [] then []
    else
      var t := TrimSpace(parts[0]);
      (if t == [] then [] else [t]) + TrimmedNonEmpty(parts[1..])
  }

  /** Decimal digits. */
  function Itoa(n: nat): string {
    if n < 10 then ['0' + n as char] else Itoa(n / 10) + ['0' + (n % 10) as char]
  }
}
