/** Reasoning marked up in message text: <think> ... </think>, blocks not nested. */
module ThinkTags {
  import opened Text

  const OPEN := "<think>"
  const CLOSE := "</think>"

  /** A tag that cannot overlap itself: its first character occurs nowhere else in it. */
  ghost predicate Tag(tag: string) {
    tag != [] && forall i :: 1 <= i < |tag| ==> tag[i] != tag[0]
  }

  lemma TagsAreTags()
    ensures Tag(OPEN) && Tag(CLOSE)
  {
  }

  /** One match of the pattern, with the text before and behind it. */
  datatype Match = NoMatch | Match(gap: string, block: string, tail: string)

  /** The first opening tag and, behind it, the first closing tag. */
  function FirstMatch(open: string, close: string, text: string): (m: Match)
    requires open != []
    ensures m.Match? ==> |m.tail| < |text|
  {
    var i := Find(text, open);
    if i < 0 then NoMatch else MatchFrom(open, close, text, i)
  }

  /** The match with the opening tag at i. */
  function MatchFrom(open: string, close: string, text: string, i: nat): (m: Match)
    requires i + |open| <= |text|
    ensures m.Match? ==> |m.tail| <= |text| - |open|
  {
    MatchBefore(close, text[..i], text[i + |open|..])
  }

  /** The match with that gap, and the body behind the opening tag. */
  function MatchBefore(close: string, gap: string, body: string): (m: Match)
    ensures m.Match? ==> |m.tail| <= |body|
  {
    var j := Find(body, close);
    if j < 0 then NoMatch else Match(gap, body[..j], body[j + |close|..])
  }

  /** A text cut into gaps and blocks: gap, block, gap, ..., gap. */
  datatype Parsed = Parsed(gaps: seq<string>, blocks: seq<string>)

  /** All matches from left to right; without a further match the rest is the last gap. */
  function Scan(open: string, close: string, text: string): (p: Parsed)
    requires open != []
    ensures |p.gaps| == |p.blocks| + 1
    decreases |text|
  {
    match FirstMatch(open, close, text)
    case NoMatch => Parsed([text], [])
    case Match(gap, block, tail) =>
      var rest := Scan(open, close, tail);
      Parsed([gap] + rest.gaps, [block] + rest.blocks)
  }

  function Print(open: string, close: string, p: Parsed): string
    requires |p.gaps| == |p.blocks| + 1
    decreases |p.blocks|
  {
    if p.blocks == [] then p.gaps[0]
    else p.gaps[0] + open + p.blocks[0] + close + Print(open, close, Parsed(p.gaps[1..], p.blocks[1..]))
  }

  lemma FindCuts(text: string, tag: string)
    requires Find(text, tag) >= 0
    ensures var i := Find(text, tag); text == text[..i] + tag + text[i + |tag|..]
  {
    CutsAt(text, tag, Find(text, tag));
  }

  lemma CutsAt(text: string, tag: string, i: nat)
    requires i + |tag| <= |text| && tag <= text[i..]
    ensures text == text[..i] + tag + text[i + |tag|..]
  {
    DropDrop(text, i, |tag|);
    assert text[i..] == tag + text[i..][|tag|..];
  }

  lemma MatchCuts(open: string, close: string, text: string)
    requires open != [] && FirstMatch(open, close, text).Match?
    ensures var m := FirstMatch(open, close, text); text == m.gap + open + m.block + close + m.tail
  {
    FindCuts(text, open);
    var body := text[Find(text, open) + |open|..];
    FindCuts(body, close);
    var m := FirstMatch(open, close, text);
    Regroup(m.gap, open, m.block, close, m.tail);
  }

  /** No text is lost or moved by scanning. */
  lemma {:induction false} PrintOfScan(open: string, close: string, text: string)
    requires open != []
    ensures Print(open, close, Scan(open, close, text)) == text
    decreases |text|
  {
    var m := FirstMatch(open, close, text);
    if m.Match? {
      MatchCuts(open, close, text);
      PrintOfScan(open, close, m.tail);
      var p, rest := Scan(open, close, text), Scan(open, close, m.tail);
      assert p.gaps[1..] == rest.gaps && p.blocks[1..] == rest.blocks;
    }
  }

  /** The pattern matches from i, with a closing tag at j. */
  ghost predicate MatchAt(open: string, close: string, text: string, i: nat, j: nat) {
    i + |open| <= j <= |text| && open <= text[i..] && close <= text[j..]
  }

  lemma TailFrom(text: string, s: string, start: nat)
    requires start <= |text| && Find(text[start..], s) >= 0
    ensures s <= text[start + Find(text[start..], s)..]
  {
    FindIsThere(text[start..], s);
    DropDrop(text, start, Find(text[start..], s));
  }

  /** The regular-expression reading of FirstMatch: it is a match if there is any, the leftmost one,
      and the shortest from there. */
  lemma LeftmostShortest(open: string, close: string, text: string, i: nat, j: nat)
    requires open != [] && MatchAt(open, close, text, i, j)
    ensures var m := FirstMatch(open, close, text);
            && m.Match? && MatchAt(open, close, text, |m.gap|, |m.gap| + |open| + |m.block|)
            && (|m.gap| < i || (|m.gap| == i && |m.gap| + |open| + |m.block| <= j))
  {
    var g := FoundOpen(open, text, i);
    var start := g + |open|;
    var b := FoundClose(close, text, start, j);
    ThereTheyAre(open, close, text, g, start, b);
    MatchIs(open, close, text, g, start, b);
    SameSizes(open, close, text, g, b, FirstMatch(open, close, text));
  }

  lemma ThereTheyAre(open: string, close: string, text: string, g: nat, start: nat, b: nat)
    requires start == g + |open| && start + b <= |text| && open <= text[g..] && close <= text[start + b..]
    ensures MatchAt(open, close, text, g, start + b)
  {
  }

  lemma FoundOpen(open: string, text: string, i: nat) returns (g: nat)
    requires i <= |text| && open <= text[i..]
    ensures g == Find(text, open) && g <= i && open <= text[g..]
  {
    FindIsFirst(text, open, i);
    FindIsThere(text, open);
    g := Find(text, open);
  }

  lemma SameSizes(open: string, close: string, text: string, g: nat, b: nat, m: Match)
    requires MatchAt(open, close, text, g, g + |open| + b)
    requires m.Match? && |m.gap| == g && |m.block| == b
    ensures MatchAt(open, close, text, |m.gap|, |m.gap| + |open| + |m.block|)
  {
  }

  lemma MatchIs(open: string, close: string, text: string, i: nat, start: nat, b: nat)
    requires start == i + |open| <= |text| && Find(text[start..], close) == b
    ensures var m := MatchFrom(open, close, text, i); m.Match? && |m.gap| == i && |m.block| == b
  {
    MatchSizes(close, text[..i], text[start..]);
  }

  lemma MatchSizes(close: string, gap: string, body: string)
    requires Find(body, close) >= 0
    ensures var m := MatchBefore(close, gap, body);
      m.Match? && |m.gap| == |gap| && |m.block| == Find(body, close)
  {
  }

  lemma FoundClose(close: string, text: string, start: nat, j: nat) returns (b: nat)
    requires start <= j <= |text| && close <= text[j..]
    ensures b == Find(text[start..], close) && b <= j - start && close <= text[start + b..]
  {
    DropDrop(text, start, j - start);
    FindIsFirst(text[start..], close, j - start);
    TailFrom(text, close, start);
    b := Find(text[start..], close);
  }

  // --- Parsing undoes printing. ---

  /** What a scan can yield: gaps without an opening tag, blocks without a closing tag, and a last
      gap without a complete match. */
  ghost predicate Canonical(open: string, close: string, p: Parsed)
    requires open != []
    decreases |p.blocks|
  {
    && |p.gaps| == |p.blocks| + 1
    && if p.blocks == [] then FirstMatch(open, close, p.gaps[0]).NoMatch?
       else Find(p.gaps[0], open) < 0 && Find(p.blocks[0], close) < 0
            && Canonical(open, close, Parsed(p.gaps[1..], p.blocks[1..]))
  }

  lemma NotBefore(gap: string, tag: string, rest: string)
    requires Tag(tag) && gap != [] && !(tag <= gap)
    ensures !(tag <= gap + tag + rest)
  {
    var text := gap + tag + rest;
    assert |tag| <= |gap| ==> text[..|tag|] == gap[..|tag|];
    assert text[|gap|] == tag[0];
  }

  /** Put behind text free of it, a tag is the first one. */
  lemma {:induction false} FirstTag(gap: string, tag: string, rest: string)
    requires Tag(tag) && Find(gap, tag) < 0
    ensures Find(gap + tag + rest, tag) == |gap|
  {
    var text := gap + tag + rest;
    if gap == [] {
      assert text == tag + rest;
    } else {
      assert text[1..] == gap[1..] + tag + rest;
      NotBefore(gap, tag, rest);
      FirstTag(gap[1..], tag, rest);
    }
  }

  lemma MatchOfPrinted(open: string, close: string, gap: string, block: string, tail: string)
    requires Tag(open) && Tag(close) && Find(gap, open) < 0 && Find(block, close) < 0
    ensures FirstMatch(open, close, gap + open + block + close + tail) == Match(gap, block, tail)
  {
    var body := block + close + tail;
    Regroup(gap, open, block, close, tail);
    FirstTag(gap, open, body);
    ThreeParts(gap, open, body);
    FirstTag(block, close, tail);
    ThreeParts(block, close, tail);
  }

  lemma ScanStep(open: string, close: string, text: string, gap: string, block: string, tail: string)
    requires open != [] && FirstMatch(open, close, text) == Match(gap, block, tail)
    ensures var rest := Scan(open, close, tail);
            Scan(open, close, text) == Parsed([gap] + rest.gaps, [block] + rest.blocks)
  {
  }

  lemma HeadAndTail(s: seq<string>)
    requires s != []
    ensures [s[0]] + s[1..] == s
  {
  }

  lemma {:induction false} CanonicalIsScanned(open: string, close: string, p: Parsed)
    requires Tag(open) && Tag(close) && Canonical(open, close, p)
    ensures Scan(open, close, Print(open, close, p)) == p
    decreases |p.blocks|
  {
    if p.blocks == [] {
      assert p.gaps == [p.gaps[0]];
    } else {
      var rest := Parsed(p.gaps[1..], p.blocks[1..]);
      var tail := Print(open, close, rest);
      CanonicalIsScanned(open, close, rest);
      MatchOfPrinted(open, close, p.gaps[0], p.blocks[0], tail);
      ScanStep(open, close, Print(open, close, p), p.gaps[0], p.blocks[0], tail);
      HeadAndTail(p.gaps);
      HeadAndTail(p.blocks);
    }
  }

  lemma BeforeFirst(text: string, tag: string)
    requires tag != [] && Find(text, tag) >= 0
    ensures Find(text[..Find(text, tag)], tag) < 0
  {
    var i := Find(text, tag);
    var k := Find(text[..i], tag);
    if k >= 0 {
      FindIsThere(text[..i], tag);
      assert tag <= text[..i][k..] <= text[k..];
      FindIsFirst(text, tag, k);
    }
  }

  lemma {:induction false} ScanIsCanonical(open: string, close: string, text: string)
    requires open != [] && close != []
    ensures Canonical(open, close, Scan(open, close, text))
    decreases |text|
  {
    var m := FirstMatch(open, close, text);
    if m.Match? {
      BeforeFirst(text, open);
      BeforeMatch(open, close, text, Find(text, open));
      ScanIsCanonical(open, close, m.tail);
      OneMore(open, close, m.gap, m.block, Scan(open, close, m.tail));
    }
  }

  lemma BeforeMatch(open: string, close: string, text: string, i: nat)
    requires open != [] && close != [] && i + |open| <= |text|
    ensures var m := MatchFrom(open, close, text, i);
      m.Match? ==> m.gap == text[..i] && Find(m.block, close) < 0
  {
    var body := text[i + |open|..];
    if Find(body, close) >= 0 {
      BeforeFirst(body, close);
    }
  }

  lemma OneMore(open: string, close: string, gap: string, block: string, rest: Parsed)
    requires open != [] && close != [] && Canonical(open, close, rest)
    requires Find(gap, open) < 0 && Find(block, close) < 0
    ensures Canonical(open, close, Parsed([gap] + rest.gaps, [block] + rest.blocks))
  {
    assert ([gap] + rest.gaps)[1..] == rest.gaps && ([block] + rest.blocks)[1..] == rest.blocks;
  }

  /** Scanning gives back the gaps and blocks a text was printed from, exactly if they are canonical. */
  lemma ScanOfPrint(open: string, close: string, p: Parsed)
    requires Tag(open) && Tag(close) && |p.gaps| == |p.blocks| + 1
    ensures Scan(open, close, Print(open, close, p)) == p <==> Canonical(open, close, p)
  {
    if Canonical(open, close, p) {
      CanonicalIsScanned(open, close, p);
    }
    ScanIsCanonical(open, close, Print(open, close, p));
  }

  // --- Extraction. ---

  /** The reasoning, and the text without it. Without a match the text stays untrimmed. */
  function ExtractAndRemoveThinkTags(text: string): (string, string) {
    var p := Scan(OPEN, CLOSE, text);
    if p.blocks == [] then ("", text)
    else (Join(TrimmedNonEmpty(p.blocks), "\n"), TrimSpace(Concat(p.gaps)))
  }

  /** The texts are what the blocks have between white space, blank ones left out, in order. */
  ghost predicate Lists(texts: seq<string>, blocks: seq<string>)
    decreases |blocks|
  {
    if blocks == [] then texts == []
    else
      var n, m := |blocks| - 1, |texts| - 1;
      var t := TrimSpace(blocks[n]);
      if t == "" then Lists(texts, blocks[..n])
      else texts != [] && texts[m] == t && Lists(texts[..m], blocks[..n])
  }

  lemma {:induction false} TrimmedMore(blocks: seq<string>, b: string)
    ensures TrimmedNonEmpty(blocks + [b])
         == TrimmedNonEmpty(blocks) + if TrimSpace(b) == "" then [] else [TrimSpace(b)]
  {
    if blocks == [] {
      assert [b][1..] == [] && [] + [b] == [b];
    } else {
      assert (blocks + [b])[1..] == blocks[1..] + [b];
      TrimmedMore(blocks[1..], b);
    }
  }

  lemma {:induction false} TrimmedAreListed(blocks: seq<string>)
    ensures Lists(TrimmedNonEmpty(blocks), blocks)
    decreases |blocks|
  {
    if blocks != [] {
      var n := |blocks| - 1;
      assert blocks == blocks[..n] + [blocks[n]];
      TrimmedMore(blocks[..n], blocks[n]);
      TrimmedAreListed(blocks[..n]);
      OneMoreListed(TrimmedNonEmpty(blocks[..n]), blocks);
    }
  }

  lemma OneMoreListed(texts: seq<string>, blocks: seq<string>)
    requires blocks != [] && Lists(texts, blocks[..|blocks| - 1])
    ensures var t := TrimSpace(blocks[|blocks| - 1]);
      Lists(texts + if t == "" then [] else [t], blocks)
  {
    var t := TrimSpace(blocks[|blocks| - 1]);
    assert texts + [] == texts && (texts + [t])[..|texts|] == texts;
  }

  /** For text written with at least one block, the reasoning is the non-blank blocks, trimmed, one
      to a line, and what remains is the gaps run together and trimmed. */
  lemma ExtractionUndoesMarkup(p: Parsed)
    requires Canonical(OPEN, CLOSE, p) && p.blocks != []
    ensures var (reasoning, remaining) := ExtractAndRemoveThinkTags(Print("<think>", "</think>", p));
      && (exists texts :: Lists(texts, p.blocks) && reasoning == Join(texts, "\n"))
      && remaining == TrimSpace(Concat(p.gaps))
  {
    TagsAreTags();
    ScanOfPrint(OPEN, CLOSE, p);
    TrimmedAreListed(p.blocks);
  }

  // --- One pass and the next. ---

  lemma {:induction false} GapsAreShorter(open: string, close: string, p: Parsed)
    requires |p.gaps| == |p.blocks| + 1
    ensures |Concat(p.gaps)| + |p.blocks| * (|open| + |close|) <= |Print(open, close, p)|
    decreases |p.blocks|
  {
    if p.blocks == [] {
      assert p.gaps[1..] == [] && Concat(p.gaps) == p.gaps[0] + [];
    } else {
      GapsAreShorter(open, close, Parsed(p.gaps[1..], p.blocks[1..]));
      assert |p.blocks| * (|open| + |close|) == (|p.blocks| - 1) * (|open| + |close|) + |open| + |close|;
    }
  }

  lemma {:induction false} TrimIsShorter(s: string)
    ensures |TrimLeft(s)| <= |s| && |TrimRight(s)| <= |s|
    decreases |s|
  {
    if s != [] {
      TrimIsShorter(s[1..]);
      TrimIsShorter(s[..|s| - 1]);
    }
  }

  /** A pass over a text with a match takes something away, over any other nothing. */
  lemma PassChangesIff(text: string)
    ensures ExtractAndRemoveThinkTags(text).1 == text <==> FirstMatch(OPEN, CLOSE, text).NoMatch?
  {
    var p := Scan(OPEN, CLOSE, text);
    if FirstMatch(OPEN, CLOSE, text).Match? {
      PrintOfScan(OPEN, CLOSE, text);
      GapsAreShorter(OPEN, CLOSE, p);
      var n := |OPEN| + |CLOSE|;
      assert |p.blocks| * n >= n > 0;
      TrimIsShorter(Concat(p.gaps));
      TrimIsShorter(TrimLeft(Concat(p.gaps)));
    }
  }

  // --- Space around a text does not matter to what matches in it. ---

  ghost predicate HasMatch(open: string, close: string, text: string) {
    exists i: nat, j: nat :: MatchAt(open, close, text, i, j)
  }

  lemma TagsOfMatch(open: string, close: string, text: string) returns (i: nat, j: nat)
    requires open != [] && FirstMatch(open, close, text).Match?
    ensures MatchAt(open, close, text, i, j)
  {
    i := Find(text, open);
    FindIsThere(text, open);
    TailFrom(text, close, i + |open|);
    j := i + |open| + Find(text[i + |open|..], close);
  }

  lemma HasMatchIff(open: string, close: string, text: string)
    requires open != []
    ensures HasMatch(open, close, text) <==> FirstMatch(open, close, text).Match?
  {
    if FirstMatch(open, close, text).Match? {
      var i, j := TagsOfMatch(open, close, text);
    }
    forall i: nat, j: nat | MatchAt(open, close, text, i, j) ensures FirstMatch(open, close, text).Match? {
      LeftmostShortest(open, close, text, i, j);
    }
  }

  /** A tag that white space cannot touch. */
  ghost predicate Visible(tag: string) {
    tag != [] && !IsSpace(tag[0]) && !IsSpace(tag[|tag| - 1])
  }

  lemma SpaceInFront(open: string, close: string, c: char, text: string)
    requires Visible(open) && Visible(close) && IsSpace(c)
    ensures HasMatch(open, close, [c] + text) <==> HasMatch(open, close, text)
  {
    var long := [c] + text;
    if HasMatch(open, close, text) {
      var i: nat, j: nat :| MatchAt(open, close, text, i, j);
      assert long[i + 1..] == text[i..] && long[j + 1..] == text[j..];
      assert MatchAt(open, close, long, i + 1, j + 1);
    }
    if HasMatch(open, close, long) {
      var i: nat, j: nat :| MatchAt(open, close, long, i, j);
      assert long[i..][0] == open[0] == long[i];
      assert i > 0 && j > 0;
      assert long[i..] == text[i - 1..] && long[j..] == text[j - 1..];
      assert MatchAt(open, close, text, i - 1, j - 1);
    }
  }

  lemma PrefixOrWhole(tag: string, s: string, c: char)
    requires tag != [] && tag <= s + [c]
    ensures tag <= s || tag[|tag| - 1] == c
  {
  }

  lemma PrefixWithoutLast(tag: string, s: string, c: char)
    requires Visible(tag) && IsSpace(c)
    ensures tag <= s + [c] <==> tag <= s
  {
    if tag <= s + [c] {
      PrefixOrWhole(tag, s, c);
    }
  }

  lemma SpaceBehind(open: string, close: string, text: string, c: char)
    requires Visible(open) && Visible(close) && IsSpace(c)
    ensures HasMatch(open, close, text + [c]) <==> HasMatch(open, close, text)
  {
    var long := text + [c];
    if HasMatch(open, close, text) {
      var i: nat, j: nat :| MatchAt(open, close, text, i, j);
      assert long[i..] == text[i..] + [c] && long[j..] == text[j..] + [c];
      PrefixWithoutLast(open, text[i..], c);
      PrefixWithoutLast(close, text[j..], c);
      assert MatchAt(open, close, long, i, j);
    }
    if HasMatch(open, close, long) {
      var i: nat, j: nat :| MatchAt(open, close, long, i, j);
      if j <= |text| {
        assert long[i..] == text[i..] + [c] && long[j..] == text[j..] + [c];
        PrefixWithoutLast(open, text[i..], c);
        PrefixWithoutLast(close, text[j..], c);
        assert MatchAt(open, close, text, i, j);
      }
    }
  }

  lemma {:induction false} TrimKeepsMatches(open: string, close: string, s: string)
    requires Visible(open) && Visible(close)
    ensures HasMatch(open, close, TrimLeft(s)) <==> HasMatch(open, close, s)
    ensures HasMatch(open, close, TrimRight(s)) <==> HasMatch(open, close, s)
    decreases |s|
  {
    if s != [] {
      var n := |s| - 1;
      TrimKeepsMatches(open, close, s[1..]);
      TrimKeepsMatches(open, close, s[..n]);
      assert s == [s[0]] + s[1..] && s == s[..n] + [s[n]];
      if IsSpace(s[0]) { SpaceInFront(open, close, s[0], s[1..]); }
      if IsSpace(s[n]) { SpaceBehind(open, close, s[..n], s[n]); }
    }
  }

  /** The gaps, run together, have no match. */
  ghost predicate GapsDoNotMatch(text: string) {
    FirstMatch(OPEN, CLOSE, Concat(Scan(OPEN, CLOSE, text).gaps)).NoMatch?
  }

  /** One pass is enough, a second one changes nothing, exactly if no match forms where blocks are taken out. */
  lemma OnePassIsEnoughIff(text: string)
    ensures var once := ExtractAndRemoveThinkTags(text).1;
      ExtractAndRemoveThinkTags(once).1 == once <==> GapsDoNotMatch(text)
  {
    var p := Scan(OPEN, CLOSE, text);
    var all := Concat(p.gaps);
    var once := ExtractAndRemoveThinkTags(text).1;
    PassChangesIff(once);
    if p.blocks == [] {
      ConcatOne(text);
      assert p.gaps == [text];
    } else {
      TagsAreVisible();
      TrimKeepsMatches(OPEN, CLOSE, all);
      TrimKeepsMatches(OPEN, CLOSE, TrimLeft(all));
      HasMatchIff(OPEN, CLOSE, all);
      HasMatchIff(OPEN, CLOSE, once);
    }
  }

  lemma TagsAreVisible()
    ensures Visible(OPEN) && Visible(CLOSE)
  {
  }

  // --- Texts for which it is. ---

  /** The text ends in the beginning of the tag. */
  ghost predicate EndsInBeginning(s: string, tag: string) {
    exists k :: 0 < k < |tag| && k <= |s| && s[|s| - k..] == tag[..k]
  }

  lemma BeginsAcross(s: string, tag: string, rest: string)
    requires s != [] && tag <= s + rest
    ensures tag <= s || EndsInBeginning(s, tag)
  {
    var n := |s|;
    assert (s + rest)[..n] == s && s[n - n..] == s;
    if |tag| <= n {
      assert (s + rest)[..|tag|] == s[..|tag|];
    } else {
      assert tag[..n] == s;
    }
  }

  lemma NoTagAcross(s: string, tag: string, rest: string)
    requires !EndsInBeginning(s, tag) && s != [] && !(tag <= s)
    ensures !(tag <= s + rest)
  {
    if tag <= s + rest {
      BeginsAcross(s, tag, rest);
    }
  }

  lemma EndOfRest(s: string, tag: string)
    requires s != [] && EndsInBeginning(s[1..], tag)
    ensures EndsInBeginning(s, tag)
  {
    var k :| 0 < k < |tag| && k <= |s[1..]| && s[1..][|s[1..]| - k..] == tag[..k];
    assert s[|s| - k..] == s[1..][|s[1..]| - k..];
  }

  /** Behind a text without the tag that does not end in its beginning, the tag is found where it is. */
  lemma {:induction false} FindBehind(s: string, tag: string, rest: string)
    requires tag != [] && Find(s, tag) < 0 && !EndsInBeginning(s, tag)
    ensures Find(s + rest, tag) == if Find(rest, tag) < 0 then -1 else |s| + Find(rest, tag)
  {
    if s == [] {
      assert s + rest == rest;
    } else {
      if EndsInBeginning(s[1..], tag) {
        EndOfRest(s, tag);
      }
      NoTagAcross(s, tag, rest);
      assert (s + rest)[1..] == s[1..] + rest;
      FindBehind(s[1..], tag, rest);
    }
  }

  lemma MatchBehind(s: string, open: string, close: string, rest: string)
    requires open != [] && Find(s, open) < 0 && !EndsInBeginning(s, open)
    ensures FirstMatch(open, close, s + rest).Match? <==> FirstMatch(open, close, rest).Match?
  {
    FindBehind(s, open, rest);
    if Find(rest, open) >= 0 {
      MatchOfSecond(open, close, s, rest, Find(rest, open), Find(s + rest, open));
    }
  }

  lemma MatchOfSecond(open: string, close: string, s: string, rest: string, i: nat, k: nat)
    requires i + |open| <= |rest| && k == |s| + i
    ensures MatchFrom(open, close, s + rest, k).Match? <==> MatchFrom(open, close, rest, i).Match?
  {
    assert (s + rest)[k + |open|..] == rest[i + |open|..];
  }

  lemma ConcatOne(s: string)
    ensures Concat([s]) == s
  {
    assert [s][1..] == [] && Concat([s]) == s + [];
  }

  /** No gap in front of a block ends in the beginning of an opening tag. */
  ghost predicate NoTornTag(p: Parsed) {
    forall i :: 0 <= i < |p.gaps| - 1 ==> !EndsInBeginning(p.gaps[i], OPEN)
  }

  lemma {:induction false} NothingForms(p: Parsed)
    requires Canonical(OPEN, CLOSE, p) && NoTornTag(p)
    ensures FirstMatch(OPEN, CLOSE, Concat(p.gaps)).NoMatch?
    decreases |p.blocks|
  {
    var rest := Parsed(p.gaps[1..], p.blocks[if p.blocks == [] then 0 else 1..]);
    if p.blocks == [] {
      ConcatOne(p.gaps[0]);
      assert p.gaps == [p.gaps[0]];
    } else {
      assert forall i :: 0 <= i < |rest.gaps| - 1 ==> rest.gaps[i] == p.gaps[i + 1];
      NothingForms(rest);
      MatchBehind(p.gaps[0], OPEN, CLOSE, Concat(rest.gaps));
    }
  }

  /** So one pass is enough for every text in which no block stands right behind the beginning of an
      opening tag. */
  lemma OnePassIsEnough(text: string)
    requires NoTornTag(Scan(OPEN, CLOSE, text))
    ensures var once := ExtractAndRemoveThinkTags(text).1; ExtractAndRemoveThinkTags(once) == ("", once)
  {
    ScanIsCanonical(OPEN, CLOSE, text);
    NothingForms(Scan(OPEN, CLOSE, text));
    OnePassIsEnoughIff(text);
    PassChangesIff(ExtractAndRemoveThinkTags(text).1);
  }

  // --- And texts for which it is not. ---

  lemma FirstTwo(text: string, tag: string)
    requires |tag| >= 2 && tag <= text
    ensures text[0] == tag[0] && text[0 + 1] == tag[1]
  {
  }

  lemma {:induction false} NotFound(text: string, tag: string)
    requires |tag| >= 2 && forall k :: 0 <= k < |text| - 1 ==> !(text[k] == tag[0] && text[k + 1] == tag[1])
    ensures Find(text, tag) < 0
  {
    if tag <= text {
      FirstTwo(text, tag);
    } else if text != [] {
      NotFound(text[1..], tag);
    }
  }

  lemma TrimmedAlready(s: string)
    requires s != [] && !IsSpace(s[0]) && !IsSpace(s[|s| - 1])
    ensures TrimSpace(s) == s
  {
  }

  lemma NoOpeningTag(k: nat, b: string)
    requires 0 < k <= |OPEN| && '<' !in b
    ensures Find(OPEN[k..] + b + CLOSE, OPEN) < 0
  {
    var text := OPEN[k..] + b + CLOSE;
    var n := |OPEN| - k + |b|;
    forall i | 0 <= i < |text| - 1 ensures !(text[i] == OPEN[0] && text[i + 1] == OPEN[1]) {
      if i < n {
        assert text[i] in OPEN[1..] || text[i] in b;
      } else {
        assert text[i] == CLOSE[i - n] && text[i + 1] == CLOSE[i - n + 1];
      }
    }
    NotFound(text, OPEN);
  }

  lemma Rejoined(w: string, k: nat, b: string, c: string)
    requires k <= |w|
    ensures w[..k] + (w[k..] + b + c) == w + b + c
  {
    assert w == w[..k] + w[k..];
  }

  lemma MatchAlone(open: string, close: string, b: string)
    requires Tag(open) && Tag(close) && Find(b, close) < 0
    ensures FirstMatch(open, close, open + b + close) == Match("", b, "")
  {
    MatchOfPrinted(open, close, "", b, "");
    assert "" + open == open;
    assert (open + b + close) + "" == open + b + close;
  }

  lemma TornTagIsCanonical(k: nat, a: string, b: string)
    requires 0 < k < |OPEN| && Find(a, CLOSE) < 0 && '<' !in b
    ensures Canonical(OPEN, CLOSE, Parsed([OPEN[..k], OPEN[k..] + b + CLOSE], [a]))
  {
    NoOpeningTag(k, b);
    var p := Parsed([OPEN[..k], OPEN[k..] + b + CLOSE], [a]);
    assert p.gaps[1..] == [p.gaps[1]] && p.blocks[1..] == [];
  }

  /** Removing a block can bring the two halves of a tag together: one pass is not always enough,
      and a second one would find more. */
  lemma RemovalCanFormATag(k: nat, a: string, b: string)
    requires 0 < k < |OPEN| && Find(a, CLOSE) < 0 && '<' !in b
    ensures var p := Parsed([OPEN[..k], OPEN[k..] + b + CLOSE], [a]);
            var once := ExtractAndRemoveThinkTags(Print(OPEN, CLOSE, p)).1;
            once == OPEN + b + CLOSE && FirstMatch(OPEN, CLOSE, once) == Match("", b, "")
  {
    var last := OPEN[k..] + b + CLOSE;
    TornTagIsCanonical(k, a, b);
    ExtractionUndoesMarkup(Parsed([OPEN[..k], last], [a]));
    ConcatTwo(OPEN[..k], last);
    Rejoined(OPEN, k, b, CLOSE);
    TrimmedAlready(OPEN + b + CLOSE);
    TagsAreTags();
    NoBlockEnd(b);
    MatchAlone(OPEN, CLOSE, b);
  }

  lemma ConcatTwo(a: string, b: string)
    ensures Concat([a, b]) == a + b
  {
    assert [a, b][1..] == [b] && [b][1..] == [];
    assert Concat([b]) == b + [] == b;
  }

  lemma NoBlockEnd(b: string)
    requires '<' !in b
    ensures Find(b, CLOSE) < 0
  {
    assert CLOSE[0] == '<';
    if Find(b, CLOSE) >= 0 {
      FoundAt(b, CLOSE);
    }
  }
}
