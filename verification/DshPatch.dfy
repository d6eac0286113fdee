/** The entry of a DSH patch file that an export owns: cutting it out and putting one in. */
module DshPatch {
  import opened Text

  const ENTRY_LINE := "- id: llm-pi-ai"
  const ITEM := "- "

  /** The lines with their line breaks; the last has none. */
  function SplitAfter(s: string): (lines: seq<string>)
    ensures lines != []
  {
    if s == [] then [""]
    else
      var rest := SplitAfter(s[1..]);
      if s[0] == '\n' then ["\n"] + rest else [[s[0]] + rest[0]] + rest[1..]
  }

  predicate IsEntry(line: string) {
    TrimSpace(line) == ENTRY_LINE
  }

  predicate IsItem(line: string) {
    ITEM <= line
  }

  /** A blank line or a comment; at the end of an entry it belongs to what follows. */
  predicate IsGap(line: string) {
    var t := TrimSpace(line);
    t == "" || t[0] == '#'
  }

  /** The first line of the entry, or the number of lines. */
  function StartOf(lines: seq<string>): (i: nat)
    ensures i <= |lines|
    ensures i < |lines| ==> IsEntry(lines[i])
    ensures forall k :: 0 <= k < i ==> !IsEntry(lines[k])
  {
    EntryFrom(lines, 0)
  }

  function EntryFrom(lines: seq<string>, from: nat): (i: nat)
    requires from <= |lines|
    ensures from <= i <= |lines|
    ensures i < |lines| ==> IsEntry(lines[i])
    ensures forall k :: from <= k < i ==> !IsEntry(lines[k])
    decreases |lines| - from
  {
    if from == |lines| || IsEntry(lines[from]) then from else EntryFrom(lines, from + 1)
  }

  function NextItem(lines: seq<string>, from: nat): (i: nat)
    requires from <= |lines|
    ensures from <= i <= |lines|
    ensures i < |lines| ==> IsItem(lines[i])
    ensures forall k :: from <= k < i ==> !IsItem(lines[k])
    decreases |lines| - from
  {
    if from == |lines| || IsItem(lines[from]) then from else NextItem(lines, from + 1)
  }

  function BackOver(lines: seq<string>, first: nat, end: nat): (i: nat)
    requires first <= end <= |lines|
    ensures first <= i <= end
    ensures i > first ==> !IsGap(lines[i - 1])
    ensures forall k :: i <= k < end ==> IsGap(lines[k])
  {
    if end > first && IsGap(lines[end - 1]) then BackOver(lines, first, end - 1) else end
  }

  function EndOf(lines: seq<string>): (i: nat)
    requires StartOf(lines) < |lines|
    ensures StartOf(lines) < i <= |lines|
  {
    var s := StartOf(lines) + 1;
    BackOver(lines, s, NextItem(lines, s))
  }

  datatype Cut = Cut(block: string, before: string, after: string, found: bool)

  function CutEntry(content: string): Cut {
    var lines := SplitAfter(content);
    if StartOf(lines) == |lines| then Cut("", content, "", false)
    else
      var s, e := StartOf(lines), EndOf(lines);
      Cut(Concat(lines[s..e]), Concat(lines[..s]), Concat(lines[e..]), true)
  }

  method FindStart(lines: seq<string>) returns (start: int)
    ensures start == if StartOf(lines) < |lines| then StartOf(lines) else -1
  {
    start := -1;
    for i := 0 to |lines|
      invariant start == -1 && StartOf(lines) >= i
    {
      if IsEntry(lines[i]) {
        return i;
      }
    }
  }

  method FindEnd(lines: seq<string>) returns (end: nat)
    requires StartOf(lines) < |lines|
    ensures end == EndOf(lines)
  {
    var start := StartOf(lines);
    end := |lines|;
    for i := start + 1 to |lines|
      invariant end == |lines| && NextItem(lines, start + 1) >= i
    {
      if IsItem(lines[i]) {
        end := i;
        break;
      }
    }
    while end > start + 1 && IsGap(lines[end - 1])
      invariant start + 1 <= end <= |lines|
      invariant BackOver(lines, start + 1, end) == EndOf(lines)
    {
      end := end - 1;
    }
  }

  method SplitDSHEntry(content: string) returns (cut: Cut)
    ensures cut == CutEntry(content)
  {
    var lines := SplitAfter(content);
    var start := FindStart(lines);
    if start < 0 {
      return Cut("", content, "", false);
    }
    var end := FindEnd(lines);
    return Cut(Concat(lines[start..end]), Concat(lines[..start]), Concat(lines[end..]), true);
  }

  predicate EndsInBreak(s: string) {
    s != [] && s[|s| - 1] == '\n'
  }

  /** A content without the entry, ready for it to be appended. */
  function Prepared(content: string): string {
    if content == "" then "" else if EndsInBreak(content) then content + "\n" else content + "\n" + "\n"
  }

  function SpliceDSHEntry(content: string, block: string): string {
    var cut := CutEntry(content);
    if cut.found then cut.before + block + "\n" + cut.after else Prepared(content) + block + "\n"
  }

  // --- Where the entry is, and what a splice does. ---

  predicate IsBlankOrComment(line: string) {
    TrimSpace(line) == "" || TrimSpace(line)[0] == '#'
  }

  /** The entry starts at s, the first such line, and ends at e: in front of the next item of the list,
      less the blank lines and comments there. */
  predicate IsEntryAt(lines: seq<string>, s: nat, e: nat, next: nat) {
    && s < e <= next <= |lines|
    && TrimSpace(lines[s]) == "- id: llm-pi-ai" && (forall k :: 0 <= k < s ==> TrimSpace(lines[k]) != "- id: llm-pi-ai")
    && (forall k :: s < k < next ==> !("- " <= lines[k])) && (next < |lines| ==> "- " <= lines[next])
    && (e == s + 1 || !IsBlankOrComment(lines[e - 1])) && (forall k :: e <= k < next ==> IsBlankOrComment(lines[k]))
  }

  lemma CutIs(content: string, s: nat, e: nat, next: nat)
    requires IsEntryAt(SplitAfter(content), s, e, next)
    ensures var lines := SplitAfter(content);
      CutEntry(content) == Cut(Concat(lines[s..e]), Concat(lines[..s]), Concat(lines[e..]), true)
  {
    var lines := SplitAfter(content);
    EntryAt(lines, 0, s);
    NextIs(lines, s + 1, next);
    BackTo(lines, s + 1, next, e);
  }

  lemma NextIs(lines: seq<string>, from: nat, next: nat)
    requires from <= next <= |lines| && (next < |lines| ==> "- " <= lines[next])
    requires forall k :: from <= k < next ==> !("- " <= lines[k])
    ensures NextItem(lines, from) == next
  {
  }

  /** The block takes the place of the entry; without one it is added at the end, behind an empty line. */
  lemma SpliceIs(content: string, block: string, s: nat, e: nat, next: nat)
    requires IsEntryAt(SplitAfter(content), s, e, next)
    ensures var lines := SplitAfter(content);
      SpliceDSHEntry(content, block) == Concat(lines[..s]) + block + "\n" + Concat(lines[e..])
  {
    CutIs(content, s, e, next);
  }

  lemma SpliceAdds(content: string, block: string)
    requires forall k :: 0 <= k < |SplitAfter(content)| ==> TrimSpace(SplitAfter(content)[k]) != "- id: llm-pi-ai"
    ensures !CutEntry(content).found
    ensures SpliceDSHEntry(content, block)
         == if content == "" then block + "\n"
            else if content[|content| - 1] == '\n' then content + "\n" + block + "\n"
            else content + "\n\n" + block + "\n"
  {
    NoStart(SplitAfter(content));
    SpliceAtEnd(content, block);
  }

  lemma NoStart(lines: seq<string>)
    requires forall k :: 0 <= k < |lines| ==> TrimSpace(lines[k]) != "- id: llm-pi-ai"
    ensures StartOf(lines) == |lines|
  {
  }

  lemma SpliceAtEnd(content: string, block: string)
    requires !CutEntry(content).found
    ensures SpliceDSHEntry(content, block)
         == if content == "" then block + "\n"
            else if content[|content| - 1] == '\n' then content + "\n" + block + "\n"
            else content + "\n\n" + block + "\n"
  {
    TwoBreaks(content);
  }

  lemma TwoBreaks(content: string)
    ensures content + "\n" + "\n" == content + "\n\n"
  {
  }

  // --- Lines and contents. ---

  predicate IsFull(line: string) {
    line != [] && line[|line| - 1] == '\n' && '\n' !in line[..|line| - 1]
  }

  /** Full lines, and one that is not. */
  predicate WellCut(lines: seq<string>) {
    && lines != [] && '\n' !in lines[|lines| - 1]
    && forall i :: 0 <= i < |lines| - 1 ==> IsFull(lines[i])
  }

  lemma Front(c: char, a: string, b: string)
    ensures ([c] + a) + b == [c] + (a + b)
  {
  }

  lemma PrependBreak(rest: seq<string>)
    requires WellCut(rest)
    ensures WellCut(["\n"] + rest)
  {
  }

  lemma PrependChar(c: char, rest: seq<string>)
    requires WellCut(rest) && c != '\n'
    ensures WellCut([[c] + rest[0]] + rest[1..])
  {
    var lines := [[c] + rest[0]] + rest[1..];
    if |rest| > 1 {
      assert IsFull(rest[0]);
      assert lines[0][..|lines[0]| - 1] == [c] + rest[0][..|rest[0]| - 1];
    }
  }

  lemma {:induction false} SplitAfterIsWellCut(s: string)
    ensures WellCut(SplitAfter(s)) && Concat(SplitAfter(s)) == s
  {
    if s != [] {
      var rest := SplitAfter(s[1..]);
      SplitAfterIsWellCut(s[1..]);
      var lines := SplitAfter(s);
      if s[0] == '\n' {
        PrependBreak(rest);
        assert lines[1..] == rest;
        assert Concat(lines) == "\n" + Concat(rest);
      } else {
        PrependChar(s[0], rest);
        assert lines[1..] == rest[1..];
        Front(s[0], rest[0], Concat(rest[1..]));
      }
    }
  }

  lemma {:induction false} FullLineFirst(line: string, rest: string)
    requires IsFull(line)
    ensures SplitAfter(line + rest) == [line] + SplitAfter(rest)
    decreases |line|
  {
    var s := line + rest;
    if |line| == 1 {
      assert line == "\n" && s[1..] == rest;
    } else {
      assert s[1..] == line[1..] + rest;
      assert line[0] in line[..|line| - 1];
      assert line[1..][..|line| - 2] == line[..|line| - 1][1..];
      FullLineFirst(line[1..], rest);
      assert [line[0]] + line[1..] == line;
    }
  }

  lemma {:induction false} OpenLine(line: string)
    requires '\n' !in line
    ensures SplitAfter(line) == [line]
  {
    if line != [] {
      assert line[0] in line;
      OpenLine(line[1..]);
      assert [line[0]] + line[1..] == line;
    }
  }

  lemma {:induction false} SplitAfterConcat(lines: seq<string>)
    requires WellCut(lines)
    ensures SplitAfter(Concat(lines)) == lines
  {
    if |lines| == 1 {
      OpenLine(lines[0]);
      assert Concat(lines) == lines[0];
    } else {
      SplitAfterConcat(lines[1..]);
      FullLineFirst(lines[0], Concat(lines[1..]));
    }
  }

  lemma {:induction false} ConcatAppend(a: seq<string>, b: seq<string>)
    ensures Concat(a + b) == Concat(a) + Concat(b)
  {
    if a == [] {
      assert a + b == b;
    } else {
      assert (a + b)[1..] == a[1..] + b;
      ConcatAppend(a[1..], b);
    }
  }

  lemma ThreePieces(lines: seq<string>, s: nat, e: nat)
    requires s <= e <= |lines|
    ensures lines[..s] + lines[s..e] == lines[..e] && lines[..e] + lines[e..] == lines
  {
  }

  lemma ConcatThree(lines: seq<string>, s: nat, e: nat)
    requires s <= e <= |lines|
    ensures Concat(lines[..s]) + Concat(lines[s..e]) + Concat(lines[e..]) == Concat(lines)
  {
    ConcatAppend(lines[..s], lines[s..e]);
    ConcatAppend(lines[..e], lines[e..]);
    ThreePieces(lines, s, e);
  }

  /** Nothing is lost or moved by cutting. */
  lemma CutConserves(content: string)
    ensures var cut := CutEntry(content); cut.before + cut.block + cut.after == content
  {
    var lines := SplitAfter(content);
    SplitAfterIsWellCut(content);
    if StartOf(lines) < |lines| {
      ConcatThree(lines, StartOf(lines), EndOf(lines));
    }
  }

  // --- Putting an entry in. ---

  /** The lines of a block that stands for the entry. */
  predicate IsEntryBlock(f: seq<string>) {
    && f != [] && IsEntry(f[0])
    && (forall i :: 0 <= i < |f| ==> IsFull(f[i]))
    && (forall i :: 1 <= i < |f| ==> !IsItem(f[i]))
    && (|f| > 1 ==> !IsGap(f[|f| - 1]))
  }

  /** A text, less its last line break, that parses as one entry. */
  predicate WellFormed(block: string) {
    IsEntryBlock(FullLines(block))
  }

  function FullLines(block: string): seq<string> {
    var lines := SplitAfter(block + "\n");
    lines[..|lines| - 1]
  }

  lemma FullLinesConcat(block: string)
    ensures Concat(FullLines(block)) == block + "\n"
  {
    var s := block + "\n";
    var lines := SplitAfter(s);
    SplitAfterIsWellCut(s);
    var n := |lines| - 1;
    assert lines == lines[..n] + [lines[n]];
    ConcatAppend(lines[..n], [lines[n]]);
    assert Concat([lines[n]]) == lines[n];
    if lines[n] != [] {
      LastOf(Concat(lines[..n]), lines[n]);
    }
  }

  lemma LastOf(a: string, b: string)
    requires b != []
    ensures (a + b)[|a + b| - 1] == b[|b| - 1]
  {
  }

  lemma {:induction false} BackTo(lines: seq<string>, first: nat, end: nat, e: nat)
    requires first <= e <= end <= |lines|
    requires e > first ==> !IsGap(lines[e - 1])
    requires forall k :: e <= k < end ==> IsGap(lines[k])
    ensures BackOver(lines, first, end) == e
  {
    if end > e {
      BackTo(lines, first, end - 1, e);
    }
  }

  lemma {:induction false} EntryAt(lines: seq<string>, from: nat, s: nat)
    requires from <= s < |lines| && IsEntry(lines[s]) && forall k :: from <= k < s ==> !IsEntry(lines[k])
    ensures EntryFrom(lines, from) == s
    decreases s - from
  {
    if from < s {
      EntryAt(lines, from + 1, s);
    }
  }

  lemma InThree(a: seq<string>, b: seq<string>, c: seq<string>)
    ensures forall k :: 0 <= k < |a| ==> (a + b + c)[k] == a[k]
    ensures forall k :: |a| <= k < |a| + |b| ==> (a + b + c)[k] == b[k - |a|]
    ensures forall k :: |a| + |b| <= k < |a + b + c| ==> (a + b + c)[k] == c[k - |a| - |b|]
  {
  }

  lemma EntryPlace(lines: seq<string>, before: seq<string>, f: seq<string>, after: seq<string>)
    requires lines == before + f + after && IsEntryBlock(f)
    requires forall i :: 0 <= i < |before| ==> !IsEntry(before[i])
    requires forall k :: 0 <= k < NextItem(after, 0) ==> IsGap(after[k])
    ensures StartOf(lines) == |before| && EndOf(lines) == |before| + |f|
  {
    var s, e := |before|, |before| + |f|;
    InThree(before, f, after);
    EntryAt(lines, 0, s);
    ItemBehind(before + f, s + 1, after);
    BackTo(lines, s + 1, NextItem(lines, s + 1), e);
  }

  /** Between lines without an entry and lines that start with gaps or an item, the block is cut
      out again whole. */
  lemma CutFindsBlock(before: seq<string>, f: seq<string>, after: seq<string>)
    requires IsEntryBlock(f) && WellCut(after)
    requires forall i :: 0 <= i < |before| ==> IsFull(before[i]) && !IsEntry(before[i])
    requires forall k :: 0 <= k < NextItem(after, 0) ==> IsGap(after[k])
    ensures CutEntry(Concat(before) + Concat(f) + Concat(after)) == Cut(Concat(f), Concat(before), Concat(after), true)
  {
    var lines := before + f + after;
    WellCutParts(before, f, after);
    EntryPlace(lines, before, f, after);
    var s, e := |before|, |before| + |f|;
    ThreeSlices(before, f, after);
    ConcatThree(lines, s, e);
    SplitAfterConcat(lines);
  }

  lemma ThreeSlices(a: seq<string>, b: seq<string>, c: seq<string>)
    ensures (a + b + c)[|a|..|a| + |b|] == b && (a + b + c)[..|a|] == a && (a + b + c)[|a| + |b|..] == c
  {
  }

  lemma WellCutParts(before: seq<string>, f: seq<string>, after: seq<string>)
    requires WellCut(after)
    requires forall i :: 0 <= i < |before| ==> IsFull(before[i])
    requires forall i :: 0 <= i < |f| ==> IsFull(f[i])
    ensures WellCut(before + f + after)
  {
  }

  lemma {:induction false} ItemShifts(a: seq<string>, b: seq<string>, i: nat)
    requires i <= |b|
    ensures NextItem(a + b, |a| + i) == |a| + NextItem(b, i)
    decreases |b| - i
  {
    if i < |b| && !IsItem(b[i]) {
      ItemShifts(a, b, i + 1);
    }
  }

  lemma {:induction false} ItemBehind(a: seq<string>, from: nat, b: seq<string>)
    requires from <= |a| && forall k :: from <= k < |a| ==> !IsItem(a[k])
    ensures NextItem(a + b, from) == |a| + NextItem(b, 0)
    decreases |a| - from
  {
    if from == |a| {
      ItemShifts(a, b, 0);
    } else {
      ItemBehind(a, from + 1, b);
    }
  }

  lemma GapsAfter(lines: seq<string>)
    requires StartOf(lines) < |lines|
    ensures var after := lines[EndOf(lines)..];
      forall k :: 0 <= k < NextItem(after, 0) ==> IsGap(after[k])
  {
    var s, e := StartOf(lines) + 1, EndOf(lines);
    var after := lines[e..];
    ItemBehind(lines[..e], s, after);
    assert lines[..e] + after == lines;
  }

  /** What is around the entry, or where it will be appended. */
  function Surroundings(content: string): (string, string) {
    var cut := CutEntry(content);
    if cut.found then (cut.before, cut.after) else (Prepared(content), "")
  }

  lemma {:induction false} TrimLeftBreak(line: string)
    ensures TrimLeft(line + "\n") == if TrimLeft(line) == "" then "" else TrimLeft(line) + "\n"
  {
    if line == [] {
      assert line + "\n" == "\n" && TrimLeft("\n") == "";
    } else {
      assert (line + "\n")[1..] == line[1..] + "\n";
      TrimLeftBreak(line[1..]);
    }
  }

  lemma BreakIsTrimmed(line: string)
    ensures TrimSpace(line + "\n") == TrimSpace(line)
  {
    TrimLeftBreak(line);
    var t := TrimLeft(line);
    assert (t + "\n")[..|t|] == t;
  }

  lemma AddLine(lines: seq<string>, line: string)
    ensures Concat(lines + [line]) == Concat(lines) + line
  {
    ConcatAppend(lines, [line]);
    assert Concat([line]) == line;
  }

  predicate NoEntry(lines: seq<string>) {
    forall i :: 0 <= i < |lines| ==> IsFull(lines[i]) && !IsEntry(lines[i])
  }

  lemma BreakLine(line: string)
    requires '\n' !in line && !IsEntry(line)
    ensures NoEntry([line + "\n"])
  {
    BreakIsTrimmed(line);
    assert (line + "\n")[..|line|] == line;
  }

  /** The full lines of a content without an entry, and the rest. */
  lemma FullAndRest(content: string) returns (full: seq<string>, rest: string)
    requires !CutEntry(content).found
    ensures Concat(full) + rest == content && NoEntry(full) && NoEntry([rest + "\n"])
    ensures rest == "" <==> content == "" || EndsInBreak(content)
    ensures content == "" ==> full == []
  {
    var lines := SplitAfter(content);
    SplitAfterIsWellCut(content);
    var n := |lines| - 1;
    full, rest := lines[..n], lines[n];
    assert lines == full + [rest];
    AddLine(full, rest);
    LastLine(content);
    BreakLine(rest);
  }

  /** The lines of a prepared content. */
  lemma PreparedLines(content: string) returns (lines: seq<string>)
    requires !CutEntry(content).found
    ensures Concat(lines) == Prepared(content) && NoEntry(lines)
  {
    var full, rest := FullAndRest(content);
    EmptyLine();
    if content == "" {
      lines := full;
    } else {
      if rest != "" {
        AddLine(full, rest + "\n");
        lines := full + [rest + "\n"];
        Reassociate(Concat(full), rest);
      } else {
        assert Concat(full) == content;
        lines := full;
      }
      AddLine(lines, "\n");
      lines := lines + ["\n"];
    }
  }

  lemma Reassociate(a: string, b: string)
    ensures a + (b + "\n") == a + b + "\n"
  {
  }

  lemma EmptyLine()
    ensures NoEntry(["\n"])
  {
    assert TrimSpace("") == "" && "" + "\n" == "\n";
    BreakLine("");
  }

  /** A content that ends in a line break has nothing behind it. */
  lemma LastLine(content: string)
    ensures var lines := SplitAfter(content);
      (lines[|lines| - 1] == "" <==> content == "" || EndsInBreak(content))
  {
    var lines := SplitAfter(content);
    SplitAfterIsWellCut(content);
    var n := |lines| - 1;
    assert lines == lines[..n] + [lines[n]];
    ConcatAppend(lines[..n], [lines[n]]);
    assert Concat([lines[n]]) == lines[n];
    if lines[n] != "" {
      assert content[|content| - 1] == lines[n][|lines[n]| - 1];
    } else if n > 0 {
      assert lines[..n] == lines[..n - 1] + [lines[n - 1]];
      ConcatAppend(lines[..n - 1], [lines[n - 1]]);
      assert Concat([lines[n - 1]]) == lines[n - 1];
    }
  }

  lemma Regroup(b: string, block: string, a: string)
    ensures b + block + "\n" + a == b + (block + "\n") + a
  {
  }

  /** Nothing behind the last line break. */
  lemma EmptyRest()
    ensures var none := [""];
      WellCut(none) && Concat(none) == "" && forall k :: 0 <= k < NextItem(none, 0) ==> IsGap(none[k])
  {
    assert TrimSpace("") == "";
  }

  lemma LinesBefore(lines: seq<string>)
    requires WellCut(lines) && StartOf(lines) < |lines|
    ensures NoEntry(lines[..StartOf(lines)])
  {
  }

  lemma LinesAfter(lines: seq<string>) returns (after: seq<string>)
    requires WellCut(lines) && StartOf(lines) < |lines|
    ensures WellCut(after) && Concat(after) == Concat(lines[EndOf(lines)..])
    ensures forall k :: 0 <= k < NextItem(after, 0) ==> IsGap(after[k])
  {
    var e := EndOf(lines);
    if e < |lines| {
      after := lines[e..];
      GapsAfter(lines);
    } else {
      after := [""];
      EmptyRest();
    }
  }

  lemma CutOfReplaced(content: string, block: string)
    requires WellFormed(block) && CutEntry(content).found
    ensures var cut := CutEntry(content);
      CutEntry(SpliceDSHEntry(content, block)) == Cut(block + "\n", cut.before, cut.after, true)
  {
    var lines := SplitAfter(content);
    SplitAfterIsWellCut(content);
    FullLinesConcat(block);
    LinesBefore(lines);
    var after := LinesAfter(lines);
    var before := lines[..StartOf(lines)];
    CutFindsBlock(before, FullLines(block), after);
    Regroup(Concat(before), block, Concat(after));
  }

  lemma CutOfAppended(content: string, block: string)
    requires WellFormed(block) && !CutEntry(content).found
    ensures CutEntry(SpliceDSHEntry(content, block)) == Cut(block + "\n", Prepared(content), "", true)
  {
    FullLinesConcat(block);
    EmptyRest();
    var before := PreparedLines(content);
    CutFindsBlock(before, FullLines(block), [""]);
    Regroup(Concat(before), block, "");
    assert SpliceDSHEntry(content, block) == Concat(before) + (block + "\n") + "";
  }

  /** Cutting after a splice gives the spliced entry and the same surroundings. */
  lemma CutOfSplice(content: string, block: string)
    requires WellFormed(block)
    ensures var (before, after) := Surroundings(content);
      CutEntry(SpliceDSHEntry(content, block)) == Cut(block + "\n", before, after, true)
  {
    if CutEntry(content).found {
      CutOfReplaced(content, block);
    } else {
      CutOfAppended(content, block);
    }
  }

  /** A second splice takes the place of the first. */
  lemma SpliceOverwrites(content: string, first: string, second: string)
    requires WellFormed(first)
    ensures SpliceDSHEntry(SpliceDSHEntry(content, first), second) == SpliceDSHEntry(content, second)
  {
    CutOfSplice(content, first);
    if !CutEntry(content).found {
      assert Prepared(content) + second + "\n" + "" == Prepared(content) + second + "\n";
    }
  }

  /** Splicing back what was cut, less its line break, changes nothing. */
  lemma SpliceOfCut(content: string, block: string)
    requires CutEntry(content).found && CutEntry(content).block == block + "\n"
    ensures SpliceDSHEntry(content, block) == content
  {
    CutConserves(content);
    Regroup(CutEntry(content).before, block, CutEntry(content).after);
  }
}
