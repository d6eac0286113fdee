/** Files on which the tracker is where TOML is, behind every line. */
module CodexRight {
  import opened Text
  import opened TomlSyntax
  import opened TomlStrings
  import opened CodexConfig
  import opened CodexRegions
  import opened CodexExport
  import opened CodexLaws

  /** Behind every line the tracker is where TOML is. */
  predicate Right(p: Position, lines: seq<string>)
    decreases |lines|
  {
    lines == [] || (Agrees(p.delim, lines[0]) && Right(Move(p, lines[0]).0, lines[1..]))
  }

  lemma {:induction false} RightAppend(p: Position, a: seq<string>, b: seq<string>)
    ensures Right(p, a + b) <==> Right(p, a) && Right(End(p, a), b)
    decreases |a|
  {
    if a == [] {
      assert a + b == b;
    } else {
      assert (a + b)[1..] == a[1..] + b;
      RightAppend(Move(p, a[0]).0, a[1..], b);
    }
  }

  /** Right on a file, it is right on the lines a section keeps. */
  lemma {:induction false} RightKept(p: Position, q: Position, lines: seq<string>, section: Section)
    requires InStep(p, q, section) && Right(p, lines)
    ensures Right(q, KeptIn(p, lines, section))
    decreases |lines|
  {
    if lines != [] {
      var (to, fate) := Move(p, lines[0]);
      OneStep(p, q, lines[0], section);
      if fate == Kept(section) {
        RightKept(to, Move(q, lines[0]).0, lines[1..], section);
        assert KeptIn(p, lines, section)[1..] == KeptIn(to, lines[1..], section);
      } else {
        RightKept(to, q, lines[1..], section);
      }
    }
  }

  lemma {:induction false} RightTrimmed(p: Position, lines: seq<string>)
    requires Right(p, lines)
    ensures Right(p, Trimmed(lines))
  {
    if lines != [] && IsBlank(lines[|lines| - 1]) {
      var n := |lines| - 1;
      assert lines == lines[..n] + [lines[n]];
      RightAppend(p, lines[..n], [lines[n]]);
      RightTrimmed(p, lines[..n]);
    }
  }

  predicate SectionsRight(c: Cleaned) {
    Right(Start, c.head) && Right(Start, c.tail) && Right(InMemories, c.memories)
  }

  lemma CleanIsRight(lines: seq<string>)
    requires Tidy(Start, lines) && Right(Start, lines)
    ensures SectionsRight(Clean(lines))
  {
    forall section { CleanFollows(Begin, Start, lines, section); }
    RightKept(Start, Start, lines, Head);
    RightKept(Start, Start, lines, Tail);
    RightKept(Start, InMemories, lines, Memories);
    RightTrimmed(Start, KeptIn(Start, lines, Head));
    RightTrimmed(Start, KeptIn(Start, lines, Tail));
    RightTrimmed(InMemories, KeptIn(Start, lines, Memories));
  }

  lemma {:induction false} VanishingIsRight(p: Position, lines: seq<string>)
    requires Vanishes(p, lines) && p.delim == NoDelim
    ensures Right(p, lines)
    decreases |lines|
  {
    if lines != [] {
      assert VanishesAt(p, lines[0]);
      UnmarkedAgrees(NoDelim, lines[0]);
      forall i | 0 <= i < |lines| - 1 ensures VanishesAt(p, lines[1..][i]) {
        assert VanishesAt(p, lines[i + 1]);
      }
      VanishingIsRight(p, lines[1..]);
    }
  }

  lemma SingleIsRight(p: Position, line: string)
    requires p.delim == NoDelim && Single(line)
    ensures Right(p, [line])
  {
    UnmarkedAgrees(NoDelim, line);
    assert [line][1..] == [];
  }

  lemma BlankIsRight(p: Position)
    requires p.delim == NoDelim
    ensures Right(p, [""])
  {
    BlankTracks("", NoDelim);
    NoMark("", BASIC);
    NoMark("", LITERAL);
    SingleIsRight(p, "");
  }

  lemma OpeningIsRight(p: Position, line: string)
    requires p.delim == NoDelim && p.region != Provider && Single(line)
    ensures Right(p, ["", line])
  {
    BlankIsRight(p);
    BlankGives(p);
    SingleIsRight(p, line);
    RightAppend(p, [""], [line]);
    assert [""] + [line] == ["", line];
  }

  lemma ProviderPartIsRight(p: Position, v: Values)
    requires p.delim == NoDelim && p.region != Provider && Fits(v)
    ensures Right(p, ProviderPart(v))
  {
    HeadersSwitch(p);
    OpeningIsRight(p, PROVIDER_LINE);
    OpeningGives(p, PROVIDER_LINE, InProvider);
    ProviderSettingsVanish(v);
    VanishingIsRight(InProvider, ProviderSettings(v));
    RightAppend(p, ["", PROVIDER_LINE], ProviderSettings(v));
  }

  lemma MemoriesPartIsRight(p: Position, c: Cleaned, v: Values)
    requires p.delim == NoDelim && p.region != Provider && FitsIn(c, v)
    requires MemoriesSettled(c.memories) && Right(InMemories, c.memories)
    ensures Right(p, MemoriesPart(c, v))
  {
    if c.memories != [] {
      HeadersSwitch(p);
      OpeningIsRight(p, MEMORIES_LINE);
      OpeningGives(p, MEMORIES_LINE, InMemories);
      MemoryBlockVanishes(v);
      VanishingIsRight(InMemories, MemoryBlock(v));
      RightAppend(InMemories, c.memories, MemoryBlock(v));
      RightAppend(p, ["", MEMORIES_LINE], c.memories + MemoryBlock(v));
    }
  }

  lemma HeadPartIsRight(c: Cleaned)
    requires HeadSettled(c.head) && Right(Start, c.head)
    ensures Right(Start, HeadPart(c))
  {
    BlankIsRight(Start);
    RightAppend(Start, c.head, [""]);
    assert c.head + [] == c.head;
  }

  lemma TailPartIsRight(c: Cleaned)
    requires Right(Start, c.tail)
    ensures Right(Start, TailPart(c))
  {
    if c.tail != [] {
      BlankIsRight(Start);
      BlankGives(Start);
      RightAppend(Start, [""], c.tail);
    }
  }

  /** Nothing that an export writes leads the tracker astray. */
  lemma RenderedIsRight(c: Cleaned, v: Values)
    requires Settled(c) && FitsIn(c, v) && SectionsRight(c)
    ensures Right(Start, Rendered(c, v))
  {
    var p, q := AfterTail(c), AfterMemories(c);
    HeadPartGives(c);
    RootBlockVanishes(v);
    VanishesGives(Start, RootBlock(v));
    TailPartGives(c);
    MemoriesPartGives(c, v);
    HeadPartIsRight(c);
    VanishingIsRight(Start, RootBlock(v));
    TailPartIsRight(c);
    MemoriesPartIsRight(p, c, v);
    ProviderPartIsRight(q, v);
    var end := MemoriesPart(c, v) + ProviderPart(v);
    RightAppend(p, MemoriesPart(c, v), ProviderPart(v));
    RightAppend(Start, TailPart(c), end);
    RightAppend(Start, RootBlock(v), TailPart(c) + end);
    RightAppend(Start, HeadPart(c), RootBlock(v) + (TailPart(c) + end));
  }

  /** Where the tracker is right about a file, it is right about what an export makes of it. */
  lemma ExportIsRight(lines: seq<string>, v: Values)
    requires Tidy(Start, lines) && Closed(End(Start, lines)) && FitsIn(Clean(lines), v) && Right(Start, lines)
    ensures SectionsRight(Clean(lines)) && Right(Start, Rendered(Clean(lines), v))
  {
    CleanSettles(lines);
    CleanIsRight(lines);
    RenderedIsRight(Clean(lines), v);
  }
}
