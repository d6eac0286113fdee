/** How often an exported file has each of the managed keys and headers. */
module CodexManaged {
  import opened Text
  import opened TomlSyntax
  import opened CodexConfig
  import opened CodexRegions
  import opened CodexExport
  import opened CodexLaws

  /** What is counted: lines that start outside multi-line strings and set a key in a region, those
      of them that open a multi-line string, and headers. */
  datatype Mark =
    | KeyIn(region: Region, name: string)
    | OpeningKeyIn(region: Region, name: string)
    | ProviderHeader
    | LegacyHeader
    | MemoriesHeader

  /** A managed key where it is managed. */
  predicate IsManaged(r: Region, name: string) {
    (r in {Top, Other} && name in ROOT_KEYS) || (r == MemoriesTable && name in MEMORY_KEYS)
  }

  predicate Proper(mark: Mark) {
    match mark
    case KeyIn(r, name) => IsManaged(r, name)
    case OpeningKeyIn(r, name) => IsManaged(r, name)
    case _ => true
  }

  /** Whether a line is counted that leads from one position to the other. */
  predicate Between(p: Position, to: Position, line: string, mark: Mark) {
    var inside := p.delim != NoDelim || to.delim != NoDelim;
    match mark
    case KeyIn(r, name) => p.delim == NoDelim && to.region == r && Sets(name, line)
    case OpeningKeyIn(r, name) => p.delim == NoDelim && inside && to.region == r && Sets(name, line)
    case ProviderHeader => !inside && IsProviderHeader(line)
    case LegacyHeader => !inside && IsLegacyHeader(line)
    case MemoriesHeader => !inside && IsMemoriesHeader(line)
  }

  predicate Hits(p: Position, line: string, mark: Mark) {
    Between(p, Move(p, line).0, line, mark)
  }

  function Count(p: Position, lines: seq<string>, mark: Mark): nat
    decreases |lines|
  {
    if lines == [] then 0
    else (if Hits(p, lines[0], mark) then 1 else 0) + Count(Move(p, lines[0]).0, lines[1..], mark)
  }

  lemma {:induction false} CountAppend(p: Position, a: seq<string>, b: seq<string>, mark: Mark)
    ensures Count(p, a + b, mark) == Count(p, a, mark) + Count(End(p, a), b, mark)
    decreases |a|
  {
    if a == [] {
      assert a + b == b;
    } else {
      assert (a + b)[1..] == a[1..] + b;
      CountAppend(Move(p, a[0]).0, a[1..], b, mark);
    }
  }

  /** Among kept lines, only those that open a multi-line string set a managed key. */
  function Remains(mark: Mark): Mark {
    if mark.KeyIn? then OpeningKeyIn(mark.region, mark.name) else mark
  }

  lemma {:induction false} KeptHits(p: Position, line: string, mark: Mark, section: Section)
    requires Proper(mark) && Move(p, line).1 == Kept(section)
    ensures match mark
      case KeyIn(_, _) => Hits(p, line, mark) <==> Hits(p, line, Remains(mark))
      case OpeningKeyIn(r, _) => Hits(p, line, mark) ==> SectionOf(r) == section
      case _ => !Hits(p, line, mark)
  {
    if IsProviderHeader(line) || IsLegacyHeader(line) || IsMemoriesHeader(line) {
      ManagedHeadersAreHeaders(line);
    }
  }

  lemma {:induction false} StaysCount(p: Position, lines: seq<string>, mark: Mark, section: Section)
    requires Proper(mark) && Stays(p, lines, section)
    ensures match mark
      case KeyIn(_, _) => Count(p, lines, mark) == Count(p, lines, Remains(mark))
      case OpeningKeyIn(r, _) => SectionOf(r) != section ==> Count(p, lines, mark) == 0
      case _ => Count(p, lines, mark) == 0
    decreases |lines|
  {
    if lines != [] {
      KeptHits(p, lines[0], mark, section);
      StaysCount(Move(p, lines[0]).0, lines[1..], mark, section);
    }
  }

  /** No line of the section that opens a multi-line string is lost. */
  lemma {:induction false} ReplayCount(p: Position, q: Position, lines: seq<string>, section: Section, mark: Mark)
    requires InStep(p, q, section) && mark.OpeningKeyIn? && Proper(mark) && SectionOf(mark.region) == section
    ensures Count(q, KeptIn(p, lines, section), mark) == Count(p, lines, mark)
    decreases |lines|
  {
    if lines != [] {
      var line := lines[0];
      var (to, fate) := Move(p, line);
      OneStep(p, q, line, section);
      if fate == Kept(section) {
        ReplayCount(to, Move(q, line).0, lines[1..], section, mark);
        assert KeptIn(p, lines, section)[1..] == KeptIn(to, lines[1..], section);
        assert Hits(p, line, mark) <==> Hits(q, line, mark);
      } else {
        ReplayCount(to, q, lines[1..], section, mark);
        assert !Hits(p, line, mark);
      }
    }
  }

  lemma BlankCounts(p: Position, line: string, mark: Mark)
    requires IsBlank(line) && Proper(mark)
    ensures !Hits(p, line, mark)
  {
    BlankTracks(line, p.delim);
    BlankIsNothing(line);
    if IsProviderHeader(line) || IsLegacyHeader(line) {
      ManagedHeadersAreHeaders(line);
    }
  }

  lemma {:induction false} TrimmedCount(p: Position, lines: seq<string>, mark: Mark)
    requires Proper(mark)
    ensures Count(p, Trimmed(lines), mark) == Count(p, lines, mark)
  {
    if lines != [] && IsBlank(lines[|lines| - 1]) {
      var n := |lines| - 1;
      assert lines == lines[..n] + [lines[n]];
      CountAppend(p, lines[..n], [lines[n]], mark);
      BlankCounts(End(p, lines[..n]), lines[n], mark);
      TrimmedCount(p, lines[..n], mark);
    }
  }

  // --- The lines that an export writes itself. ---

  lemma SettingHits(p: Position, name: string, value: string, mark: Mark)
    requires p.delim == NoDelim && VanishesAt(p, Setting(name, value))
    requires name in ROOT_KEYS + MEMORY_KEYS + PROVIDER_KEYS && Proper(mark)
    ensures Hits(p, Setting(name, value), mark) <==> mark.KeyIn? && mark.region == p.region && mark.name == name
  {
    OwnNamesAreKeyNames(name);
    SettingIsNoHeader(name, value);
    if mark.KeyIn? || mark.OpeningKeyIn? {
      OwnNamesAreKeyNames(mark.name);
      SettingSets(mark.name, name, value);
    }
  }

  lemma {:induction false} VanishingCount(p: Position, lines: seq<string>, mark: Mark)
    requires Vanishes(p, lines)
    ensures lines != [] ==> Vanishes(p, lines[1..])
    ensures lines != [] ==> Count(p, lines, mark) == One(Hits(p, lines[0], mark)) + Count(p, lines[1..], mark)
  {
    if lines != [] {
      assert VanishesAt(p, lines[0]);
      forall i | 0 <= i < |lines| - 1 ensures VanishesAt(p, lines[1..][i]) {
        assert VanishesAt(p, lines[i + 1]);
      }
    }
  }

  lemma ThreeCount(p: Position, a: string, b: string, c: string, mark: Mark)
    requires Vanishes(p, [a, b, c])
    ensures Count(p, [a, b, c], mark) == One(Hits(p, a, mark)) + One(Hits(p, b, mark)) + One(Hits(p, c, mark))
  {
    VanishingCount(p, [a, b, c], mark);
    assert [a, b, c][1..] == [b, c];
    VanishingCount(p, [b, c], mark);
    assert [b, c][1..] == [c];
    VanishingCount(p, [c], mark);
    assert [c][1..] == [];
  }

  lemma TwoCount(p: Position, a: string, b: string, mark: Mark)
    requires Vanishes(p, [a, b])
    ensures Count(p, [a, b], mark) == One(Hits(p, a, mark)) + One(Hits(p, b, mark))
  {
    VanishingCount(p, [a, b], mark);
    assert [a, b][1..] == [b];
    VanishingCount(p, [b], mark);
    assert [b][1..] == [];
  }

  lemma RootBlockCount(v: Values, mark: Mark)
    requires Fits(v) && Proper(mark)
    ensures Count(Start, RootBlock(v), mark) == One(mark.KeyIn? && mark.region == Top)
  {
    RootBlockVanishes(v);
    var s := RootBlock(v);
    ThreeCount(Start, s[0], s[1], s[2], mark);
    assert VanishesAt(Start, s[0]) && VanishesAt(Start, s[1]) && VanishesAt(Start, s[2]);
    SettingHits(Start, MODEL, Quote(v.model), mark);
    SettingHits(Start, MODEL_PROVIDER, Quote(PROVIDER_ID), mark);
    SettingHits(Start, MODEL_CONTEXT_WINDOW, Itoa(v.context), mark);
    NamesDiffer();
    if mark.KeyIn? && mark.region == Top {
      RootKeyIs(mark.name);
      OneOfThree(mark.name, MODEL, MODEL_PROVIDER, MODEL_CONTEXT_WINDOW);
    }
  }

  lemma RootKeyIs(name: string)
    requires name in ROOT_KEYS
    ensures name == MODEL || name == MODEL_PROVIDER || name == MODEL_CONTEXT_WINDOW
  {
  }

  lemma OneOfThree(name: string, a: string, b: string, c: string)
    requires a != b && a != c && b != c && (name == a || name == b || name == c)
    ensures One(name == a) + One(name == b) + One(name == c) == 1
  {
  }

  lemma NamesDiffer()
    ensures MODEL != MODEL_PROVIDER && MODEL != MODEL_CONTEXT_WINDOW && MODEL_PROVIDER != MODEL_CONTEXT_WINDOW
    ensures EXTRACT_MODEL != CONSOLIDATION_MODEL
  {
    assert |MODEL| == 5 && |MODEL_PROVIDER| == 14 && |MODEL_CONTEXT_WINDOW| == 20;
  }

  lemma MemoryBlockCount(v: Values, mark: Mark)
    requires Fit(v.memoryModel) && Proper(mark)
    ensures Count(InMemories, MemoryBlock(v), mark) == One(mark.KeyIn? && mark.region == MemoriesTable)
  {
    MemoryBlockVanishes(v);
    var s := MemoryBlock(v);
    TwoCount(InMemories, s[0], s[1], mark);
    assert VanishesAt(InMemories, s[0]) && VanishesAt(InMemories, s[1]);
    SettingHits(InMemories, EXTRACT_MODEL, Quote(v.memoryModel), mark);
    SettingHits(InMemories, CONSOLIDATION_MODEL, Quote(v.memoryModel), mark);
    NamesDiffer();
  }

  lemma {:induction false} ProviderSettingsCount(lines: seq<string>, mark: Mark)
    requires Vanishes(InProvider, lines) && Proper(mark)
    requires forall i :: 0 <= i < |lines| ==> !IsTableHeader(lines[i])
    ensures Count(InProvider, lines, mark) == 0
    decreases |lines|
  {
    if lines != [] {
      VanishingCount(InProvider, lines, mark);
      assert VanishesAt(InProvider, lines[0]);
      if IsProviderHeader(lines[0]) || IsLegacyHeader(lines[0]) || IsMemoriesHeader(lines[0]) {
        ManagedHeadersAreHeaders(lines[0]);
      }
      ProviderSettingsCount(lines[1..], mark);
    }
  }

  lemma ProviderSettingIsNoHeader(name: string, value: string)
    requires name in PROVIDER_KEYS
    ensures !IsTableHeader(Setting(name, value))
  {
    OwnNamesAreKeyNames(name);
    SettingIsNoHeader(name, value);
  }

  lemma FourNoHeaders(a: string, b: string, c: string, d: string)
    requires !IsTableHeader(a) && !IsTableHeader(b) && !IsTableHeader(c) && !IsTableHeader(d)
    ensures forall i :: 0 <= i < 4 ==> !IsTableHeader([a, b, c, d][i])
  {
  }

  lemma ProviderSettingsAreNoHeaders(v: Values)
    ensures forall i :: 0 <= i < |ProviderSettings(v)| ==> !IsTableHeader(ProviderSettings(v)[i])
  {
    ProviderSettingIsNoHeader(NAME_KEY, Quote(PROVIDER_NAME));
    ProviderSettingIsNoHeader(BASE_URL, Quote(v.host + PROXY_PREFIX));
    ProviderSettingIsNoHeader(WIRE_API_KEY, Quote(WIRE_API));
    ProviderSettingIsNoHeader(BEARER_TOKEN, Quote(v.apiKey));
    var s := ProviderSettings(v);
    FourNoHeaders(s[0], s[1], s[2], s[3]);
  }

  lemma HeaderHits(p: Position, line: string, mark: Mark)
    requires p.delim == NoDelim && Single(line) && IsTableHeader(line) && Proper(mark)
    ensures Hits(p, line, mark) <==>
      || (mark == ProviderHeader && IsProviderHeader(line))
      || (mark == LegacyHeader && IsLegacyHeader(line))
      || (mark == MemoriesHeader && IsMemoriesHeader(line))
  {
    HeaderIsNoManagedKey(line);
    if mark.KeyIn? || mark.OpeningKeyIn? {
      ProperNames(mark.region, mark.name);
    }
  }

  lemma ProperNames(r: Region, name: string)
    requires IsManaged(r, name)
    ensures name in {MODEL, MODEL_PROVIDER, MODEL_CONTEXT_WINDOW, EXTRACT_MODEL, CONSOLIDATION_MODEL}
  {
  }

  lemma MemoriesLineHits(p: Position, mark: Mark)
    requires p.delim == NoDelim && Proper(mark)
    ensures Hits(p, MEMORIES_LINE, mark) <==> mark == MemoriesHeader
  {
    MemoriesLine();
    MemoriesLineIsSingle();
    HeaderHits(p, MEMORIES_LINE, mark);
  }

  lemma ProviderLineHits(p: Position, mark: Mark)
    requires p.delim == NoDelim && Proper(mark)
    ensures Hits(p, PROVIDER_LINE, mark) <==> mark == ProviderHeader
  {
    ProviderLine();
    ProviderLineIsSingle();
    ProviderLineIsNotLegacy();
    ProviderLineIsNotMemories();
    HeaderHits(p, PROVIDER_LINE, mark);
  }

  lemma BlankCount(p: Position, mark: Mark)
    requires Proper(mark)
    ensures Count(p, [""], mark) == 0
  {
    BlankCounts(p, "", mark);
    assert [""][1..] == [];
  }

  lemma OpeningCount(p: Position, line: string, q: Position, mark: Mark)
    requires p.delim == NoDelim && p.region != Provider && Move(p, line) == (q, Dropped) && Proper(mark)
    ensures Count(p, ["", line], mark) == One(Hits(p, line, mark))
  {
    BlankGives(p);
    BlankCount(p, mark);
    CountAppend(p, [""], [line], mark);
    assert [""] + [line] == ["", line];
    assert [line][1..] == [];
  }

  // --- The whole file. ---

  lemma ProviderPartCount(p: Position, v: Values, mark: Mark)
    requires p.delim == NoDelim && p.region != Provider && Fits(v) && Proper(mark)
    ensures Count(p, ProviderPart(v), mark) == One(mark == ProviderHeader)
  {
    HeadersSwitch(p);
    OpeningGives(p, PROVIDER_LINE, InProvider);
    CountAppend(p, ["", PROVIDER_LINE], ProviderSettings(v), mark);
    OpeningCount(p, PROVIDER_LINE, InProvider, mark);
    ProviderLineHits(p, mark);
    ProviderSettingsVanish(v);
    ProviderSettingsAreNoHeaders(v);
    ProviderSettingsCount(ProviderSettings(v), mark);
  }

  lemma MemoriesPartCount(p: Position, c: Cleaned, v: Values, mark: Mark)
    requires MemoriesSettled(c.memories) && FitsIn(c, v) && Proper(mark)
    requires p.delim == NoDelim && p.region != Provider
    ensures c.memories == [] ==> Count(p, MemoriesPart(c, v), mark) == 0
    ensures c.memories != [] ==>
      Count(p, MemoriesPart(c, v), mark) == Count(InMemories, c.memories, mark)
        + One(mark == MemoriesHeader || (mark.KeyIn? && mark.region == MemoriesTable))
  {
    if c.memories != [] {
      HeadersSwitch(p);
      OpeningGives(p, MEMORIES_LINE, InMemories);
      CountAppend(p, ["", MEMORIES_LINE], c.memories + MemoryBlock(v), mark);
      OpeningCount(p, MEMORIES_LINE, InMemories, mark);
      MemoriesLineHits(p, mark);
      CountAppend(InMemories, c.memories, MemoryBlock(v), mark);
      MemoryBlockCount(v, mark);
    }
  }

  lemma HeadPartCount(c: Cleaned, mark: Mark)
    requires HeadSettled(c.head) && Proper(mark)
    ensures Count(Start, HeadPart(c), mark) == Count(Start, c.head, mark)
  {
    CountAppend(Start, c.head, [""], mark);
    BlankCount(Start, mark);
    assert c.head + [] == c.head;
  }

  lemma TailPartCount(c: Cleaned, mark: Mark)
    requires Proper(mark)
    ensures Count(Start, TailPart(c), mark) == Count(Start, c.tail, mark)
  {
    if c.tail != [] {
      CountAppend(Start, [""], c.tail, mark);
      BlankCount(Start, mark);
      BlankGives(Start);
    }
  }

  /** The managed lines of an exported file, beside those its sections have. */
  function Own(c: Cleaned, mark: Mark): nat {
    match mark
    case KeyIn(r, _) => One(r == Top || (r == MemoriesTable && c.memories != []))
    case OpeningKeyIn(_, _) => 0
    case ProviderHeader => 1
    case LegacyHeader => 0
    case MemoriesHeader => One(c.memories != [])
  }

  function SectionsCount(c: Cleaned, mark: Mark): nat {
    Count(Start, c.head, mark) + Count(Start, c.tail, mark) + Count(InMemories, c.memories, mark)
  }

  lemma RenderedCount(c: Cleaned, v: Values, mark: Mark)
    requires Settled(c) && FitsIn(c, v) && Proper(mark)
    ensures Count(Start, Rendered(c, v), mark) == Own(c, mark) + SectionsCount(c, mark)
  {
    var p, q := AfterTail(c), AfterMemories(c);
    var end := MemoriesPart(c, v) + ProviderPart(v);
    HeadPartGives(c);
    RootBlockVanishes(v);
    VanishesGives(Start, RootBlock(v));
    TailPartGives(c);
    MemoriesPartGives(c, v);
    CountAppend(Start, HeadPart(c), RootBlock(v) + (TailPart(c) + end), mark);
    CountAppend(Start, RootBlock(v), TailPart(c) + end, mark);
    CountAppend(Start, TailPart(c), end, mark);
    CountAppend(p, MemoriesPart(c, v), ProviderPart(v), mark);
    HeadPartCount(c, mark);
    RootBlockCount(v, mark);
    TailPartCount(c, mark);
    MemoriesPartCount(p, c, v, mark);
    ProviderPartCount(q, v, mark);
  }

  /** Of the lines of the original, only managed keys that open a multi-line string remain. */
  lemma CleanCount(lines: seq<string>, mark: Mark)
    requires Tidy(Start, lines) && Closed(End(Start, lines)) && Proper(mark)
    ensures SectionsCount(Clean(lines), mark) == if mark.KeyIn? then Count(Start, lines, Remains(mark))
      else if mark.OpeningKeyIn? then Count(Start, lines, mark) else 0
  {
    var c := Clean(lines);
    CleanSettles(lines);
    SectionsRemain(c, mark);
    var m := Remains(mark);
    if m.OpeningKeyIn? {
      forall section { CleanFollows(Begin, Start, lines, section); }
      var start := if SectionOf(m.region) == Memories then InMemories else Start;
      ReplayCount(Start, start, lines, SectionOf(m.region), m);
      TrimmedCount(start, KeptIn(Start, lines, SectionOf(m.region)), m);
    }
  }

  function OneSectionCount(c: Cleaned, mark: Mark, section: Section): nat {
    match section
    case Head => Count(Start, c.head, mark)
    case Tail => Count(Start, c.tail, mark)
    case Memories => Count(InMemories, c.memories, mark)
  }

  lemma SectionsRemain(c: Cleaned, mark: Mark)
    requires Settled(c) && Proper(mark)
    ensures mark.KeyIn? ==> SectionsCount(c, mark) == SectionsCount(c, Remains(mark))
    ensures !mark.KeyIn? && !mark.OpeningKeyIn? ==> SectionsCount(c, mark) == 0
    ensures var m := Remains(mark);
      m.OpeningKeyIn? ==> SectionsCount(c, m) == OneSectionCount(c, m, SectionOf(m.region))
  {
    StaysCount(Start, c.head, mark, Head);
    StaysCount(Start, c.tail, mark, Tail);
    StaysCount(InMemories, c.memories, mark, Memories);
    StaysCount(Start, c.head, Remains(mark), Head);
    StaysCount(Start, c.tail, Remains(mark), Tail);
    StaysCount(InMemories, c.memories, Remains(mark), Memories);
  }

  /** Managed keys of the original whose value is a multi-line string; a clean-up does not see them. */
  function Overlooked(lines: seq<string>, mark: Mark): nat {
    if mark.KeyIn? then Count(Start, lines, OpeningKeyIn(mark.region, mark.name))
    else if mark.OpeningKeyIn? then Count(Start, lines, mark)
    else 0
  }

  /** Every managed key and header of an exported file is one just written, or overlooked. */
  lemma ManagedOnce(lines: seq<string>, v: Values, mark: Mark)
    requires Tidy(Start, lines) && Closed(End(Start, lines)) && FitsIn(Clean(lines), v) && Proper(mark)
    ensures Count(Start, Rendered(Clean(lines), v), mark) == Own(Clean(lines), mark) + Overlooked(lines, mark)
  {
    CleanSettles(lines);
    RenderedCount(Clean(lines), v, mark);
    CleanCount(lines, mark);
  }

  lemma MarkAlone()
    ensures Track(Literal, LITERAL) == (NoDelim, true)
  {
    assert LITERAL[0..] == LITERAL;
    FindIsFirst(LITERAL, LITERAL, 0);
  }

  /** A model given as a multi-line string is written a second time. */
  lemma MultiLineModelIsDoubled(v: Values)
    requires Fits(v) && Fit(v.memoryModel)
    ensures var lines := [MODEL + " =" + LITERAL, LITERAL];
      && Tidy(Start, lines) && End(Start, lines).delim == NoDelim
      && Count(Start, Rendered(Clean(lines), v), KeyIn(Top, MODEL)) == 2
  {
    var line := MODEL + " =" + LITERAL;
    var lines := [line, LITERAL];
    EndsInMark(MODEL + " =", Literal);
    MarkAlone();
    SetsItsKey(MODEL, LITERAL);
    DoubledFacts(line, LITERAL);
    ManagedOnce(lines, v, KeyIn(Top, MODEL));
  }

  lemma DoubledFacts(line: string, closing: string)
    requires Track(NoDelim, line) == (Literal, true) && Track(Literal, closing) == (NoDelim, true) && Sets(MODEL, line)
    ensures var lines := [line, closing];
      && Tidy(Start, lines) && End(Start, lines) == Start
      && Count(Start, lines, OpeningKeyIn(Top, MODEL)) == 1
  {
    var lines := [line, closing];
    var open := Position(Top, Literal);
    assert lines[1..] == [closing] && lines[1..][1..] == [];
    assert Move(Start, line).0 == open && Move(open, closing).0 == Start;
    assert Count(open, [closing], OpeningKeyIn(Top, MODEL)) == 0;
    assert End(open, [closing]) == End(Start, []) == Start;
  }
}
