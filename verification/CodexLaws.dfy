/** The sections that a clean-up leaves, and what cleaning a file made of them gives back. */
module CodexLaws {
  import opened Text
  import opened TomlSyntax
  import opened CodexConfig
  import opened CodexRegions
  import opened CodexExport

  const InMemories := Position(MemoriesTable, NoDelim)
  const InProvider := Position(Provider, NoDelim)

  /** Sections as a clean-up leaves them: read alone, every line is kept where it is. */
  predicate Settled(c: Cleaned) {
    HeadSettled(c.head) && TailSettled(c.tail) && MemoriesSettled(c.memories)
  }

  predicate HeadSettled(lines: seq<string>) {
    Stays(Start, lines, Head) && End(Start, lines) == Start && Trimmed(lines) == lines
  }

  predicate TailSettled(lines: seq<string>) {
    Stays(Start, lines, Tail) && End(Start, lines).delim == NoDelim && Trimmed(lines) == lines
  }

  predicate MemoriesSettled(lines: seq<string>) {
    Stays(InMemories, lines, Memories) && End(InMemories, lines) == InMemories && Trimmed(lines) == lines
  }

  // --- Trimming. ---

  lemma {:induction false} TrimmedStays(p: Position, lines: seq<string>, section: Section)
    requires Stays(p, lines, section) && p.region != Provider
    ensures Stays(p, Trimmed(lines), section) && End(p, Trimmed(lines)) == End(p, lines)
  {
    if lines != [] && IsBlank(lines[|lines| - 1]) {
      var n := |lines| - 1;
      var front, last := lines[..n], lines[n];
      assert lines == front + [last];
      StaysAppend(p, front, [last], section);
      Append(p, front, [last], section);
      EndIsNoProvider(p, front, section);
      BlankStays(End(p, front), last);
      TrimmedStays(p, front, section);
    }
  }

  lemma {:induction false} EndIsNoProvider(p: Position, lines: seq<string>, section: Section)
    requires Stays(p, lines, section) && p.region != Provider
    ensures End(p, lines).region != Provider
    decreases |lines|
  {
    if lines != [] {
      EndIsNoProvider(Move(p, lines[0]).0, lines[1..], section);
    }
  }

  lemma {:induction false} TrimmedTwice(lines: seq<string>)
    ensures Trimmed(Trimmed(lines)) == Trimmed(lines)
  {
    if lines != [] && IsBlank(lines[|lines| - 1]) {
      TrimmedTwice(lines[..|lines| - 1]);
    }
  }

  /** The longer list is the shorter one and blank lines. */
  predicate Padded(long: seq<string>, short: seq<string>) {
    short <= long && forall i :: |short| <= i < |long| ==> IsBlank(long[i])
  }

  lemma {:induction false} TrimmedOfPadded(long: seq<string>, short: seq<string>)
    requires Padded(long, short) && Trimmed(short) == short
    ensures Trimmed(long) == short
    decreases |long|
  {
    if |long| > |short| {
      assert IsBlank(long[|long| - 1]);
      assert Padded(long[..|long| - 1], short);
      TrimmedOfPadded(long[..|long| - 1], short);
    } else {
      assert long == short;
    }
  }

  /** A clean-up settles the sections of a tidy file that ends closed. */
  lemma CleanSettles(lines: seq<string>)
    requires Tidy(Start, lines) && Closed(End(Start, lines))
    ensures Settled(Clean(lines))
  {
    forall section { CleanFollows(Begin, Start, lines, section); }
    Replay(Start, Start, lines, Head);
    Replay(Start, Start, lines, Tail);
    Replay(Start, InMemories, lines, Memories);
    TrimmedStays(Start, KeptIn(Start, lines, Head), Head);
    TrimmedStays(Start, KeptIn(Start, lines, Tail), Tail);
    TrimmedStays(InMemories, KeptIn(Start, lines, Memories), Memories);
    forall section { TrimmedTwice(KeptIn(Start, lines, section)); }
  }

  // --- The parts of an exported file, read in order. ---

  /** From p to q the lines are tidy and c is what they keep. */
  predicate Gives(p: Position, lines: seq<string>, q: Position, c: Cleaned) {
    && Tidy(p, lines) && End(p, lines) == q
    && KeptIn(p, lines, Head) == c.head && KeptIn(p, lines, Tail) == c.tail
    && KeptIn(p, lines, Memories) == c.memories
  }

  const Nothing := Cleaned([], [], [])

  function Plus(c: Cleaned, d: Cleaned): Cleaned {
    Cleaned(c.head + d.head, c.tail + d.tail, c.memories + d.memories)
  }

  lemma GivesAppend(p: Position, a: seq<string>, q: Position, b: seq<string>, r: Position, c: Cleaned, d: Cleaned)
    requires Gives(p, a, q, c) && Gives(q, b, r, d)
    ensures Gives(p, a + b, r, Plus(c, d))
  {
    Append(p, a, b, Head);
    Append(p, a, b, Tail);
    Append(p, a, b, Memories);
  }

  function In(section: Section, lines: seq<string>): Cleaned {
    match section
    case Head => Cleaned(lines, [], [])
    case Tail => Cleaned([], lines, [])
    case Memories => Cleaned([], [], lines)
  }

  lemma StaysGives(p: Position, lines: seq<string>, section: Section)
    requires Stays(p, lines, section)
    ensures Gives(p, lines, End(p, lines), In(section, lines))
  {
    StaysIsTidy(p, lines, section, Head);
    StaysIsTidy(p, lines, section, Tail);
    StaysIsTidy(p, lines, section, Memories);
  }

  function Blank(p: Position): Cleaned {
    In(SectionOf(p.region), [""])
  }

  lemma BlankGives(p: Position)
    requires p.region != Provider
    ensures Gives(p, [""], p, Blank(p))
  {
    BlankStays(p, "");
    assert [""][1..] == [];
    StaysGives(p, [""], SectionOf(p.region));
  }

  /** Every line is dropped and moves nothing. */
  predicate Vanishes(p: Position, lines: seq<string>) {
    forall i :: 0 <= i < |lines| ==> VanishesAt(p, lines[i])
  }

  predicate VanishesAt(p: Position, line: string) {
    Move(p, line) == (p, Dropped) && Single(line)
  }

  lemma {:induction false} VanishesGives(p: Position, lines: seq<string>)
    requires Vanishes(p, lines) && p.delim == NoDelim
    ensures Gives(p, lines, p, Nothing)
    decreases |lines|
  {
    if lines != [] {
      assert forall i :: 0 <= i < |lines| - 1 ==> lines[1..][i] == lines[i + 1];
      VanishesGives(p, lines[1..]);
    }
  }

  lemma SwitchGives(p: Position, line: string, q: Position)
    requires p.delim == NoDelim && Single(line) && Move(p, line) == (q, Dropped)
    ensures Gives(p, [line], q, Nothing)
  {
    assert [line][1..] == [];
  }

  // --- The values. ---

  /** No value has three single quotes in a row. */
  predicate Fits(v: Values) {
    Fit(v.model) && Fit(v.host + PROXY_PREFIX) && Fit(v.apiKey)
  }

  lemma MemoriesLineIsSingle()
    ensures Single(MEMORIES_LINE)
  {
    PlainIsSingle(MEMORIES_LINE);
  }

  lemma BracketIsSingle(before: string, s: string)
    requires '"' !in before && '\'' !in before && '\'' !in s && '"' !in s
    ensures Single(before + Quote(s) + "]")
  {
    NothingToEscape(s);
    NoTripleQuotes(before, s);
    var line := before + Quote(s) + "]";
    assert '\'' !in Quote(s);
    NoMark(line, LITERAL);
    NotWithEnd(before + Quote(s), ']', BASIC);
  }

  lemma ProviderLineIsSingle()
    ensures Single(PROVIDER_LINE)
  {
    BracketIsSingle("[" + "model_providers" + ".", PROVIDER_ID);
  }

  lemma RootNames()
    ensures IsKeyName(MODEL) && IsKeyName(MODEL_PROVIDER) && IsKeyName(MODEL_CONTEXT_WINDOW)
  {
  }

  lemma MemoryNames()
    ensures IsKeyName(EXTRACT_MODEL) && IsKeyName(CONSOLIDATION_MODEL)
  {
  }

  lemma ProviderNames()
    ensures IsKeyName(NAME_KEY) && IsKeyName(BASE_URL) && IsKeyName(WIRE_API_KEY) && IsKeyName(BEARER_TOKEN)
  {
  }

  lemma OwnNamesAreKeyNames(name: string)
    requires name in ROOT_KEYS + MEMORY_KEYS + PROVIDER_KEYS
    ensures IsKeyName(name)
  {
    RootNames();
    MemoryNames();
    ProviderNames();
  }

  lemma ProviderIdFits()
    ensures Fit(PROVIDER_ID)
  {
    PlainFits(PROVIDER_ID);
  }

  lemma ProviderNameFits()
    ensures Fit(PROVIDER_NAME)
  {
    PlainFits(PROVIDER_NAME);
  }

  lemma WireApiFits()
    ensures Fit(WIRE_API)
  {
    PlainFits(WIRE_API);
  }

  lemma RootLine(name: string, value: string)
    requires name in ROOT_KEYS && Single(Setting(name, value))
    ensures VanishesAt(Start, Setting(name, value))
  {
    OwnNamesAreKeyNames(name);
    SettingSets(name, name, value);
    SettingIsNoHeader(name, value);
  }

  lemma QuotedRootLine(name: string, value: string)
    requires name in ROOT_KEYS && Fit(value)
    ensures VanishesAt(Start, Setting(name, Quote(value)))
  {
    OwnNamesAreKeyNames(name);
    QuotedSettingIsSingle(name, value);
    RootLine(name, Quote(value));
  }

  lemma RootBlockVanishes(v: Values)
    requires Fits(v)
    ensures Vanishes(Start, RootBlock(v))
  {
    ProviderIdFits();
    QuotedRootLine(MODEL, v.model);
    QuotedRootLine(MODEL_PROVIDER, PROVIDER_ID);
    OwnNamesAreKeyNames(MODEL_CONTEXT_WINDOW);
    ContextIsSingle(MODEL_CONTEXT_WINDOW, v.context);
    RootLine(MODEL_CONTEXT_WINDOW, Itoa(v.context));
    var s := RootBlock(v);
    ThreeVanish(Start, s[0], s[1], s[2]);
  }

  lemma MemoryLine(name: string, value: string)
    requires name in MEMORY_KEYS && Fit(value)
    ensures VanishesAt(InMemories, Setting(name, Quote(value)))
  {
    OwnNamesAreKeyNames(name);
    QuotedSettingIsSingle(name, value);
    SettingSets(name, name, Quote(value));
    SettingIsNoHeader(name, Quote(value));
  }

  lemma MemoryBlockVanishes(v: Values)
    requires Fit(v.memoryModel)
    ensures Vanishes(InMemories, MemoryBlock(v))
  {
    MemoryLine(EXTRACT_MODEL, v.memoryModel);
    MemoryLine(CONSOLIDATION_MODEL, v.memoryModel);
  }

  lemma ProviderLineVanishes(name: string, value: string)
    requires name in PROVIDER_KEYS && Fit(value)
    ensures VanishesAt(InProvider, Setting(name, Quote(value)))
  {
    OwnNamesAreKeyNames(name);
    QuotedSettingIsSingle(name, value);
    SettingIsNoHeader(name, Quote(value));
  }

  lemma FourVanish(p: Position, a: string, b: string, c: string, d: string)
    requires VanishesAt(p, a) && VanishesAt(p, b) && VanishesAt(p, c) && VanishesAt(p, d)
    ensures Vanishes(p, [a, b, c, d])
  {
  }

  lemma ThreeVanish(p: Position, a: string, b: string, c: string)
    requires VanishesAt(p, a) && VanishesAt(p, b) && VanishesAt(p, c)
    ensures Vanishes(p, [a, b, c])
  {
  }

  lemma ProviderSettingsVanish(v: Values)
    requires Fits(v)
    ensures Vanishes(InProvider, ProviderSettings(v))
  {
    ProviderNameFits();
    WireApiFits();
    ProviderLineVanishes(NAME_KEY, PROVIDER_NAME);
    ProviderLineVanishes(BASE_URL, v.host + PROXY_PREFIX);
    ProviderLineVanishes(WIRE_API_KEY, WIRE_API);
    ProviderLineVanishes(BEARER_TOKEN, v.apiKey);
    var s := ProviderSettings(v);
    FourVanish(InProvider, s[0], s[1], s[2], s[3]);
  }

  lemma HeadersSwitch(p: Position)
    requires p.delim == NoDelim
    ensures Move(p, MEMORIES_LINE) == (InMemories, Dropped)
    ensures Move(p, PROVIDER_LINE) == (InProvider, Dropped)
    ensures Single(MEMORIES_LINE) && Single(PROVIDER_LINE)
  {
    MemoriesLineIsSingle();
    ProviderLineIsSingle();
    MemoriesLine();
    ProviderLine();
  }

  // --- Cleaning an exported file. ---

  /** The values fit, and so does the memory model wherever it is written. */
  predicate FitsIn(c: Cleaned, v: Values) {
    Fits(v) && (c.memories == [] || Fit(v.memoryModel))
  }

  function AfterTail(c: Cleaned): Position {
    End(Start, c.tail)
  }

  lemma TailAvoidsMemories(c: Cleaned)
    requires TailSettled(c.tail)
    ensures AfterTail(c).region != MemoriesTable
  {
    StaysPlace(Start, c.tail, Tail);
  }

  lemma {:induction false} StaysPlace(p: Position, lines: seq<string>, section: Section)
    requires Stays(p, lines, section)
    ensures End(p, lines) == p || Of(End(p, lines).region, section)
    decreases |lines|
  {
    if lines != [] {
      StaysPlace(Move(p, lines[0]).0, lines[1..], section);
    }
  }

  function AfterMemories(c: Cleaned): Position {
    if c.memories == [] then AfterTail(c) else InMemories
  }

  /** What a gap line in front of a part adds. */
  function Gap(present: bool, p: Position): Cleaned {
    if present then Blank(p) else Nothing
  }

  lemma HeadPartGives(c: Cleaned)
    requires HeadSettled(c.head)
    ensures Gives(Start, HeadPart(c), Start, Plus(In(Head, c.head), Gap(c.head != [], Start)))
  {
    StaysGives(Start, c.head, Head);
    if c.head == [] {
      assert HeadPart(c) == [];
    } else {
      BlankGives(Start);
      GivesAppend(Start, c.head, Start, [""], Start, In(Head, c.head), Blank(Start));
    }
  }

  lemma TailPartGives(c: Cleaned)
    requires TailSettled(c.tail)
    ensures Gives(Start, TailPart(c), AfterTail(c), Plus(Gap(c.tail != [], Start), In(Tail, c.tail)))
  {
    if c.tail != [] {
      BlankGives(Start);
      StaysGives(Start, c.tail, Tail);
      GivesAppend(Start, [""], Start, c.tail, AfterTail(c), Blank(Start), In(Tail, c.tail));
    }
  }

  lemma OpeningGives(p: Position, line: string, q: Position)
    requires p.delim == NoDelim && p.region != Provider
    requires Single(line) && Move(p, line) == (q, Dropped)
    ensures Gives(p, ["", line], q, Blank(p))
  {
    BlankGives(p);
    SwitchGives(p, line, q);
    GivesAppend(p, [""], p, [line], q, Blank(p), Nothing);
    assert [""] + [line] == ["", line];
    assert Plus(Blank(p), Nothing) == Blank(p);
  }

  lemma MemoriesBodyGives(c: Cleaned, v: Values)
    requires MemoriesSettled(c.memories) && Fit(v.memoryModel)
    ensures Gives(InMemories, c.memories + MemoryBlock(v), InMemories, In(Memories, c.memories))
  {
    var body := In(Memories, c.memories);
    StaysGives(InMemories, c.memories, Memories);
    MemoryBlockVanishes(v);
    VanishesGives(InMemories, MemoryBlock(v));
    GivesAppend(InMemories, c.memories, InMemories, MemoryBlock(v), InMemories, body, Nothing);
    assert Plus(body, Nothing) == body;
  }

  lemma MemoriesPartGives(c: Cleaned, v: Values)
    requires Settled(c) && FitsIn(c, v)
    ensures AfterTail(c).region != Provider
    ensures Gives(AfterTail(c), MemoriesPart(c, v), AfterMemories(c),
                  Plus(Gap(c.memories != [], AfterTail(c)), In(Memories, c.memories)))
  {
    var p := AfterTail(c);
    EndIsNoProvider(Start, c.tail, Tail);
    if c.memories != [] {
      HeadersSwitch(p);
      OpeningGives(p, MEMORIES_LINE, InMemories);
      MemoriesBodyGives(c, v);
      GivesAppend(p, ["", MEMORIES_LINE], InMemories, c.memories + MemoryBlock(v), InMemories,
                  Blank(p), In(Memories, c.memories));
    }
  }

  lemma ThenNothing(p: Position, a: seq<string>, q: Position, b: seq<string>, r: Position, c: Cleaned)
    requires Gives(p, a, q, c) && Gives(q, b, r, Nothing)
    ensures Gives(p, a + b, r, c)
  {
    GivesAppend(p, a, q, b, r, c, Nothing);
    assert Plus(c, Nothing) == c;
  }

  lemma ProviderPartGives(p: Position, v: Values)
    requires p.delim == NoDelim && p.region != Provider && Fits(v)
    ensures Gives(p, ProviderPart(v), InProvider, Blank(p))
  {
    HeadersSwitch(p);
    OpeningGives(p, PROVIDER_LINE, InProvider);
    ProviderSettingsVanish(v);
    VanishesGives(InProvider, ProviderSettings(v));
    ThenNothing(p, ["", PROVIDER_LINE], InProvider, ProviderSettings(v), InProvider, Blank(p));
  }

  lemma ThreeGive(
    p: Position, a: seq<string>, q: Position, b: seq<string>, r: Position, z: seq<string>, s: Position,
    c: Cleaned, d: Cleaned, e: Cleaned
  )
    requires Gives(p, a, q, c) && Gives(q, b, r, d) && Gives(r, z, s, e)
    ensures Gives(p, a + (b + z), s, Plus(c, Plus(d, e)))
  {
    GivesAppend(q, b, r, z, s, d, e);
    GivesAppend(p, a, q, b + z, s, c, Plus(d, e));
  }

  predicate AllBlank(lines: seq<string>) {
    forall i :: 0 <= i < |lines| ==> IsBlank(lines[i])
  }

  predicate OnlyBlank(c: Cleaned) {
    AllBlank(c.head) && AllBlank(c.tail) && AllBlank(c.memories)
  }

  lemma PadMore(long: seq<string>, short: seq<string>, blank: seq<string>)
    requires Padded(long, short) && AllBlank(blank)
    ensures Padded(long + blank, short)
  {
  }

  /** Sections with the gaps that reading them back adds. */
  function WithGaps(c: Cleaned, g: Cleaned, h: Cleaned, i: Cleaned, j: Cleaned): Cleaned {
    Plus(Plus(In(Head, c.head), g),
         Plus(Nothing, Plus(Plus(h, In(Tail, c.tail)), Plus(Plus(i, In(Memories, c.memories)), j))))
  }

  lemma GapsPad(c: Cleaned, g: Cleaned, h: Cleaned, i: Cleaned, j: Cleaned)
    requires OnlyBlank(g) && OnlyBlank(h) && OnlyBlank(i) && OnlyBlank(j)
    requires g.tail == h.tail == [] && g.memories == h.memories == i.memories == []
    ensures var d := WithGaps(c, g, h, i, j);
      Padded(d.head, c.head) && Padded(d.tail, c.tail) && Padded(d.memories, c.memories)
  {
    var d := WithGaps(c, g, h, i, j);
    PadMore(c.head, c.head, g.head);
    PadMore(c.head + g.head, c.head, h.head);
    PadMore(c.head + g.head + h.head, c.head, i.head);
    PadMore(c.head + g.head + h.head + i.head, c.head, j.head);
    assert d.head == c.head + g.head + h.head + i.head + j.head;
    PadMore(c.tail, c.tail, i.tail);
    PadMore(c.tail + i.tail, c.tail, j.tail);
    assert d.tail == c.tail + i.tail + j.tail;
    PadMore(c.memories, c.memories, j.memories);
    assert d.memories == c.memories + j.memories;
  }

  function TailGap(c: Cleaned): Cleaned {
    Gap(c.tail != [], Start)
  }

  function MemoriesGap(c: Cleaned): Cleaned {
    Gap(c.memories != [], AfterTail(c))
  }

  function LastParts(c: Cleaned): Cleaned {
    Plus(Plus(TailGap(c), In(Tail, c.tail)),
         Plus(Plus(MemoriesGap(c), In(Memories, c.memories)), Blank(AfterMemories(c))))
  }

  lemma LastPartsGive(c: Cleaned, v: Values)
    requires Settled(c) && FitsIn(c, v)
    ensures Gives(Start, TailPart(c) + (MemoriesPart(c, v) + ProviderPart(v)), InProvider, LastParts(c))
  {
    var p, q := AfterTail(c), AfterMemories(c);
    TailPartGives(c);
    MemoriesPartGives(c, v);
    ProviderPartGives(q, v);
    ThreeGive(Start, TailPart(c), p, MemoriesPart(c, v), q, ProviderPart(v), InProvider,
              Plus(TailGap(c), In(Tail, c.tail)), Plus(MemoriesGap(c), In(Memories, c.memories)), Blank(q));
  }

  lemma FirstPartsGive(c: Cleaned, v: Values, rest: seq<string>, q: Position, d: Cleaned)
    requires HeadSettled(c.head) && Fits(v) && Gives(Start, rest, q, d)
    ensures Gives(Start, HeadPart(c) + (RootBlock(v) + rest), q,
                  Plus(Plus(In(Head, c.head), Gap(c.head != [], Start)), Plus(Nothing, d)))
  {
    HeadPartGives(c);
    RootBlockVanishes(v);
    VanishesGives(Start, RootBlock(v));
    ThreeGive(Start, HeadPart(c), Start, RootBlock(v), Start, rest, q,
              Plus(In(Head, c.head), Gap(c.head != [], Start)), Nothing, d);
  }

  function KeptLinesOf(c: Cleaned): Cleaned {
    WithGaps(c, Gap(c.head != [], Start), TailGap(c), MemoriesGap(c), Blank(AfterMemories(c)))
  }

  /** An exported file keeps its sections, padded with blank lines. */
  lemma RenderedGives(c: Cleaned, v: Values)
    requires Settled(c) && FitsIn(c, v)
    ensures Gives(Start, Rendered(c, v), InProvider, KeptLinesOf(c))
  {
    LastPartsGive(c, v);
    FirstPartsGive(c, v, TailPart(c) + (MemoriesPart(c, v) + ProviderPart(v)), InProvider, LastParts(c));
  }

  lemma KeptIsPadded(c: Cleaned)
    requires TailSettled(c.tail)
    ensures Padded(KeptLinesOf(c).head, c.head) && Padded(KeptLinesOf(c).tail, c.tail)
    ensures Padded(KeptLinesOf(c).memories, c.memories)
  {
    TailAvoidsMemories(c);
    GapsPad(c, Gap(c.head != [], Start), TailGap(c), MemoriesGap(c), Blank(AfterMemories(c)));
  }

  predicate TrimmedAlready(c: Cleaned) {
    Trimmed(c.head) == c.head && Trimmed(c.tail) == c.tail && Trimmed(c.memories) == c.memories
  }

  /** What a file keeps, without the blank lines at the ends. */
  lemma CleanOfGiven(lines: seq<string>, q: Position, d: Cleaned, c: Cleaned)
    requires Gives(Start, lines, q, d) && TrimmedAlready(c)
    requires Padded(d.head, c.head) && Padded(d.tail, c.tail) && Padded(d.memories, c.memories)
    ensures Clean(lines) == c
  {
    forall section { CleanFollows(Begin, Start, lines, section); }
    TrimmedOfPadded(d.head, c.head);
    TrimmedOfPadded(d.tail, c.tail);
    TrimmedOfPadded(d.memories, c.memories);
  }

  /** Cleaning an exported file gives back the sections it was made of. */
  lemma CleanOfRendered(c: Cleaned, v: Values)
    requires Settled(c) && FitsIn(c, v)
    ensures Clean(Rendered(c, v)) == c
    ensures Tidy(Start, Rendered(c, v)) && Closed(End(Start, Rendered(c, v)))
  {
    RenderedGives(c, v);
    KeptIsPadded(c);
    CleanOfGiven(Rendered(c, v), InProvider, KeptLinesOf(c), c);
  }
}
