/** Exports of a file that ends, in the eyes of the tracker, in an open multi-line string. */
module CodexGrowth {
  import opened Text
  import opened Lines
  import opened TomlSyntax
  import opened TomlStrings
  import opened CodexConfig
  import opened CodexRegions
  import opened CodexExport
  import opened CodexLaws
  import opened CodexTarget
  import opened CodexFixedPoint
  import TomlLines

  /** Read from q, the lines stay in the section and end at p. */
  predicate Ends(q: Position, lines: seq<string>, section: Section, p: Position) {
    Stays(q, lines, section) && End(q, lines) == p && Trimmed(lines) == lines
  }

  /** One section ends open, at p; the others are settled. */
  predicate OpenAt(c: Cleaned, p: Position) {
    && !Closed(p)
    && match SectionOf(p.region)
       case Head => Ends(Start, c.head, Head, p) && c.tail == [] && c.memories == []
       case Tail => HeadSettled(c.head) && MemoriesSettled(c.memories) && Ends(Start, c.tail, Tail, p)
       case Memories => HeadSettled(c.head) && TailSettled(c.tail) && Ends(InMemories, c.memories, Memories, p)
  }

  /** A file that ends at the top has no line behind a header. */
  lemma {:induction false} TopOnly(p: Position, lines: seq<string>)
    requires End(p, lines).region == Top
    ensures p.region == Top && KeptIn(p, lines, Tail) == [] && KeptIn(p, lines, Memories) == []
    decreases |lines|
  {
    if lines != [] {
      TopOnly(Move(p, lines[0]).0, lines[1..]);
    }
  }

  lemma CleanEnds(lines: seq<string>, q: Position, section: Section)
    requires Tidy(Start, lines) && InStep(Start, q, section) && q.region != Provider
    ensures var kept := KeptIn(Start, lines, section);
      && Ends(q, Trimmed(kept), section, End(q, kept)) && InStep(End(Start, lines), End(q, kept), section)
  {
    Replay(Start, q, lines, section);
    TrimmedStays(q, KeptIn(Start, lines, section), section);
    TrimmedTwice(KeptIn(Start, lines, section));
  }

  /** What a clean-up leaves of a tidy file that ends open. */
  lemma CleanOpens(lines: seq<string>)
    requires Tidy(Start, lines) && !Closed(End(Start, lines))
    ensures OpenAt(Clean(lines), End(Start, lines))
  {
    forall section { CleanFollows(Begin, Start, lines, section); }
    CleanEnds(lines, Start, Head);
    CleanEnds(lines, Start, Tail);
    CleanEnds(lines, InMemories, Memories);
    if End(Start, lines).region == Top {
      TopOnly(Start, lines);
    }
  }

  // --- What an open string swallows. ---

  predicate NoMarkIn(lines: seq<string>, d: Delim) {
    forall i :: 0 <= i < |lines| ==> Find(lines[i], d.Mark()) < 0
  }

  lemma {:induction false} Swallows(p: Position, lines: seq<string>)
    requires !Closed(p) && NoMarkIn(lines, p.delim)
    ensures Stays(p, lines, SectionOf(p.region)) && End(p, lines) == p
    decreases |lines|
  {
    if lines != [] {
      assert Move(p, lines[0]) == (p, Kept(SectionOf(p.region)));
      assert NoMarkIn(lines[1..], p.delim) by {
        forall i | 0 <= i < |lines| - 1 ensures Find(lines[1..][i], p.delim.Mark()) < 0 {
          assert lines[1..][i] == lines[i + 1];
        }
      }
      Swallows(p, lines[1..]);
    }
  }

  lemma NoMarkInBoth(a: seq<string>, b: seq<string>, d: Delim)
    requires NoMarkIn(a, d) && NoMarkIn(b, d)
    ensures NoMarkIn(a + b, d)
  {
  }

  lemma VanishingHasNoMark(p: Position, lines: seq<string>, d: Delim)
    requires Vanishes(p, lines) && d != NoDelim
    ensures NoMarkIn(lines, d)
  {
    forall i | 0 <= i < |lines| ensures Find(lines[i], d.Mark()) < 0 {
      assert VanishesAt(p, lines[i]);
    }
  }

  lemma OpeningHasNoMark(line: string, d: Delim)
    requires Single(line) && d != NoDelim
    ensures NoMarkIn(["", line], d)
  {
    NoMark("", d.Mark());
  }

  lemma ProviderPartHasNoMark(v: Values, d: Delim)
    requires Fits(v) && d != NoDelim
    ensures NoMarkIn(ProviderPart(v), d)
  {
    HeadersSwitch(Start);
    OpeningHasNoMark(PROVIDER_LINE, d);
    ProviderSettingsVanish(v);
    VanishingHasNoMark(InProvider, ProviderSettings(v), d);
    NoMarkInBoth(["", PROVIDER_LINE], ProviderSettings(v), d);
  }

  lemma MemoriesPartHasNoMark(c: Cleaned, v: Values, d: Delim)
    requires FitsIn(c, v) && d != NoDelim && NoMarkIn(c.memories, d)
    ensures NoMarkIn(MemoriesPart(c, v), d)
  {
    if c.memories != [] {
      HeadersSwitch(Start);
      OpeningHasNoMark(MEMORIES_LINE, d);
      MemoryBlockVanishes(v);
      VanishingHasNoMark(InMemories, MemoryBlock(v), d);
      NoMarkInBoth(c.memories, MemoryBlock(v), d);
      NoMarkInBoth(["", MEMORIES_LINE], c.memories + MemoryBlock(v), d);
    }
  }

  /** The string is open in another table, and a memories line has its mark. */
  predicate Toggles(c: Cleaned, p: Position) {
    SectionOf(p.region) == Tail && !NoMarkIn(c.memories, p.delim)
  }

  /** What an export writes between the open section and the provider table. */
  function Between(c: Cleaned, p: Position, v: Values): seq<string> {
    match SectionOf(p.region)
    case Head => [""] + RootBlock(v)
    case Tail => MemoriesPart(c, v)
    case Memories => MemoryBlock(v)
  }

  /** All that it writes behind the open section. */
  function Behind(c: Cleaned, p: Position, v: Values): seq<string> {
    Between(c, p, v) + ProviderPart(v)
  }

  lemma BehindHasNoMark(c: Cleaned, p: Position, v: Values)
    requires OpenAt(c, p) && FitsIn(c, v) && !Toggles(c, p)
    ensures NoMarkIn(Behind(c, p, v), p.delim)
  {
    var d := p.delim;
    match SectionOf(p.region) {
      case Head =>
        RootBlockVanishes(v);
        VanishingHasNoMark(Start, RootBlock(v), d);
        NoMark("", d.Mark());
        NoMarkInBoth([""], RootBlock(v), d);
      case Tail =>
        MemoriesPartHasNoMark(c, v, d);
      case Memories =>
        MemoryBlockVanishes(v);
        VanishingHasNoMark(InMemories, MemoryBlock(v), d);
    }
    ProviderPartHasNoMark(v, d);
    NoMarkInBoth(Between(c, p, v), ProviderPart(v), d);
  }

  lemma SettingIsVisible(name: string, value: string)
    requires IsKeyName(name)
    ensures !IsBlank(Setting(name, value))
  {
    var line := Setting(name, value);
    assert line[0] == name[0] && name[0] in name;
    if IsBlank(line) {
      BlankIsSpace(line);
    }
  }

  lemma LastIsVisible(a: seq<string>, v: Values)
    ensures Trimmed(a + ProviderPart(v)) == a + ProviderPart(v)
  {
    OwnNamesAreKeyNames(BEARER_TOKEN);
    SettingIsVisible(BEARER_TOKEN, Quote(v.apiKey));
    var all := a + ProviderPart(v);
    assert all[|all| - 1] == ProviderSettings(v)[3];
  }

  lemma Assoc3(a: seq<string>, b: seq<string>, c: seq<string>)
    ensures (a + b) + c == a + (b + c)
  {
  }

  lemma BehindIsVisible(c: Cleaned, p: Position, v: Values, a: seq<string>)
    ensures Trimmed(a + Behind(c, p, v)) == a + Behind(c, p, v)
  {
    LastIsVisible(a + Between(c, p, v), v);
    Assoc3(a, Between(c, p, v), ProviderPart(v));
  }

  /** The open section takes in what is written behind it. */
  lemma SectionGrows(q: Position, lines: seq<string>, c: Cleaned, p: Position, v: Values)
    requires OpenAt(c, p) && FitsIn(c, v) && !Toggles(c, p) && Ends(q, lines, SectionOf(p.region), p)
    ensures Ends(q, lines + Behind(c, p, v), SectionOf(p.region), p)
    ensures Gives(q, lines + Behind(c, p, v), p, In(SectionOf(p.region), lines + Behind(c, p, v)))
  {
    var section := SectionOf(p.region);
    BehindHasNoMark(c, p, v);
    Swallows(p, Behind(c, p, v));
    StaysAppend(q, lines, Behind(c, p, v), section);
    Append(q, lines, Behind(c, p, v), section);
    BehindIsVisible(c, p, v, lines);
    StaysGives(q, lines + Behind(c, p, v), section);
  }

  function Grown(c: Cleaned, p: Position, v: Values): Cleaned {
    match SectionOf(p.region)
    case Head => c.(head := c.head + Behind(c, p, v))
    case Tail => c.(tail := c.tail + Behind(c, p, v), memories := [])
    case Memories => c.(memories := c.memories + Behind(c, p, v))
  }

  // --- One more export. ---

  lemma HeadInFront(head: seq<string>, gap: seq<string>, root: seq<string>, provider: seq<string>)
    ensures (head + gap) + (root + ([] + ([] + provider))) == head + ((gap + root) + provider)
  {
  }

  lemma MemoriesInFront(
    tail: seq<string>, open: seq<string>, memories: seq<string>, block: seq<string>, provider: seq<string>
  )
    ensures tail + ((open + (memories + block)) + provider) == tail + (open + (memories + (block + provider)))
  {
  }

  lemma OpenIsThere(c: Cleaned, p: Position)
    requires OpenAt(c, p)
    ensures match SectionOf(p.region)
      case Head => c.head != []
      case Tail => c.tail != []
      case Memories => c.memories != []
  {
  }

  lemma PlusNothing(c: Cleaned)
    ensures Plus(c, Nothing) == c
  {
  }

  lemma HeadGrows(c: Cleaned, p: Position, v: Values)
    requires OpenAt(c, p) && FitsIn(c, v) && SectionOf(p.region) == Head
    ensures Gives(Start, Rendered(c, v), p, Grown(c, p, v)) && Rendered(c, v) == Grown(c, p, v).head
  {
    SectionGrows(Start, c.head, c, p, v);
    OpenIsThere(c, p);
    HeadInFront(c.head, [""], RootBlock(v), ProviderPart(v));
  }

  lemma TailGrows(c: Cleaned, p: Position, v: Values)
    requires OpenAt(c, p) && FitsIn(c, v) && !Toggles(c, p) && SectionOf(p.region) == Tail
    ensures Gives(Start, Rendered(c, v), p,
                  WithGaps(Grown(c, p, v), Gap(c.head != [], Start), Blank(Start), Nothing, Nothing))
  {
    var grown := Grown(c, p, v).tail;
    SectionGrows(Start, c.tail, c, p, v);
    OpenIsThere(c, p);
    BlankGives(Start);
    GivesAppend(Start, [""], Start, grown, p, Blank(Start), In(Tail, grown));
    FirstPartsGive(c, v, [""] + grown, p, Plus(Blank(Start), In(Tail, grown)));
    Assoc3([""], c.tail, Behind(c, p, v));
    PlusNothing(Plus(Blank(Start), In(Tail, grown)));
    assert In(Memories, []) == Nothing && Plus(Nothing, Nothing) == Nothing;
  }

  lemma MemoriesGrow(c: Cleaned, p: Position, v: Values)
    requires OpenAt(c, p) && FitsIn(c, v) && SectionOf(p.region) == Memories
    ensures Gives(Start, Rendered(c, v), p,
                  WithGaps(Grown(c, p, v), Gap(c.head != [], Start), TailGap(c), Blank(AfterTail(c)), Nothing))
  {
    var q := AfterTail(c);
    var grown := Grown(c, p, v).memories;
    var front, body := Plus(TailGap(c), In(Tail, c.tail)), Plus(Blank(q), In(Memories, grown));
    SectionGrows(InMemories, c.memories, c, p, v);
    OpenIsThere(c, p);
    TailPartGives(c);
    EndIsNoProvider(Start, c.tail, Tail);
    HeadersSwitch(q);
    OpeningGives(q, MEMORIES_LINE, InMemories);
    GivesAppend(q, ["", MEMORIES_LINE], InMemories, grown, p, Blank(q), In(Memories, grown));
    GivesAppend(Start, TailPart(c), q, ["", MEMORIES_LINE] + grown, p, front, body);
    FirstPartsGive(c, v, TailPart(c) + (["", MEMORIES_LINE] + grown), p, Plus(front, body));
    PlusNothing(body);
    MemoriesInFront(TailPart(c), ["", MEMORIES_LINE], c.memories, MemoryBlock(v), ProviderPart(v));
  }

  lemma GrownIsTrimmed(c: Cleaned, p: Position, v: Values)
    requires OpenAt(c, p)
    ensures TrimmedAlready(Grown(c, p, v))
  {
    BehindIsVisible(c, p, v, c.head);
    BehindIsVisible(c, p, v, c.tail);
    BehindIsVisible(c, p, v, c.memories);
  }

  lemma CleanOfGaps(lines: seq<string>, q: Position, c: Cleaned, g: Cleaned, h: Cleaned, i: Cleaned)
    requires Gives(Start, lines, q, WithGaps(c, g, h, i, Nothing)) && TrimmedAlready(c)
    requires OnlyBlank(g) && OnlyBlank(h) && OnlyBlank(i)
    requires g.tail == h.tail == [] && g.memories == h.memories == i.memories == []
    ensures Clean(lines) == c
  {
    GapsPad(c, g, h, i, Nothing);
    CleanOfGiven(lines, q, WithGaps(c, g, h, i, Nothing), c);
  }

  lemma GapIsBlank(present: bool, p: Position)
    requires p.region != MemoriesTable
    ensures OnlyBlank(Gap(present, p)) && OnlyBlank(Blank(p))
    ensures Gap(present, p).memories == Blank(p).memories == []
    ensures p == Start ==> Gap(present, p).tail == Blank(p).tail == []
  {
  }

  lemma CleanOfTail(c: Cleaned, p: Position, v: Values)
    requires OpenAt(c, p) && FitsIn(c, v) && !Toggles(c, p) && SectionOf(p.region) == Tail
    ensures Clean(Rendered(c, v)) == Grown(c, p, v)
  {
    TailGrows(c, p, v);
    GrownIsTrimmed(c, p, v);
    GapIsBlank(c.head != [], Start);
    CleanOfGaps(Rendered(c, v), p, Grown(c, p, v), Gap(c.head != [], Start), Blank(Start), Nothing);
  }

  lemma CleanOfMemories(c: Cleaned, p: Position, v: Values)
    requires OpenAt(c, p) && FitsIn(c, v) && SectionOf(p.region) == Memories
    ensures Clean(Rendered(c, v)) == Grown(c, p, v)
  {
    MemoriesGrow(c, p, v);
    GrownIsTrimmed(c, p, v);
    TailAvoidsMemories(c);
    GapIsBlank(c.head != [], Start);
    GapIsBlank(c.tail != [], Start);
    GapIsBlank(true, AfterTail(c));
    CleanOfGaps(Rendered(c, v), p, Grown(c, p, v), Gap(c.head != [], Start), TailGap(c), Blank(AfterTail(c)));
  }

  lemma CleanOfHead(c: Cleaned, p: Position, v: Values)
    requires OpenAt(c, p) && FitsIn(c, v) && SectionOf(p.region) == Head
    ensures Clean(Rendered(c, v)) == Grown(c, p, v)
  {
    HeadGrows(c, p, v);
    GrownIsTrimmed(c, p, v);
    CleanOfGiven(Rendered(c, v), p, Grown(c, p, v), Grown(c, p, v));
  }

  lemma OpenHead(head: seq<string>, p: Position)
    requires SectionOf(p.region) == Head && !Closed(p) && Ends(Start, head, Head, p)
    ensures OpenAt(Cleaned(head, [], []), p)
  {
  }

  lemma OpenTail(head: seq<string>, tail: seq<string>, p: Position)
    requires SectionOf(p.region) == Tail && !Closed(p) && HeadSettled(head) && Ends(Start, tail, Tail, p)
    ensures OpenAt(Cleaned(head, tail, []), p) && !Toggles(Cleaned(head, tail, []), p)
  {
    assert MemoriesSettled([]);
  }

  lemma OpenMemories(head: seq<string>, tail: seq<string>, memories: seq<string>, p: Position)
    requires SectionOf(p.region) == Memories && !Closed(p) && HeadSettled(head) && TailSettled(tail)
    requires Ends(InMemories, memories, Memories, p)
    ensures OpenAt(Cleaned(head, tail, memories), p)
  {
  }

  /** The next clean-up keeps what was written behind the open section in that section, and it is
      open again. */
  lemma OpenAgain(c: Cleaned, p: Position, v: Values)
    requires OpenAt(c, p) && FitsIn(c, v) && !Toggles(c, p)
    ensures Clean(Rendered(c, v)) == Grown(c, p, v)
    ensures OpenAt(Grown(c, p, v), p) && !Toggles(Grown(c, p, v), p)
  {
    var more := Behind(c, p, v);
    match SectionOf(p.region) {
      case Head =>
        CleanOfHead(c, p, v);
        SectionGrows(Start, c.head, c, p, v);
        OpenHead(c.head + more, p);
      case Tail =>
        CleanOfTail(c, p, v);
        SectionGrows(Start, c.tail, c, p, v);
        OpenTail(c.head, c.tail + more, p);
      case Memories =>
        CleanOfMemories(c, p, v);
        SectionGrows(InMemories, c.memories, c, p, v);
        OpenMemories(c.head, c.tail, c.memories + more, p);
    }
  }

  lemma RenderedSize(c: Cleaned, v: Values)
    ensures |Rendered(c, v)| == |HeadPart(c)| + 3 + |TailPart(c)| + |MemoriesPart(c, v)| + 6
    ensures |MemoriesPart(c, v)| == if c.memories == [] then 0 else |c.memories| + 4
  {
  }

  /** How many lines an export adds. */
  function Growth(p: Position): nat {
    match SectionOf(p.region)
    case Head => 10
    case Tail => 6
    case Memories => 8
  }

  /** So the next export is longer. */
  lemma GrowStep(c: Cleaned, p: Position, v: Values, w: Values)
    requires OpenAt(c, p) && FitsIn(c, v) && !Toggles(c, p)
    ensures var d := Clean(Rendered(c, v));
      && OpenAt(d, p) && !Toggles(d, p) && (c.memories == [] ==> d.memories == [])
      && |Rendered(d, w)| == |Rendered(c, v)| + Growth(p)
  {
    OpenAgain(c, p, v);
    OpenIsThere(c, p);
    RenderedSize(c, v);
    RenderedSize(Grown(c, p, v), w);
  }

  // --- Runs. ---

  /** Each file is the export of the one before. */
  predicate Exports(files: seq<seq<string>>, t: Target) {
    forall i :: 0 <= i < |files| - 1 ==> files[i + 1] == Rewrite(files[i], t)
  }

  /** The files with one section open, at p, and no way to close it. */
  ghost function OpenFiles(p: Position): iset<seq<string>> {
    iset lines | OpenAt(Clean(lines), p) && !Toggles(Clean(lines), p)
                 && (Clean(lines).memories == [] || ModelsFit(lines))
  }

  /** An export of such a file is one, and the next export is longer. */
  lemma OpenFilesGrow(lines: seq<string>, p: Position, t: Target)
    requires TargetFits(t) && lines in OpenFiles(p)
    ensures var once := Rewrite(lines, t);
      once in OpenFiles(p) && |Rewrite(once, t)| == |once| + Growth(p)
  {
    var once := Rewrite(lines, t);
    var v, w := ValuesFor(lines, t.host, t.apiKey, t.models), ValuesFor(once, t.host, t.apiKey, t.models);
    ValuesFit(lines, t);
    GrowStep(Clean(lines), p, v, w);
    if ModelsFit(lines) {
      RenderedModelsFit(lines, v);
    }
  }

  lemma {:induction false} OpenForever(files: seq<seq<string>>, p: Position, t: Target, i: nat)
    requires Exports(files, t) && TargetFits(t) && i < |files| && files[0] in OpenFiles(p)
    ensures files[i] in OpenFiles(p)
  {
    if i > 0 {
      OpenForever(files, p, t, i - 1);
      OpenFilesGrow(files[i - 1], p, t);
      assert files[i - 1 + 1] == Rewrite(files[i - 1], t);
    }
  }

  /** A tidy file with fitting values; if a string is open in another table at its end, no memories
      line has its mark. */
  predicate Regular(lines: seq<string>, t: Target) {
    && Tidy(Start, lines) && TargetFits(t) && (Clean(lines).memories == [] || ModelsFit(lines))
    && (Closed(End(Start, lines)) || !Toggles(Clean(lines), End(Start, lines)))
  }

  /** Of a file that ends open every export but the first is longer, by the same lines each time. */
  lemma GrowsForever(files: seq<seq<string>>, t: Target, i: nat)
    requires Exports(files, t) && 0 < i < |files| - 1 && Regular(files[0], t) && !Closed(End(Start, files[0]))
    ensures |files[i + 1]| == |files[i]| + Growth(End(Start, files[0]))
  {
    CleanOpens(files[0]);
    OpenForever(files, End(Start, files[0]), t, i - 1);
    OpenFilesGrow(files[i - 1], End(Start, files[0]), t);
    assert files[i - 1 + 1] == Rewrite(files[i - 1], t);
  }

  /** The export after i changes nothing. */
  predicate Rests(files: seq<seq<string>>, i: nat)
    requires i < |files| - 1
  {
    files[i + 1] == files[i]
  }

  lemma NeverRests(files: seq<seq<string>>, t: Target, i: nat)
    requires Exports(files, t) && i < |files| - 1 && |files| > 2
    requires Regular(files[0], t) && !Closed(End(Start, files[0]))
    ensures !Rests(files, i)
  {
    if i > 0 {
      GrowsForever(files, t, i);
    } else {
      GrowsForever(files, t, 1);
      assert files[0 + 1] == Rewrite(files[0], t) && files[1 + 1] == Rewrite(files[1], t);
    }
  }

  /** Of three exports or more the third changes nothing, and any at all does, exactly if the file
      ends closed in the eyes of the tracker. */
  lemma RestsIffClosed(files: seq<seq<string>>, t: Target)
    requires Exports(files, t) && |files| > 3 && Regular(files[0], t)
    ensures Rests(files, 2) <==> Closed(End(Start, files[0]))
    ensures (exists i :: 0 <= i < |files| - 1 && Rests(files, i)) <==> Closed(End(Start, files[0]))
  {
    if Closed(End(Start, files[0])) {
      FixedPoint(files[0], t);
      ThreeExports(files, t);
      assert Rests(files, 2);
    } else {
      forall i | 0 <= i < |files| - 1 ensures !Rests(files, i) {
        NeverRests(files, t, i);
      }
    }
  }

  lemma ThreeExports(files: seq<seq<string>>, t: Target)
    requires Exports(files, t) && |files| > 3
    ensures files[2] == Rewrite(Rewrite(files[0], t), t) && files[3] == Rewrite(files[2], t)
  {
    assert files[0 + 1] == Rewrite(files[0], t) && files[1 + 1] == Rewrite(files[1], t);
    assert files[2 + 1] == Rewrite(files[2], t);
  }

  // --- Every tidy file. ---

  lemma {:induction false} KeptLinesAppend(st: State, a: seq<string>, b: seq<string>, section: Section)
    ensures KeptLines(st, a, section) <= KeptLines(st, a + b, section)
    decreases |a|
  {
    if a != [] {
      assert (a + b)[1..] == a[1..] + b;
      KeptLinesAppend(Step(st, a[0]).0, a[1..], b, section);
    }
  }

  lemma {:induction false} TrimmedKeeps(short: seq<string>, long: seq<string>)
    requires short <= long && short != [] && !IsBlank(short[|short| - 1])
    ensures short <= Trimmed(long)
    decreases |long|
  {
    if IsBlank(long[|long| - 1]) {
      assert |short| < |long|;
      TrimmedKeeps(short, long[..|long| - 1]);
    }
  }

  lemma MemoriesLineIsVisible()
    ensures !IsBlank(MEMORIES_LINE)
  {
    assert MEMORIES_LINE[0] == '[';
    if IsBlank(MEMORIES_LINE) {
      BlankIsSpace(MEMORIES_LINE);
    }
  }

  /** The other table takes in the memories header, whatever comes behind it. */
  lemma TailTakesHeader(c: Cleaned, p: Position, v: Values)
    requires OpenAt(c, p) && Fits(v) && SectionOf(p.region) == Tail && c.memories != []
    ensures c.tail + ["", MEMORIES_LINE] <= Clean(Rendered(c, v)).tail
  {
    var tail := c.tail + ["", MEMORIES_LINE];
    var front := HeadPart(c) + (RootBlock(v) + ([""] + tail));
    HeadersSwitch(Start);
    OpeningHasNoMark(MEMORIES_LINE, p.delim);
    Swallows(p, ["", MEMORIES_LINE]);
    StaysAppend(Start, c.tail, ["", MEMORIES_LINE], Tail);
    Append(Start, c.tail, ["", MEMORIES_LINE], Tail);
    StaysGives(Start, tail, Tail);
    BlankGives(Start);
    GivesAppend(Start, [""], Start, tail, p, Blank(Start), In(Tail, tail));
    FirstPartsGive(c, v, [""] + tail, p, Plus(Blank(Start), In(Tail, tail)));
    CleanFollows(Begin, Start, front, Tail);
    OpenIsThere(c, p);
    var rest := (c.memories + MemoryBlock(v)) + ProviderPart(v);
    FrontAndRest(HeadPart(c), RootBlock(v), c.tail, ["", MEMORIES_LINE], c.memories + MemoryBlock(v), ProviderPart(v));
    KeptLinesAppend(Begin, front, rest, Tail);
    assert KeptLines(Begin, front, Tail) == tail;
    MemoriesLineIsVisible();
    TrimmedKeeps(tail, KeptLines(Begin, Rendered(c, v), Tail));
  }

  lemma FrontAndRest(
    head: seq<string>, root: seq<string>, tail: seq<string>, open: seq<string>, body: seq<string>, provider: seq<string>
  )
    ensures head + (root + (([""] + tail) + ((open + body) + provider)))
         == (head + (root + ([""] + (tail + open)))) + (body + provider)
  {
  }

  /** Of every tidy file the sections survive an export exactly if it ends closed; only such a file
      can be its own export. */
  lemma SectionsSurviveIff(lines: seq<string>, t: Target)
    requires Tidy(Start, lines) && TargetFits(t) && (Clean(lines).memories == [] || ModelsFit(lines))
    ensures Clean(Rewrite(lines, t)) == Clean(lines) <==> Closed(End(Start, lines))
    ensures Rewrite(lines, t) == lines ==> Closed(End(Start, lines))
  {
    var c, p := Clean(lines), End(Start, lines);
    if Closed(p) {
      RewriteKeepsSections(lines, t);
    } else {
      var v := ValuesFor(lines, t.host, t.apiKey, t.models);
      CleanOpens(lines);
      ValuesFit(lines, t);
      if Toggles(c, p) {
        TailTakesHeader(c, p, v);
      } else {
        GrowStep(c, p, v, v);
      }
    }
  }

  // --- A comment. ---

  lemma CommentOpens(text: string, d: Delim, rest: seq<string>)
    requires '"' !in text && '\'' !in text && d != NoDelim && forall i :: 0 <= i < |rest| ==> Single(rest[i])
    ensures var lines := [CommentWith(text, d)] + rest;
      && TomlLines.Last(TomlLines.Root, lines).delim == NoDelim
      && Tidy(Start, lines) && End(Start, lines) == Position(Top, d) && Clean(lines).memories == []
  {
    var comment, open := CommentWith(text, d), Position(Top, d);
    var lines := [comment] + rest;
    CommentFacts(text, d);
    assert lines[0] == comment && lines[1..] == rest;
    assert Move(Start, comment) == (open, Kept(Head));
    Swallows(open, rest);
    assert Stays(Start, lines, Head) && End(Start, lines) == open;
    StaysIsTidy(Start, lines, Head, Memories);
    CleanFollows(Begin, Start, lines, Memories);
    SinglesOpenNothing(TomlLines.Next(TomlLines.Root, comment), rest);
  }

  /** No multi-line string, and a mark in a comment in front: the exports never come to rest. */
  lemma CommentNeverRests(text: string, d: Delim, rest: seq<string>, files: seq<seq<string>>, t: Target, i: nat)
    requires '"' !in text && '\'' !in text && d != NoDelim && forall j :: 0 <= j < |rest| ==> Single(rest[j])
    requires Exports(files, t) && TargetFits(t) && i < |files| - 1 && |files| > 2
    requires files[0] == [CommentWith(text, d)] + rest
    ensures TomlLines.Last(TomlLines.Root, files[0]).delim == NoDelim && !Rests(files, i)
    ensures i > 0 ==> |files[i + 1]| == |files[i]| + 10
  {
    CommentOpens(text, d, rest);
    NeverRests(files, t, i);
    if i > 0 {
      GrowsForever(files, t, i);
    }
  }

  lemma {:induction false} SinglesOpenNothing(p: TomlLines.Place, lines: seq<string>)
    requires p.delim == NoDelim && forall i :: 0 <= i < |lines| ==> Single(lines[i])
    ensures TomlLines.Last(p, lines).delim == NoDelim
    decreases |lines|
  {
    if lines != [] {
      UnmarkedAgrees(NoDelim, lines[0]);
      SinglesOpenNothing(TomlLines.Next(p, lines[0]), lines[1..]);
    }
  }

  // --- Files. ---

  /** No export brings in a line that ends in a return. */
  lemma NoReturnAgain(lines: seq<string>, t: Target) returns (once: seq<string>)
    requires AllLines(lines) && TargetIsLines(t) && NoReturnKept(Clean(lines))
    ensures once == Rewrite(lines, t)
    ensures AllLines(once) && NoReturnKept(Clean(once)) && SplitLines(Join(once, "\n")) == once
  {
    once := Rewrite(lines, t);
    ReadBackIff(lines, t);
    CleanedAreLines(once);
    forall line | line in once ensures IsLine(line) && !EndsInReturn(line) {
      RewriteIsLines(lines, t, line);
    }
  }

  lemma ThirdRestsIffClosed(lines: seq<string>, t: Target)
    requires Regular(lines, t)
    ensures var twice := Rewrite(Rewrite(lines, t), t);
      Rewrite(twice, t) == twice <==> Closed(End(Start, lines))
  {
    var p := End(Start, lines);
    if Closed(p) {
      FixedPoint(lines, t);
    } else {
      CleanOpens(lines);
      OpenFilesGrow(lines, p, t);
      OpenFilesGrow(Rewrite(lines, t), p, t);
    }
  }

  /** On the text of the files the third export changes nothing exactly if the file ends closed. */
  lemma FileRestsIffClosed(content: string, t: Target)
    requires TargetIsLines(t) && Regular(SplitLines(content), t) && NoReturnKept(Clean(SplitLines(content)))
    ensures var twice := WriteText(WriteText(content, t), t);
      WriteText(twice, t) == twice <==> Closed(End(Start, SplitLines(content)))
  {
    var lines := SplitLines(content);
    SplitIsLines(StripReturns(content));
    var out1 := NoReturnAgain(lines, t);
    var out2 := NoReturnAgain(out1, t);
    var out3 := NoReturnAgain(out2, t);
    assert WriteText(content, t) == Join(out1, "\n");
    assert WriteText(WriteText(content, t), t) == Join(out2, "\n");
    ThirdRestsIffClosed(lines, t);
  }
}
