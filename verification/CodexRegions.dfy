/** What the clean-up means: the fate of a line follows from the last table header before it.
    And what cleaning its own output gives back. */
module CodexRegions {
  import opened Text
  import opened TomlSyntax
  import opened CodexConfig

  /** The part of the file a line is in, named after the last header outside multi-line strings. */
  datatype Region = Top | Provider | MemoriesTable | Profiles | Other

  datatype Position = Position(region: Region, delim: Delim)

  const Start := Position(Top, NoDelim)

  function RegionOf(header: string): Region {
    if IsProviderHeader(header) || IsLegacyHeader(header) then Provider
    else if IsMemoriesHeader(header) then MemoriesTable
    else if IsProfilesHeader(header) then Profiles
    else Other
  }

  function SectionOf(r: Region): Section {
    if r == Top then Head else if r == MemoriesTable then Memories else Tail
  }

  /** The lines that are written anew. */
  predicate Managed(r: Region, line: string) {
    match r
    case Top | Other => IsRootModelKey(line)
    case MemoriesTable => IsMemoriesHeader(line) || IsMemoryModelKey(line)
    case Profiles => false
    case Provider => true
  }

  function Move(p: Position, line: string): (Position, Fate) {
    var (delim, inside) := Track(p.delim, line);
    var r := if !inside && IsTableHeader(line) then RegionOf(line) else p.region;
    (Position(r, delim), if r == Provider || (!inside && Managed(r, line)) then Dropped else Kept(SectionOf(r)))
  }

  function End(p: Position, lines: seq<string>): Position
    decreases |lines|
  {
    if lines == [] then p else End(Move(p, lines[0]).0, lines[1..])
  }

  function KeptIn(p: Position, lines: seq<string>, section: Section): seq<string>
    decreases |lines|
  {
    if lines == [] then []
    else
      var (to, fate) := Move(p, lines[0]);
      var rest := KeptIn(to, lines[1..], section);
      if fate == Kept(section) then [lines[0]] + rest else rest
  }

  /** No multi-line string of a managed provider table has a line that reads like a header. */
  predicate Tidy(p: Position, lines: seq<string>)
    decreases |lines|
  {
    lines == [] ||
    (&& (p.region == Provider && Track(p.delim, lines[0]).1 ==> !IsTableHeader(lines[0]))
     && Tidy(Move(p, lines[0]).0, lines[1..]))
  }

  /** No multi-line string is open, or it goes with the managed provider table it is in. */
  predicate Closed(p: Position) {
    p.delim == NoDelim || p.region == Provider
  }

  // --- The flags of the clean-up stand for the region. ---

  predicate Represents(st: State, p: Position) {
    && st.delim == p.delim
    && match p.region
       case Top => !st.inProvider && !st.inMemories && !st.seenTable && st.dropRootKeys
       case Provider => st.inProvider && st.seenTable
       case MemoriesTable => !st.inProvider && st.inMemories && st.seenTable && !st.dropRootKeys
       case Profiles => !st.inProvider && !st.inMemories && st.seenTable && !st.dropRootKeys
       case Other => !st.inProvider && !st.inMemories && st.seenTable && st.dropRootKeys
  }

  /** The fates of the lines as the clean-up decides them. */
  function Fates(st: State, lines: seq<string>): seq<Fate>
    decreases |lines|
  {
    if lines == [] then [] else [Step(st, lines[0]).1] + Fates(Step(st, lines[0]).0, lines[1..])
  }

  function FatesIn(p: Position, lines: seq<string>): seq<Fate>
    decreases |lines|
  {
    if lines == [] then [] else [Move(p, lines[0]).1] + FatesIn(Move(p, lines[0]).0, lines[1..])
  }

  lemma StepFollows(st: State, p: Position, line: string)
    requires Represents(st, p) && (p.region == Provider && Track(p.delim, line).1 ==> !IsTableHeader(line))
    ensures Represents(Step(st, line).0, Move(p, line).0) && Step(st, line).1 == Move(p, line).1
  {
    HeaderFacts(line);
  }

  lemma HeaderFacts(line: string)
    ensures IsProviderHeader(line) || IsLegacyHeader(line) || IsMemoriesHeader(line) ==> IsTableHeader(line)
    ensures IsTableHeader(line) ==> !IsRootModelKey(line) && !IsMemoryModelKey(line)
  {
    if IsProviderHeader(line) || IsLegacyHeader(line) || IsMemoriesHeader(line) {
      ManagedHeadersAreHeaders(line);
    }
    if IsTableHeader(line) {
      HeaderIsNoManagedKey(line);
    }
  }

  lemma HeaderIsNoManagedKey(line: string)
    requires IsTableHeader(line)
    ensures !IsRootModelKey(line) && !IsMemoryModelKey(line)
  {
    HeaderSetsNoKey("model", line);
    HeaderSetsNoKey("model_provider", line);
    HeaderSetsNoKey("model_context_window", line);
    HeaderSetsNoKey("extract_model", line);
    HeaderSetsNoKey("consolidation_model", line);
  }

  /** Every line has the fate of its region, exactly on tidy files. */
  lemma {:induction false} FateFollowsRegionIffTidy(st: State, p: Position, lines: seq<string>)
    requires Represents(st, p)
    ensures Fates(st, lines) == FatesIn(p, lines) <==> Tidy(p, lines)
    decreases |lines|
  {
    if lines != [] {
      var line := lines[0];
      if p.region == Provider && Track(p.delim, line).1 && IsTableHeader(line) {
        assert Fates(st, lines)[0] != FatesIn(p, lines)[0];
      } else {
        StepFollows(st, p, line);
        FateFollowsRegionIffTidy(Step(st, line).0, Move(p, line).0, lines[1..]);
        assert Fates(st, lines)[1..] == Fates(Step(st, line).0, lines[1..]);
        assert FatesIn(p, lines)[1..] == FatesIn(Move(p, line).0, lines[1..]);
      }
    }
  }

  lemma {:induction false} CleanFollows(st: State, p: Position, lines: seq<string>, section: Section)
    requires Represents(st, p) && Tidy(p, lines)
    ensures KeptLines(st, lines, section) == KeptIn(p, lines, section)
    decreases |lines|
  {
    if lines != [] {
      StepFollows(st, p, lines[0]);
      CleanFollows(Step(st, lines[0]).0, Move(p, lines[0]).0, lines[1..], section);
    }
  }

  // --- Reading the kept lines again. ---

  /** From p, all lines are kept in the section. */
  predicate Stays(p: Position, lines: seq<string>, section: Section)
    decreases |lines|
  {
    lines == [] || (Move(p, lines[0]).1 == Kept(section) && Stays(Move(p, lines[0]).0, lines[1..], section))
  }

  predicate Of(r: Region, section: Section) {
    r != Provider && SectionOf(r) == section
  }

  /** q, reading a section's lines only, keeps up with p, reading the whole file. */
  predicate InStep(p: Position, q: Position, section: Section) {
    && (if Of(p.region, section) then q == p else q.delim == NoDelim)
    && (section != Tail ==> Of(q.region, section))
  }

  lemma OneStep(p: Position, q: Position, line: string, section: Section)
    requires InStep(p, q, section)
    ensures var (to, fate) := Move(p, line);
      if fate == Kept(section)
      then Move(q, line).1 == fate && InStep(to, Move(q, line).0, section) && Of(Move(q, line).0.region, section)
      else InStep(to, q, section)
  {
    if IsTableHeader(line) {
      HeaderIsNoManagedKey(line);
    }
  }

  /** The kept lines of a section, read alone, are all kept again. */
  lemma {:induction false} Replay(p: Position, q: Position, lines: seq<string>, section: Section)
    requires InStep(p, q, section)
    ensures var kept := KeptIn(p, lines, section);
      && Stays(q, kept, section) && InStep(End(p, lines), End(q, kept), section)
      && (End(q, kept) == q || Of(End(q, kept).region, section))
    decreases |lines|
  {
    if lines != [] {
      var (to, fate) := Move(p, lines[0]);
      OneStep(p, q, lines[0], section);
      if fate == Kept(section) {
        Replay(to, Move(q, lines[0]).0, lines[1..], section);
        assert KeptIn(p, lines, section)[1..] == KeptIn(to, lines[1..], section);
      } else {
        Replay(to, q, lines[1..], section);
      }
    }
  }

  // --- Files put together from pieces. ---

  lemma {:induction false} Append(p: Position, a: seq<string>, b: seq<string>, section: Section)
    ensures KeptIn(p, a + b, section) == KeptIn(p, a, section) + KeptIn(End(p, a), b, section)
    ensures End(p, a + b) == End(End(p, a), b)
    ensures Tidy(p, a + b) <==> Tidy(p, a) && Tidy(End(p, a), b)
    decreases |a|
  {
    if a == [] {
      assert a + b == b;
    } else {
      assert (a + b)[1..] == a[1..] + b;
      var to := Move(p, a[0]).0;
      Append(to, a[1..], b, section);
      Assoc(a[0], KeptIn(to, a[1..], section), KeptIn(End(p, a), b, section));
    }
  }

  lemma {:induction false} StaysIsTidy(p: Position, lines: seq<string>, section: Section, other: Section)
    requires Stays(p, lines, section)
    ensures Tidy(p, lines) && KeptIn(p, lines, other) == if other == section then lines else []
    decreases |lines|
  {
    if lines != [] {
      StaysIsTidy(Move(p, lines[0]).0, lines[1..], section, other);
    }
  }

  lemma {:induction false} StaysAppend(p: Position, a: seq<string>, b: seq<string>, section: Section)
    ensures Stays(p, a + b, section) <==> Stays(p, a, section) && Stays(End(p, a), b, section)
    decreases |a|
  {
    if a == [] {
      assert a + b == b;
    } else {
      assert (a + b)[1..] == a[1..] + b;
      StaysAppend(Move(p, a[0]).0, a[1..], b, section);
    }
  }

  // --- Blank lines. ---

  predicate IsBlank(line: string) {
    TrimSpace(line) == ""
  }

  lemma {:induction false} TrimLeftBlank(s: string)
    requires forall c :: c in TrimLeft(s) ==> IsSpace(c)
    ensures forall c :: c in s ==> IsSpace(c)
  {
    if s != [] && IsSpace(s[0]) {
      TrimLeftBlank(s[1..]);
    }
  }

  lemma {:induction false} TrimRightBlank(s: string)
    requires TrimRight(s) == ""
    ensures forall c :: c in s ==> IsSpace(c)
  {
    if s != [] {
      TrimRightBlank(s[..|s| - 1]);
    }
  }

  lemma BlankIsSpace(line: string)
    requires IsBlank(line)
    ensures forall c :: c in line ==> IsSpace(c)
  {
    TrimRightBlank(TrimLeft(line));
    TrimLeftBlank(line);
  }

  lemma BlankIsNothing(line: string)
    requires IsBlank(line)
    ensures !IsTableHeader(line) && !IsMemoriesHeader(line) && !IsRootModelKey(line) && !IsMemoryModelKey(line)
  {
    BlankIsSpace(line);
    BlankIsPlain(line, "model");
    BlankIsPlain(line, "model_provider");
    BlankIsPlain(line, "model_context_window");
    BlankIsPlain(line, "extract_model");
    BlankIsPlain(line, "consolidation_model");
    if IsMemoriesHeader(line) {
      ManagedHeadersAreHeaders(line);
    }
  }

  lemma BlankHasNoMark(line: string, mark: string)
    requires IsBlank(line) && mark != [] && !IsSpace(mark[0])
    ensures Find(line, mark) < 0
  {
    BlankIsSpace(line);
    if Find(line, mark) >= 0 {
      FoundAt(line, mark);
    }
  }

  lemma BlankTracks(line: string, delim: Delim)
    requires IsBlank(line)
    ensures Track(delim, line) == (delim, delim != NoDelim)
  {
    BlankHasNoMark(line, BASIC);
    BlankHasNoMark(line, LITERAL);
  }

  lemma BlankStays(p: Position, line: string)
    requires IsBlank(line) && p.region != Provider
    ensures Move(p, line) == (p, Kept(SectionOf(p.region)))
  {
    BlankTracks(line, p.delim);
    BlankIsNothing(line);
  }
}
