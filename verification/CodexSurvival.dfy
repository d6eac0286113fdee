/** Which lines of the user a clean-up loses, by what TOML makes of the file. */
module CodexSurvival {
  import opened Wrappers
  import opened Regex
  import opened TomlSyntax
  import opened TomlLines
  import opened CodexConfig
  import opened CodexRegions
  import opened CodexExport
  import opened CodexLaws
  import CodexManaged
  import opened CodexEffect
  import opened CodexSpellings

  const PROFILES := "profiles"
  const LEGACY_PATH := [PROVIDERS, LEGACY_PROVIDER_ID]

  /** The table that a line stands in, by the name that TOML gives it. */
  function TableOf(p: Place): Region {
    if p.header.None? then Top
    else
      match HeaderPath(p.header.value)
      case None => Other
      case Some(path) =>
        if path == PROVIDER_PATH || path == LEGACY_PATH then Provider
        else if path == MEMORIES_PATH then MemoriesTable
        else if |path| > 1 && path[0] == PROFILES then Profiles
        else Other
  }

  /** A line that an export writes anew or removes on purpose: in a provider table of its own, or a
      managed key where it is managed. */
  predicate IsOwn(p: Place, line: string) {
    var t := TableOf(Next(p, line));
    t == Provider ||
    (&& Outside(p) && !IsTable(p, line) && KeyOf(line).Some? && |KeyOf(line).value| == 1
     && CodexManaged.IsManaged(t, KeyOf(line).value[0]))
  }

  /** The line is kept, or it is the header of the memories and the lines under it are not taken for
      those of a provider. */
  predicate Survives(st: State, p: Place, line: string) {
    var (to, fate) := Step(st, line);
    fate.Kept? || (IsTable(p, line) && TableOf(Next(p, line)) == MemoriesTable && !to.inProvider)
  }

  /** All lines survive that are the user's. */
  predicate AllSurvive(st: State, p: Place, lines: seq<string>)
    decreases |lines|
  {
    lines == [] ||
    (&& (IsOwn(p, lines[0]) || Survives(st, p, lines[0]))
     && AllSurvive(Step(st, lines[0]).0, Next(p, lines[0]), lines[1..]))
  }

  // --- What the clean-up has to see. ---

  predicate Enters(st: State, line: string) {
    !Track(st.delim, line).1 && (IsProviderHeader(line) || IsLegacyHeader(line))
  }

  predicate Skips(st: State, line: string) {
    st.inProvider && !IsTableHeader(line)
  }

  /** In a provider table no line opens another table unseen, and where one is entered, TOML is in one. */
  predicate SeesTable(st: State, p: Place, line: string) {
    (if Skips(st, line) then IsTable(p, line) else Enters(st, line)) ==> TableOf(Next(p, line)) == Provider
  }

  predicate TablesSeen(st: State, p: Place, lines: seq<string>)
    decreases |lines|
  {
    lines == [] ||
    (SeesTable(st, p, lines[0]) && TablesSeen(Step(st, lines[0]).0, Next(p, lines[0]), lines[1..]))
  }

  predicate SetsAKey(p: Place, line: string) {
    Outside(p) && KeyOf(line).Some?
  }

  /** What is removed as the header of the memories or as a key in a table is that for TOML, in such a
      table. */
  predicate SeesKey(st: State, p: Place, line: string) {
    var to, t := Step(st, line).0, TableOf(Next(p, line));
    Skips(st, line) || Track(st.delim, line).1 || t == Provider ||
    (&& (IsMemoriesHeader(line) ==> IsTable(p, line) && t == MemoriesTable)
     && (to.inMemories && IsMemoryModelKey(line) ==> SetsAKey(p, line) && t == MemoriesTable)
     && (to.dropRootKeys && IsRootModelKey(line) ==> SetsAKey(p, line) && t in {Top, Other}))
  }

  predicate KeysSeen(st: State, p: Place, lines: seq<string>)
    decreases |lines|
  {
    lines == [] ||
    (SeesKey(st, p, lines[0]) && KeysSeen(Step(st, lines[0]).0, Next(p, lines[0]), lines[1..]))
  }

  // --- The expressions and TOML. ---

  predicate IsStuck(s: string) {
    s != [] && s[0] in WS && s[0] !in {' ', '\t'}
  }

  lemma {:induction false} SkipSpaces(x: string, rest: string)
    requires Matches(Spaces, x) && rest != [] && rest[0] !in WS
    ensures SkipBlanks(x + rest) == rest || IsStuck(SkipBlanks(x + rest))
  {
    if x == [] {
      assert x + rest == rest;
    } else {
      var i :| 1 <= i <= |x| && Matches(OneOf(WS), x[..i]) && Matches(Spaces, x[i..]);
      assert i == 1 && x[..i][0] == x[0];
      assert (x + rest)[1..] == x[1..] + rest;
      if x[0] in {' ', '\t'} {
        SkipSpaces(x[1..], rest);
      }
    }
  }

  lemma StuckIsNoKey(s: string)
    requires IsStuck(s) || "[" <= s
    ensures DottedKey(s) == NoKey
  {
  }

  lemma HeaderIsNoKey(line: string)
    requires IsTableHeader(line)
    ensures KeyOf(line) == None
  {
    var x, y := SpacedLiteral("[", TableHeader.b.b, line);
    SkipSpaces(x, "[" + y);
    StuckIsNoKey(SkipBlanks(line));
  }

  lemma KeyParts(name: string, line: string) returns (x: string, w: string, more: string)
    requires Sets(name, line)
    ensures line == x + (name + (w + ("=" + more))) && Matches(Spaces, x) && Matches(Spaces, w)
  {
    var i :| 0 <= i <= |line| && Matches(Key(name), line[..i]);
    x, w := KeyMatch(name, line[..i]);
    more := line[i..];
    assert line == line[..i] + more;
    Regrouped(x, name, w, "=", more);
  }

  lemma KeyMatch(name: string, s: string) returns (x: string, w: string)
    requires Matches(Key(name), s)
    ensures s == x + (name + (w + "=")) && Matches(Spaces, x) && Matches(Spaces, w)
  {
    var y, eq;
    x, y := SpacedLiteral(name, Cat(Spaces, Lit("=")), s);
    w, eq := Parts(Spaces, Lit("="), y);
  }

  lemma Regrouped(a: string, b: string, c: string, d: string, e: string)
    ensures (a + (b + (c + d))) + e == a + (b + (c + (d + e)))
  {
  }

  /** A line that matches the key expression and that TOML can read as a key sets that key. */
  lemma SetsWhatItSays(name: string, line: string)
    requires Sets(name, line) && IsKeyName(name)
    ensures KeyOf(line).Some? ==> KeyOf(line) == Some([name])
    ensures !("[" <= SkipBlanks(line))
  {
    var x, w, more := KeyParts(name, line);
    var rest := w + ("=" + more);
    assert name[0] in name && (name + rest)[0] == name[0];
    SkipSpaces(x, name + rest);
    if IsStuck(SkipBlanks(line)) {
      StuckIsNoKey(SkipBlanks(line));
    } else {
      KeyThenSpaces(name, w, more);
    }
  }

  lemma KeyThenSpaces(name: string, w: string, more: string)
    requires IsKeyName(name) && Matches(Spaces, w)
    ensures var k := DottedKey(name + (w + ("=" + more)));
      k.Dotted? && k.path == [name]
  {
    var rest := w + ("=" + more);
    SpacesFirst(w);
    assert !IsBare(rest[0]);
    NameThen(name, rest);
    SkipSpaces(w, "=" + more);
    OneName(name + rest, name, rest, SkipBlanks(rest));
  }

  lemma NameThen(name: string, rest: string)
    requires IsKeyName(name) && rest != [] && !IsBare(rest[0])
    ensures SimpleKey(name + rest) == TomlLines.Part(name, rest)
  {
    BareNameOf(name, rest);
    assert name[0] in name && (name + rest)[0] == name[0] && (name + rest)[|name|..] == rest;
  }

  lemma OneName(s: string, name: string, rest: string, end: string)
    requires SimpleKey(s) == TomlLines.Part(name, rest) && end != [] && end[0] != '.' && SkipBlanks(rest) == end
    ensures DottedKey(s) == Dotted([name], end)
  {
  }

  lemma SpacesFirst(w: string)
    requires Matches(Spaces, w)
    ensures w == [] || w[0] in WS
  {
    if w != [] {
      var i :| 1 <= i <= |w| && Matches(OneOf(WS), w[..i]) && Matches(Spaces, w[i..]);
      assert w[..i][0] == w[0];
    }
  }

  // --- When nothing is lost. ---

  lemma RootKeyIsOwn(p: Place, line: string)
    requires IsRootModelKey(line)
    ensures !IsTable(p, line)
    ensures IsOwn(p, line) <==>
      TableOf(Next(p, line)) == Provider || (SetsAKey(p, line) && TableOf(Next(p, line)) in {Top, Other})
  {
    var name :| name in ROOT_KEYS && Sets(name, line);
    OwnNamesAreKeyNames(name);
    SetsWhatItSays(name, line);
    RootIsNoMemory(name);
  }

  lemma MemoryKeyIsOwn(p: Place, line: string)
    requires IsMemoryModelKey(line)
    ensures !IsTable(p, line)
    ensures IsOwn(p, line) <==>
      TableOf(Next(p, line)) == Provider || (SetsAKey(p, line) && TableOf(Next(p, line)) == MemoriesTable)
  {
    var name :| name in MEMORY_KEYS && Sets(name, line);
    OwnNamesAreKeyNames(name);
    SetsWhatItSays(name, line);
    RootIsNoMemory(name);
  }

  lemma RootIsNoMemory(name: string)
    ensures name in ROOT_KEYS ==> name !in MEMORY_KEYS
  {
    assert MODEL[0] == 'm' && MODEL_PROVIDER[0] == 'm' && MODEL_CONTEXT_WINDOW[0] == 'm';
    assert EXTRACT_MODEL[0] == 'e' && CONSOLIDATION_MODEL[0] == 'c';
  }

  lemma HeaderIsOwn(p: Place, line: string)
    requires IsTableHeader(line)
    ensures IsOwn(p, line) <==> TableOf(Next(p, line)) == Provider
  {
    HeaderIsNoKey(line);
  }

  /** One line: it is lost exactly if it is not seen. */
  lemma StepSurvivesIff(st: State, p: Place, line: string)
    requires st.inProvider ==> TableOf(p) == Provider
    ensures IsOwn(p, line) || Survives(st, p, line) <==> SeesTable(st, p, line) && SeesKey(st, p, line)
    ensures SeesTable(st, p, line) && Step(st, line).0.inProvider ==> TableOf(Next(p, line)) == Provider
  {
    HeaderFacts(line);
    if IsTableHeader(line) {
      HeaderIsOwn(p, line);
    }
    if IsRootModelKey(line) {
      RootKeyIsOwn(p, line);
    }
    if IsMemoryModelKey(line) {
      MemoryKeyIsOwn(p, line);
    }
  }

  lemma {:induction false} RunSurvivesIff(st: State, p: Place, lines: seq<string>)
    requires st.inProvider ==> TableOf(p) == Provider
    ensures AllSurvive(st, p, lines) <==> TablesSeen(st, p, lines) && KeysSeen(st, p, lines)
    decreases |lines|
  {
    if lines != [] {
      StepSurvivesIff(st, p, lines[0]);
      if SeesTable(st, p, lines[0]) {
        RunSurvivesIff(Step(st, lines[0]).0, Next(p, lines[0]), lines[1..]);
      }
    }
  }

  /** On every file: all lines of the user survive the clean-up exactly if no table that TOML opens behind
      a managed provider header goes unseen, and what is removed as a key or header is one. */
  lemma UserLinesSurviveIff(lines: seq<string>)
    ensures AllSurvive(Begin, Root, lines) <==> TablesSeen(Begin, Root, lines) && KeysSeen(Begin, Root, lines)
  {
    RunSurvivesIff(Begin, Root, lines);
  }

  // --- What is lost behind a provider header. ---

  predicate NoHeaders(lines: seq<string>) {
    forall i :: 0 <= i < |lines| ==> !IsTableHeader(lines[i])
  }

  lemma {:induction false} NothingIsKept(p: Position, lines: seq<string>, section: Section)
    requires p.region == Provider && NoHeaders(lines)
    ensures Tidy(p, lines) && KeptIn(p, lines, section) == [] && End(p, lines).region == Provider
    decreases |lines|
  {
    if lines != [] {
      assert !IsTableHeader(lines[0]);
      forall i | 0 <= i < |lines| - 1 ensures !IsTableHeader(lines[1..][i]) {
        assert !IsTableHeader(lines[i + 1]);
      }
      NothingIsKept(Move(p, lines[0]).0, lines[1..], section);
    }
  }

  lemma KeptWithMore(file: seq<string>, more: seq<string>, section: Section)
    requires Tidy(Start, file) && End(Start, file).region == Provider && NoHeaders(more)
    ensures KeptLines(Begin, file + more, section) == KeptLines(Begin, file, section)
  {
    NothingIsKept(End(Start, file), more, section);
    Append(Start, file, more, section);
    CleanFollows(Begin, Start, file, section);
    CleanFollows(Begin, Start, file + more, section);
  }

  /** An exported file ends with the provider table: the next export deletes all that has been written at
      its end without a header that the expression recognises. */
  lemma AppendedLinesAreDeleted(c: Cleaned, v: Values, more: seq<string>)
    requires Settled(c) && FitsIn(c, v) && NoHeaders(more)
    ensures Clean(Rendered(c, v) + more) == c
  {
    RenderedGives(c, v);
    CleanOfRendered(c, v);
    forall section { KeptWithMore(Rendered(c, v), more, section); }
  }

  lemma MissedTableIsNotOwn(word: string, s: string)
    requires IsBareName(word) && IsPlain(s) && word != PROVIDERS
    ensures !IsOwn(AtProvider, TableLine(word, s))
  {
    var line := TableLine(word, s);
    TableLineOpens(word, s);
    BalancedStays(AtProvider, line);
    assert HeaderPath(line) == Some([word, s]);
  }

  lemma ProviderHeaderEnters()
    ensures Step(Begin, PROVIDER_LINE).0.inProvider
    ensures Move(Start, PROVIDER_LINE) == (InProvider, Dropped) && Next(Root, PROVIDER_LINE) == AtProvider
  {
    ProviderLine();
    ProviderLineIsSingle();
    ProviderLineOpens();
    BalancedStays(Root, PROVIDER_LINE);
  }

  lemma SecondIsLost(a: string, b: string, st: State, p: Place)
    requires Step(Begin, a).0 == st && Next(Root, a) == p && !IsOwn(p, b) && !Survives(st, p, b)
    ensures !AllSurvive(Begin, Root, [a, b])
  {
    assert [a, b][1..] == [b];
    assert !AllSurvive(st, p, [b]);
  }

  lemma OneMove(p: Position, line: string, to: Position, section: Section)
    requires Move(p, line) == (to, Dropped) && p.region != Provider
    ensures Tidy(p, [line]) && End(p, [line]) == to && KeptIn(p, [line], section) == []
  {
    assert [line][1..] == [];
  }

  lemma BehindHeader(header: string, line: string)
    requires Move(Start, header) == (InProvider, Dropped) && !IsTableHeader(line)
    ensures var lines := [header, line];
      Tidy(Start, lines) && Closed(End(Start, lines)) && Clean(lines) == Cleaned([], [], [])
  {
    assert [header] + [line] == [header, line];
    forall section ensures KeptLines(Begin, [header, line], section) == [] {
      OneMove(Start, header, InProvider, section);
      CleanFollows(Begin, Start, [header], section);
      KeptWithMore([header], [line], section);
    }
    NothingIsKept(InProvider, [line], Head);
    Append(Start, [header], [line], Head);
    OneMove(Start, header, InProvider, Head);
  }

  /** Such as a table of the user's that the expression misses. */
  lemma MissedTableIsLost(word: string, s: string)
    requires IsBareName(word) && IsPlain(s) && !IsTableHeader(TableLine(word, s)) && word != PROVIDERS
    ensures var lines := [PROVIDER_LINE, TableLine(word, s)];
      && Tidy(Start, lines) && Closed(End(Start, lines)) && Clean(lines) == Cleaned([], [], [])
      && !AllSurvive(Begin, Root, lines)
  {
    MissedTableIsNotOwn(word, s);
    LostBehind(TableLine(word, s));
  }

  /** As with [projects."/home/u"]. */
  lemma ProjectTableIsLost()
    ensures var lines := [PROVIDER_LINE, TableLine(PROJECTS, HOME)];
      Clean(lines) == Cleaned([], [], []) && !AllSurvive(Begin, Root, lines)
  {
    ProjectFacts();
    assert |PROJECTS| == 8 && |PROVIDERS| == 15;
    ForeignIsMissed(PROJECTS, HOME);
    MissedTableIsLost(PROJECTS, HOME);
  }

  lemma LostBehind(line: string)
    requires !IsTableHeader(line) && !IsOwn(AtProvider, line)
    ensures var lines := [PROVIDER_LINE, line];
      && Tidy(Start, lines) && Closed(End(Start, lines)) && Clean(lines) == Cleaned([], [], [])
      && !AllSurvive(Begin, Root, lines)
  {
    ProviderHeaderEnters();
    BehindHeader(PROVIDER_LINE, line);
    IsSkipped(Step(Begin, PROVIDER_LINE).0, line);
    SecondIsLost(PROVIDER_LINE, line, Step(Begin, PROVIDER_LINE).0, AtProvider);
  }

  lemma IsSkipped(st: State, line: string)
    requires st.inProvider && !IsTableHeader(line)
    ensures forall p :: !Survives(st, p, line)
  {
  }

  // --- A key of a profile. ---

  lemma KeyIsRemoved(table: string, key: string, section: Section)
    requires IsKept(table) && Single(key) && !IsTableHeader(key) && IsRootModelKey(key)
    ensures KeptLines(Begin, [table, key], section) == if section == Head then [table] else []
    ensures Step(Begin, table).0 == Begin && Step(Begin, key) == (Begin, Dropped)
  {
    HeaderFacts(table);
    HeaderFacts(key);
    assert [table, key][1..] == [key] && [key][1..] == [];
    assert Step(Begin, table) == (Begin, Kept(Head));
    assert KeptLines(Begin, [key], section) == [];
  }

  lemma ProfileKeyIsNotOwn(table: string, path: Path, name: string, value: string)
    requires HeaderPath(table) == Some(path) && |path| == 2 && path[0] == PROFILES && name in ROOT_KEYS
    requires IsBalanced(Setting(name, value))
    ensures var p := Place(Some(table), NoDelim, 0);
      TableOf(p) == Profiles && !IsOwn(p, Setting(name, value))
  {
    var p := Place(Some(table), NoDelim, 0);
    OwnNamesAreKeyNames(name);
    SettingLine(p, path, name, value, HeaderOf(path));
    RootIsNoMemory(name);
    ProfilesApart();
  }

  lemma ProfilesApart()
    ensures PROFILES != PROVIDERS && IsBareName(PROFILES)
  {
    assert |PROFILES| == 8 && |PROVIDERS| == 15;
  }

  lemma SettingIsRootKey(name: string, value: string)
    requires name in ROOT_KEYS
    ensures IsRootModelKey(Setting(name, value))
  {
    OwnNamesAreKeyNames(name);
    SettingSets(name, name, value);
  }

  /** A profile whose header the expression misses loses its model. */
  lemma ProfileKeyIsLost(s: string, name: string, value: string)
    requires IsPlain(s) && !IsTableHeader(TableLine(PROFILES, s)) && name in ROOT_KEYS && IsQuiet(value)
    ensures var table, key := TableLine(PROFILES, s), Setting(name, value);
      && Clean([table, key]) == Cleaned([table], [], [])
      && TableOf(Next(Root, table)) == Profiles && !AllSurvive(Begin, Root, [table, key])
  {
    var table, key := TableLine(PROFILES, s), Setting(name, value);
    var p := Place(Some(table), NoDelim, 0);
    OwnNamesAreKeyNames(name);
    ProfilesApart();
    MissedIsKept(PROFILES, s);
    TableLineOpens(PROFILES, s);
    BalancedStays(Root, table);
    SettingAtTheRoot(name, value);
    ProfileKeyIsNotOwn(table, [PROFILES, s], name, value);
    SettingIsRootKey(name, value);
    SettingIsNoHeader(name, value);
    LostUnder(table, key, p);
  }

  lemma LostUnder(table: string, key: string, p: Place)
    requires IsKept(table) && Single(key) && !IsTableHeader(key) && IsRootModelKey(key)
    requires Next(Root, table) == p && TableOf(p) == Profiles && !IsOwn(p, key)
    ensures Clean([table, key]) == Cleaned([table], [], []) && !AllSurvive(Begin, Root, [table, key])
  {
    OnlyTheTable(table, key);
    KeyIsRemoved(table, key, Head);
    RootKeyIsOwn(p, key);
    SecondIsLost(table, key, Begin, p);
  }

  lemma OnlyTheTable(table: string, key: string)
    requires IsKept(table) && Single(key) && !IsTableHeader(key) && IsRootModelKey(key)
    ensures Clean([table, key]) == Cleaned([table], [], [])
  {
    forall section { KeyIsRemoved(table, key, section); }
  }
}
