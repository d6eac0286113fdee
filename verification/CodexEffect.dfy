/** Whether what an export writes is in effect, by what TOML makes of the file: the root keys stand in
    front of any table, the others in theirs, and nothing else in the file defines the same names. */
module CodexEffect {
  import opened Wrappers
  import opened Text
  import opened TomlSyntax
  import opened TomlStrings
  import opened TomlLines
  import opened CodexExport
  import opened CodexLaws

  const MEMORIES := "memories"
  const PROVIDERS := "model_providers"

  const MEMORIES_PATH := [MEMORIES]
  const PROVIDER_PATH := [PROVIDERS, PROVIDER_ID]

  // --- The lines that are written. ---

  lemma {:induction false} BareNameOf(name: string, rest: string)
    requires (forall c :: c in name ==> IsBare(c)) && (rest == [] || !IsBare(rest[0]))
    ensures BareName(name + rest) == name
  {
    if name == [] {
      assert name + rest == rest;
    } else {
      assert name[0] in name && forall c :: c in name[1..] ==> c in name;
      assert (name + rest)[1..] == name[1..] + rest;
      BareNameOf(name[1..], rest);
    }
  }

  predicate IsBareName(name: string) {
    name != [] && forall c :: c in name ==> IsBare(c)
  }

  lemma BareKey(name: string, rest: string)
    requires IsBareName(name) && rest != [] && rest[0] !in {' ', '\t'} && !IsBare(rest[0])
    ensures SkipBlanks(name + rest) == name + rest && SimpleKey(name + rest) == Part(name, rest)
    ensures rest[0] != '.' ==> DottedKey(name + rest) == Dotted([name], rest)
    ensures rest[0] == '.' && DottedKey(SkipBlanks(rest[1..])).Dotted? ==>
      var more := DottedKey(SkipBlanks(rest[1..]));
      DottedKey(name + rest) == Dotted([name] + more.path, more.rest)
  {
    BareNameOf(name, rest);
    assert name[0] in name && (name + rest)[0] == name[0];
    assert (name + rest)[|name|..] == rest;
  }

  lemma SettingStarts(name: string, value: string)
    requires IsKeyName(name)
    ensures var line := Setting(name, value);
      SkipBlanks(line) == line && !("[" <= line) && DottedKey(line) == Dotted([name], "= " + value)
  {
    var line, rest := Setting(name, value), "= " + value;
    assert line == name + (" " + rest);
    BareNameOf(name, " " + rest);
    assert name[0] in name && line[0] == name[0];
    assert line[|name|..] == " " + rest;
    assert SimpleKey(line) == Part(name, " " + rest);
    assert (" " + rest)[1..] == rest && SkipBlanks(rest) == rest;
  }

  lemma KeyOfSetting(name: string, value: string)
    requires IsKeyName(name)
    ensures KeyOf(Setting(name, value)) == Some([name])
    ensures !("[" <= SkipBlanks(Setting(name, value)))
  {
    SettingStarts(name, value);
  }

  // --- What they leave open. ---

  /** No character that starts a string, a comment or an array, or ends one. */
  predicate IsQuiet(s: string) {
    forall c :: c in s ==> c !in {'"', '\'', '#', '[', ']'}
  }

  lemma {:induction false} DepthOver(a: string, s: string, depth: nat)
    requires IsQuiet(a)
    ensures Depth(Bare, depth, a + s) == Depth(Bare, depth, s)
    decreases |a|
  {
    if a == [] {
      assert a + s == s;
    } else {
      assert a[0] in a && (a + s)[0] == a[0] && (a + s)[1..] == a[1..] + s;
      assert Token(Bare, a + s) == (Bare, 1);
      assert forall c :: c in a[1..] ==> c in a;
      DepthOver(a[1..], s, depth);
    }
  }

  lemma DepthOfQuiet(s: string, depth: nat)
    requires IsQuiet(s)
    ensures Depth(Bare, depth, s) == depth
  {
    DepthOver(s, "", depth);
    assert s + "" == s;
  }

  lemma {:induction false} DepthInString(s: string, rest: string, depth: nat)
    requires '\\' !in s
    ensures Depth(InString('"'), depth, Escape(s) + ("\"" + rest)) == Depth(Bare, depth, rest)
    decreases |s|
  {
    var m, end := InString('"'), "\"" + rest;
    var all := Escape(s) + end;
    if s == [] {
      assert all == end && end[1..] == rest && Token(m, end) == (Bare, 1);
    } else {
      assert s[0] in s && forall c :: c in s[1..] ==> c in s;
      var n := if s[0] == '"' then 2 else 1;
      assert all[n..] == Escape(s[1..]) + end;
      assert Token(m, all) == (m, n);
      DepthInString(s[1..], rest, depth);
    }
  }

  lemma QuoteStarts(s: string, rest: string)
    requires '\\' !in s && (rest == [] || rest[0] != '"')
    ensures Token(Bare, Quote(s) + rest) == (InString('"'), 1)
    ensures (Quote(s) + rest)[1..] == Escape(s) + ("\"" + rest)
  {
    var all := Quote(s) + rest;
    assert all[1..] == Escape(s) + ("\"" + rest);
    assert Triple('"')[1] == Triple('"')[2] == '"';
    if s != [] {
      assert all[1] == Escape(s)[0] && (s[0] == '"' ==> all[1] == '\\');
    }
  }

  /** A value without a backslash, quoted, leaves nothing open. */
  lemma DepthOfQuoted(before: string, s: string, rest: string, depth: nat)
    requires IsQuiet(before) && '\\' !in s && (rest == [] || rest[0] != '"')
    ensures Depth(Bare, depth, before + (Quote(s) + rest)) == Depth(Bare, depth, rest)
  {
    DepthOver(before, Quote(s) + rest, depth);
    QuoteStarts(s, rest);
    DepthInString(s, rest, depth);
  }

  /** The line leaves nothing open: no string, as it has no mark, and no array. */
  predicate IsBalanced(line: string) {
    Single(line) && Depth(Bare, 0, line) == 0
  }

  /** What is written leaves nothing open. */
  predicate Balanced(lines: seq<string>) {
    forall i :: 0 <= i < |lines| ==> IsBalanced(lines[i])
  }

  lemma BalancedStays(p: Place, line: string)
    requires Outside(p) && IsBalanced(line)
    ensures Leads(p, line) == p
  {
    UnmarkedAgrees(NoDelim, line);
  }

  lemma QuotedIsBalanced(name: string, value: string)
    requires IsKeyName(name) && Fit(value) && '\\' !in value
    ensures IsBalanced(Setting(name, Quote(value)))
  {
    QuotedSettingIsSingle(name, value);
    var before := name + " =" + " ";
    forall c | c in before ensures c !in {'"', '\'', '#', '[', ']'} {
      assert c in name || c == ' ' || c == '=';
    }
    assert Setting(name, Quote(value)) == before + (Quote(value) + "");
    DepthOfQuoted(before, value, "", 0);
  }

  lemma ContextIsBalanced(name: string, n: nat)
    requires IsKeyName(name)
    ensures IsBalanced(Setting(name, Itoa(n)))
  {
    ContextIsSingle(name, n);
    DigitsOnly(n);
    var line := Setting(name, Itoa(n));
    forall c | c in line ensures c !in {'"', '\'', '#', '[', ']'} {
      assert c in name || c == ' ' || c == '=' || c in Itoa(n);
    }
    DepthOfQuiet(line, 0);
  }

  // --- Headers. ---

  /** Nothing that a basic string or a comment would take for anything else. */
  predicate IsPlain(s: string) {
    forall c :: c in s ==> c !in {'"', '\'', '\\', '#'} && !IsControl(c)
  }

  lemma {:induction false} BasicStringOf(s: string, rest: string)
    requires IsPlain(s)
    ensures BasicString(s + ("\"" + rest)) == Part(s, rest)
  {
    var all := s + ("\"" + rest);
    if s == [] {
      assert all == "\"" + rest && all[1..] == rest;
    } else {
      assert s[0] in s && all[0] == s[0] && all[1..] == s[1..] + ("\"" + rest);
      assert forall c :: c in s[1..] ==> c in s;
      BasicStringOf(s[1..], rest);
      assert [s[0]] + s[1..] == s;
    }
  }

  lemma HeaderOfKey(s: string, path: Path)
    requires s != [] && s[0] !in {'[', ' ', '\t'} && DottedKey(s) == Dotted(path, "]")
    ensures HeaderPath("[" + s) == Some(path) && "[" <= SkipBlanks("[" + s)
  {
    var line := "[" + s;
    assert SkipBlanks(line) == line && line[1] == s[0] && line[1..] == s;
    assert "]"[1..] == "" && SkipBlanks("") == "";
  }

  /** A header of two parts, the second quoted. */
  function TableLine(word: string, s: string): string {
    "[" + (word + ("." + (Quote(s) + "]")))
  }

  lemma KeyOfTable(word: string, s: string)
    requires IsBareName(word) && IsPlain(s)
    ensures DottedKey(word + ("." + (Quote(s) + "]"))) == Dotted([word, s], "]")
  {
    NothingToEscape(s);
    var q := Quote(s) + "]";
    assert q == "\"" + (s + ("\"" + "]")) && q[1..] == s + ("\"" + "]");
    BasicStringOf(s, "]");
    assert SimpleKey(q) == Part(s, "]") && SkipBlanks(q) == q && SkipBlanks("]") == "]";
    assert DottedKey(q) == Dotted([s], "]");
    assert ("." + q)[1..] == q;
    BareKey(word, "." + q);
    assert [word] + [s] == [word, s];
  }

  lemma TableLineOpens(word: string, s: string)
    requires IsBareName(word) && IsPlain(s)
    ensures HeaderPath(TableLine(word, s)) == Some([word, s]) && "[" <= SkipBlanks(TableLine(word, s))
    ensures IsBalanced(TableLine(word, s))
  {
    var rest := word + ("." + (Quote(s) + "]"));
    assert rest[0] == word[0] && word[0] in word;
    KeyOfTable(word, s);
    HeaderOfKey(rest, [word, s]);
    TableLineIsSingle(word, s);
    TableLineIsClosed(word, s);
  }

  lemma TableLineIsSingle(word: string, s: string)
    requires IsBareName(word) && IsPlain(s)
    ensures Single(TableLine(word, s))
  {
    var before := "[" + word + ".";
    assert TableLine(word, s) == before + Quote(s) + "]";
    assert forall c :: c in before ==> c in word || c == '[' || c == '.';
    BracketIsSingle(before, s);
  }

  lemma TableLineIsClosed(word: string, s: string)
    requires IsBareName(word) && IsPlain(s)
    ensures Depth(Bare, 0, TableLine(word, s)) == 0
  {
    var before := word + ".";
    var rest := before + (Quote(s) + "]");
    assert TableLine(word, s) == "[" + rest && ("[" + rest)[1..] == rest;
    assert forall c :: c in before ==> c in word || c == '.';
    assert Token(Bare, "[" + rest) == (Bare, 1);
    DepthOfQuoted(before, s, "]", 1);
    ClosingBracket();
  }

  lemma ClosingBracket()
    ensures Depth(Bare, 1, "]") == 0
  {
    assert Token(Bare, "]") == (Bare, 1) && "]"[1..] == "";
  }

  lemma WordLineOpens(word: string)
    requires IsBareName(word)
    ensures HeaderPath("[" + (word + "]")) == Some([word]) && "[" <= SkipBlanks("[" + (word + "]"))
    ensures IsBalanced("[" + (word + "]"))
  {
    var rest := word + "]";
    var line := "[" + rest;
    assert rest[0] == word[0] && word[0] in word && line[1..] == rest;
    BareKey(word, "]");
    HeaderOfKey(rest, [word]);
    forall c | c in line ensures c != '"' && c != '\'' {
      assert c in word || c == '[' || c == ']';
    }
    PlainIsSingle(line);
    assert Token(Bare, line) == (Bare, 1);
    DepthOver(word, "]", 1);
    ClosingBracket();
  }

  lemma MemoriesLineOpens()
    ensures HeaderPath(MEMORIES_LINE) == Some(MEMORIES_PATH) && "[" <= SkipBlanks(MEMORIES_LINE)
    ensures IsBalanced(MEMORIES_LINE)
  {
    assert "[" + (MEMORIES + "]") == MEMORIES_LINE;
    WordLineOpens(MEMORIES);
  }

  lemma ProviderNamesArePlain()
    ensures IsBareName(PROVIDERS) && IsPlain(PROVIDER_ID)
  {
  }

  lemma ProviderLineOpens()
    ensures HeaderPath(PROVIDER_LINE) == Some(PROVIDER_PATH) && "[" <= SkipBlanks(PROVIDER_LINE)
    ensures IsBalanced(PROVIDER_LINE)
  {
    ProviderNamesArePlain();
    ProviderLineText();
    TableLineOpens(PROVIDERS, PROVIDER_ID);
  }

  // --- Counting them. ---

  const AtMemories := Place(Some(MEMORIES_LINE), NoDelim, 0)
  const AtProvider := Place(Some(PROVIDER_LINE), NoDelim, 0)

  lemma CountOne(p: Place, line: string, mark: TomlLines.Mark)
    ensures Count(p, [line], mark) == One(Hits(p, line, mark)) && Last(p, [line]) == Next(p, line)
  {
    assert [line][1..] == [];
  }

  lemma BlankLine(p: Place, mark: TomlLines.Mark)
    ensures Next(p, "") == p && Count(p, [""], mark) == 0 && Last(p, [""]) == p
  {
    NoMark("", BASIC);
    NoMark("", LITERAL);
    UnmarkedAgrees(p.delim, "");
    CountOne(p, "", mark);
  }

  /** A header of ours, where an expression can start. */
  lemma OpeningLine(p: Place, line: string, path: Path, mark: TomlLines.Mark)
    requires Outside(p) && HeaderPath(line) == Some(path) && "[" <= SkipBlanks(line) && IsBalanced(line)
    ensures Last(p, ["", line]) == Place(Some(line), NoDelim, 0)
    ensures Count(p, ["", line], mark)
         == One(match mark case Meets(name) => name <= path case HeaderOf(name) => name == path)
  {
    BalancedStays(p, line);
    BlankLine(p, mark);
    CountOne(p, line, mark);
    assert ["", line] == [""] + [line];
    CountAppend(p, [""], [line], mark);
  }

  predicate Related(a: Path, b: Path) {
    a <= b || b <= a
  }

  /** A setting of ours, in a table that can be read. */
  lemma SettingLine(p: Place, table: Path, name: string, value: string, mark: TomlLines.Mark)
    requires Outside(p) && TableAt(p) == Some(table) && IsKeyName(name) && IsBalanced(Setting(name, value))
    ensures var line := Setting(name, value);
      Next(p, line) == p && (Hits(p, line, mark) <==> mark.Meets? && Related(mark.path, table + [name]))
  {
    KeyOfSetting(name, value);
    BalancedStays(p, Setting(name, value));
  }

  /** The names and the header that an export manages. */
  predicate ManagedName(mark: TomlLines.Mark) {
    match mark
    case Meets(path) =>
      || (|path| == 1 && path[0] in ROOT_KEYS)
      || (|path| == 2 && path[0] == MEMORIES && path[1] in MEMORY_KEYS)
      || path == PROVIDER_PATH
    case HeaderOf(path) => path == MEMORIES_PATH
  }

  /** How many lines of its own an export has of them: for the provider the header and four settings. */
  function Own(c: Cleaned, mark: TomlLines.Mark): nat {
    match mark
    case Meets(path) =>
      if |path| == 1 then 1 else if path == PROVIDER_PATH then 5 else One(c.memories != [])
    case HeaderOf(path) => One(c.memories != [])
  }

  lemma NamesApart()
    ensures MEMORIES !in ROOT_KEYS && PROVIDERS !in ROOT_KEYS && MEMORIES != PROVIDERS
    ensures MODEL != MODEL_PROVIDER && MODEL != MODEL_CONTEXT_WINDOW && MODEL_PROVIDER != MODEL_CONTEXT_WINDOW
    ensures EXTRACT_MODEL != CONSOLIDATION_MODEL
  {
    assert |MEMORIES| == 8 && |PROVIDERS| == 15;
    assert |MODEL| == 5 && |MODEL_PROVIDER| == 14 && |MODEL_CONTEXT_WINDOW| == 20;
  }

  predicate Still(p: Place, line: string) {
    Next(p, line) == p
  }

  lemma CountTwo(p: Place, a: string, b: string, mark: TomlLines.Mark)
    requires Still(p, a) && Still(p, b)
    ensures Last(p, [a, b]) == p && Count(p, [a, b], mark) == One(Hits(p, a, mark)) + One(Hits(p, b, mark))
  {
    assert [a, b] == [a] + [b];
    CountOne(p, a, mark);
    CountOne(p, b, mark);
    CountAppend(p, [a], [b], mark);
  }

  lemma CountThree(p: Place, a: string, b: string, c: string, mark: TomlLines.Mark)
    requires Still(p, a) && Still(p, b) && Still(p, c)
    ensures Last(p, [a, b, c]) == p
    ensures Count(p, [a, b, c], mark) == One(Hits(p, a, mark)) + One(Hits(p, b, mark)) + One(Hits(p, c, mark))
  {
    assert [a, b, c] == [a] + [b, c];
    CountOne(p, a, mark);
    CountTwo(p, b, c, mark);
    CountAppend(p, [a], [b, c], mark);
  }

  lemma CountFour(p: Place, a: string, b: string, c: string, d: string, mark: TomlLines.Mark)
    requires Still(p, a) && Still(p, b) && Still(p, c) && Still(p, d)
    ensures Last(p, [a, b, c, d]) == p
    ensures Count(p, [a, b, c, d], mark)
         == One(Hits(p, a, mark)) + One(Hits(p, b, mark)) + One(Hits(p, c, mark)) + One(Hits(p, d, mark))
  {
    assert [a, b, c, d] == [a, b] + [c, d];
    CountTwo(p, a, b, mark);
    CountTwo(p, c, d, mark);
    CountAppend(p, [a, b], [c, d], mark);
  }

  /** All that an export writes is balanced. */
  predicate WritesBalanced(v: Values) {
    Balanced(RootBlock(v)) && Balanced(MemoryBlock(v)) && Balanced(ProviderSettings(v))
  }

  /** The value has no backslash, which is not escaped, and not three single quotes in a row. */
  predicate IsPlainValue(value: string) {
    Fit(value) && '\\' !in value
  }

  predicate ArePlain(v: Values) {
    && IsPlainValue(v.model) && IsPlainValue(v.memoryModel) && IsPlainValue(v.host + PROXY_PREFIX)
    && IsPlainValue(v.apiKey)
  }

  lemma ProviderIdIsPlain()
    ensures IsPlainValue(PROVIDER_ID)
  {
    ProviderIdFits();
  }

  lemma ProviderNameIsPlain()
    ensures IsPlainValue(PROVIDER_NAME)
  {
    ProviderNameFits();
  }

  lemma WireApiIsPlain()
    ensures IsPlainValue(WIRE_API)
  {
    WireApiFits();
  }

  lemma ThreeBalanced(a: string, b: string, c: string)
    requires IsBalanced(a) && IsBalanced(b) && IsBalanced(c)
    ensures Balanced([a, b, c]) && Balanced([a, b])
  {
  }

  lemma FourBalanced(a: string, b: string, c: string, d: string)
    requires IsBalanced(a) && IsBalanced(b) && IsBalanced(c) && IsBalanced(d)
    ensures Balanced([a, b, c, d])
  {
  }

  lemma RootBlockIsBalanced(v: Values)
    requires ArePlain(v)
    ensures Balanced(RootBlock(v))
  {
    ProviderIdIsPlain();
    RootNames();
    QuotedIsBalanced(MODEL, v.model);
    QuotedIsBalanced(MODEL_PROVIDER, PROVIDER_ID);
    ContextIsBalanced(MODEL_CONTEXT_WINDOW, v.context);
    var s := RootBlock(v);
    ThreeBalanced(s[0], s[1], s[2]);
  }

  lemma ProviderSettingsAreBalanced(v: Values)
    requires ArePlain(v)
    ensures Balanced(ProviderSettings(v))
  {
    ProviderNameIsPlain();
    WireApiIsPlain();
    ProviderNames();
    QuotedIsBalanced(NAME_KEY, PROVIDER_NAME);
    QuotedIsBalanced(BASE_URL, v.host + PROXY_PREFIX);
    QuotedIsBalanced(WIRE_API_KEY, WIRE_API);
    QuotedIsBalanced(BEARER_TOKEN, v.apiKey);
    var s := ProviderSettings(v);
    FourBalanced(s[0], s[1], s[2], s[3]);
  }

  /** Such values leave nothing open. */
  lemma PlainValuesAreBalanced(v: Values)
    requires ArePlain(v)
    ensures WritesBalanced(v)
  {
    RootBlockIsBalanced(v);
    ProviderSettingsAreBalanced(v);
    MemoryNames();
    QuotedIsBalanced(EXTRACT_MODEL, v.memoryModel);
    QuotedIsBalanced(CONSOLIDATION_MODEL, v.memoryModel);
    var s := MemoryBlock(v);
    ThreeBalanced(s[0], s[1], s[1]);
  }

  lemma RelatedToOne(path: Path, name: string)
    requires path != []
    ensures Related(path, [name]) <==> path[0] == name
  {
    assert path[..1] == [path[0]];
  }

  lemma RootKeyHit(name: string, value: string, mark: TomlLines.Mark)
    requires name in ROOT_KEYS && IsBalanced(Setting(name, value)) && ManagedName(mark)
    ensures Still(Root, Setting(name, value))
    ensures Hits(Root, Setting(name, value), mark) <==> mark.Meets? && mark.path[0] == name
  {
    OwnNamesAreKeyNames(name);
    SettingLine(Root, [], name, value, mark);
    assert [] + [name] == [name];
    if mark.Meets? {
      RelatedToOne(mark.path, name);
    }
  }

  lemma RootBlockOwn(v: Values, mark: TomlLines.Mark)
    requires Balanced(RootBlock(v)) && ManagedName(mark)
    ensures Last(Root, RootBlock(v)) == Root
    ensures Count(Root, RootBlock(v), mark) == One(mark.Meets? && mark.path[0] in ROOT_KEYS)
  {
    var s := RootBlock(v);
    assert IsBalanced(s[0]) && IsBalanced(s[1]) && IsBalanced(s[2]);
    RootKeyHit(MODEL, Quote(v.model), mark);
    RootKeyHit(MODEL_PROVIDER, Quote(PROVIDER_ID), mark);
    RootKeyHit(MODEL_CONTEXT_WINDOW, Itoa(v.context), mark);
    CountThree(Root, s[0], s[1], s[2], mark);
    NamesApart();
  }

  lemma RelatedToTwo(path: Path, a: string, b: string)
    requires path != []
    ensures Related(path, [a, b]) <==> path[0] == a && (|path| > 1 ==> path[1] == b)
  {
    if |path| > 1 {
      assert path[..2] == [path[0], path[1]];
    }
  }

  lemma ManagedMemory(path: Path)
    requires ManagedName(Meets(path)) && path[0] == MEMORIES
    ensures path == [MEMORIES, EXTRACT_MODEL] || path == [MEMORIES, CONSOLIDATION_MODEL]
  {
    NamesApart();
  }

  lemma RelatedMemory(path: Path, name: string)
    requires ManagedName(Meets(path)) && name in MEMORY_KEYS
    ensures Related(path, [MEMORIES, name]) <==> path == [MEMORIES, name]
  {
    RelatedToTwo(path, MEMORIES, name);
    if path[0] == MEMORIES {
      ManagedMemory(path);
    }
  }

  lemma MemoryKeyHit(name: string, value: string, mark: TomlLines.Mark)
    requires name in MEMORY_KEYS && IsBalanced(Setting(name, value)) && ManagedName(mark)
    ensures Still(AtMemories, Setting(name, value))
    ensures Hits(AtMemories, Setting(name, value), mark)
       <==> mark == Meets([MEMORIES, name])
  {
    OwnNamesAreKeyNames(name);
    MemoriesLineOpens();
    NamesApart();
    SettingLine(AtMemories, MEMORIES_PATH, name, value, mark);
    assert MEMORIES_PATH + [name] == [MEMORIES, name];
    if mark.Meets? {
      RelatedMemory(mark.path, name);
    }
  }

  lemma MemoryBlockOwn(v: Values, mark: TomlLines.Mark)
    requires Balanced(MemoryBlock(v)) && ManagedName(mark)
    ensures Last(AtMemories, MemoryBlock(v)) == AtMemories
    ensures Count(AtMemories, MemoryBlock(v), mark) == One(mark.Meets? && mark.path[0] == MEMORIES)
  {
    var s := MemoryBlock(v);
    assert IsBalanced(s[0]) && IsBalanced(s[1]);
    MemoryKeyHit(EXTRACT_MODEL, Quote(v.memoryModel), mark);
    MemoryKeyHit(CONSOLIDATION_MODEL, Quote(v.memoryModel), mark);
    CountTwo(AtMemories, s[0], s[1], mark);
    NamesApart();
    if mark.Meets? && mark.path[0] == MEMORIES {
      ManagedMemory(mark.path);
    }
  }

  lemma ProviderKeyHit(name: string, value: string, mark: TomlLines.Mark)
    requires name in PROVIDER_KEYS && IsBalanced(Setting(name, value)) && ManagedName(mark)
    ensures Still(AtProvider, Setting(name, value))
    ensures Hits(AtProvider, Setting(name, value), mark) <==> mark == Meets(PROVIDER_PATH)
  {
    OwnNamesAreKeyNames(name);
    ProviderLineOpens();
    NamesApart();
    SettingLine(AtProvider, PROVIDER_PATH, name, value, mark);
    var full := PROVIDER_PATH + [name];
    assert full[0] == PROVIDERS && PROVIDER_PATH <= full;
  }

  lemma ProviderSettingsOwn(v: Values, mark: TomlLines.Mark)
    requires Balanced(ProviderSettings(v)) && ManagedName(mark)
    ensures Last(AtProvider, ProviderSettings(v)) == AtProvider
    ensures Count(AtProvider, ProviderSettings(v), mark) == if mark == Meets(PROVIDER_PATH) then 4 else 0
  {
    var s := ProviderSettings(v);
    assert IsBalanced(s[0]) && IsBalanced(s[1]) && IsBalanced(s[2]) && IsBalanced(s[3]);
    ProviderKeyHit(NAME_KEY, Quote(PROVIDER_NAME), mark);
    ProviderKeyHit(BASE_URL, Quote(v.host + PROXY_PREFIX), mark);
    ProviderKeyHit(WIRE_API_KEY, Quote(WIRE_API), mark);
    ProviderKeyHit(BEARER_TOKEN, Quote(v.apiKey), mark);
    SettingsCount(s[0], s[1], s[2], s[3], mark);
  }

  lemma SettingsCount(a: string, b: string, c: string, d: string, mark: TomlLines.Mark)
    requires Still(AtProvider, a) && Still(AtProvider, b) && Still(AtProvider, c) && Still(AtProvider, d)
    requires forall line :: line in {a, b, c, d} ==> (Hits(AtProvider, line, mark) <==> mark == Meets(PROVIDER_PATH))
    ensures Last(AtProvider, [a, b, c, d]) == AtProvider
    ensures Count(AtProvider, [a, b, c, d], mark) == if mark == Meets(PROVIDER_PATH) then 4 else 0
  {
    CountFour(AtProvider, a, b, c, d, mark);
  }

  lemma ProviderHeaderMeets(mark: TomlLines.Mark)
    requires ManagedName(mark)
    ensures match mark
      case Meets(name) => name <= PROVIDER_PATH <==> name == PROVIDER_PATH
      case HeaderOf(name) => name != PROVIDER_PATH
  {
    NamesApart();
  }

  lemma ProviderOpeningOwn(p: Place, mark: TomlLines.Mark)
    requires Outside(p) && ManagedName(mark)
    ensures Last(p, ["", PROVIDER_LINE]) == AtProvider
    ensures Count(p, ["", PROVIDER_LINE], mark) == One(mark == Meets(PROVIDER_PATH))
  {
    ProviderLineOpens();
    ProviderHeaderMeets(mark);
    OpeningLine(p, PROVIDER_LINE, PROVIDER_PATH, mark);
  }

  lemma ThenMore(p: Place, a: seq<string>, q: Place, b: seq<string>, mark: TomlLines.Mark, m: nat, n: nat)
    requires Last(p, a) == q && Count(p, a, mark) == m && Count(q, b, mark) == n
    ensures Count(p, a + b, mark) == m + n
  {
    CountAppend(p, a, b, mark);
  }

  lemma ProviderPartOwn(p: Place, v: Values, mark: TomlLines.Mark)
    requires Outside(p) && Balanced(ProviderSettings(v)) && ManagedName(mark)
    ensures Count(p, ProviderPart(v), mark) == if mark == Meets(PROVIDER_PATH) then 5 else 0
  {
    var n := if mark == Meets(PROVIDER_PATH) then 4 else 0;
    ProviderOpeningOwn(p, mark);
    ProviderSettingsOwn(v, mark);
    ThenMore(p, ["", PROVIDER_LINE], AtProvider, ProviderSettings(v), mark, One(mark == Meets(PROVIDER_PATH)), n);
  }

  /** The memories part, as far as the keys that are written. */
  function MemoriesFront(c: Cleaned): seq<string> {
    ["", MEMORIES_LINE] + c.memories
  }

  lemma MemoriesPartOwn(p: Place, c: Cleaned, v: Values, mark: TomlLines.Mark)
    requires Outside(p) && c.memories != [] && ManagedName(mark)
    ensures Last(p, MemoriesFront(c)) == Last(AtMemories, c.memories)
    ensures Last(AtMemories, c.memories) == AtMemories && Balanced(MemoryBlock(v)) ==>
      && Last(p, MemoriesPart(c, v)) == AtMemories
      && Count(p, MemoriesPart(c, v), mark) == Count(AtMemories, c.memories, mark)
           + One(mark.HeaderOf? || (mark.path[0] == MEMORIES))
  {
    MemoriesLineOpens();
    NamesApart();
    OpeningLine(p, MEMORIES_LINE, MEMORIES_PATH, mark);
    CountAppend(p, ["", MEMORIES_LINE], c.memories, mark);
    if Balanced(MemoryBlock(v)) {
      MemoryBlockOwn(v, mark);
      CountAppend(AtMemories, c.memories, MemoryBlock(v), mark);
      CountAppend(p, ["", MEMORIES_LINE], c.memories + MemoryBlock(v), mark);
    }
  }

  // --- When what is written is in effect. ---

  predicate OnlyOwn(c: Cleaned, v: Values, mark: TomlLines.Mark) {
    Count(Root, Rendered(c, v), mark) == Own(c, mark)
  }

  ghost predicate OnlyOwnLines(c: Cleaned, v: Values) {
    forall mark :: ManagedName(mark) ==> OnlyOwn(c, v, mark)
  }

  /** The root keys stand in front of any table, the memory keys in the memories table, the headers where
      an expression can start, and each managed name is met by the lines just written and no other. */
  ghost predicate InEffect(c: Cleaned, v: Values) {
    var front := HeadPart(c) + (RootBlock(v) + TailPart(c));
    && Last(Root, HeadPart(c)) == Root
    && Outside(Last(Root, front))
    && (c.memories != [] ==> Last(Last(Root, front), MemoriesFront(c)) == AtMemories)
    && OnlyOwnLines(c, v)
  }

  predicate NoneMeets(c: Cleaned, mark: TomlLines.Mark) {
    Count(Root, c.head, mark) == Count(Root, c.tail, mark) == Count(AtMemories, c.memories, mark) == 0
  }

  /** No line of a section meets a managed name. */
  ghost predicate NoClash(c: Cleaned) {
    forall mark :: ManagedName(mark) ==> NoneMeets(c, mark)
  }

  /** Read alone, the head leaves nothing open and opens no table, the tail leaves nothing open, and the
      memories leave nothing open and no other table. */
  predicate Undisturbed(c: Cleaned) {
    && Last(Root, c.head) == Root && Outside(Last(Root, c.tail))
    && (c.memories != [] ==> Last(AtMemories, c.memories) == AtMemories)
  }

  lemma HeadPartLike(c: Cleaned, mark: TomlLines.Mark)
    ensures Last(Root, HeadPart(c)) == Last(Root, c.head)
    ensures Count(Root, HeadPart(c), mark) == Count(Root, c.head, mark)
  {
    if c.head == [] {
      assert HeadPart(c) == [];
    } else {
      BlankLine(Last(Root, c.head), mark);
      CountAppend(Root, c.head, [""], mark);
    }
  }

  lemma TailPartLike(c: Cleaned, mark: TomlLines.Mark)
    ensures Last(Root, TailPart(c)) == Last(Root, c.tail)
    ensures Count(Root, TailPart(c), mark) == Count(Root, c.tail, mark)
  {
    if c.tail != [] {
      BlankLine(Root, mark);
      CountAppend(Root, [""], c.tail, mark);
    }
  }

  /** Where the tail ends, if the head ends at the root. */
  lemma FrontEnds(c: Cleaned, v: Values)
    requires WritesBalanced(v) && Last(Root, c.head) == Root
    ensures Last(Root, HeadPart(c) + (RootBlock(v) + TailPart(c))) == Last(Root, c.tail)
  {
    var mark := HeaderOf(MEMORIES_PATH);
    HeadPartLike(c, mark);
    TailPartLike(c, mark);
    RootBlockOwn(v, mark);
    CountAppend(Root, RootBlock(v), TailPart(c), mark);
    CountAppend(Root, HeadPart(c), RootBlock(v) + TailPart(c), mark);
  }

  lemma PlacesIff(c: Cleaned, v: Values)
    requires WritesBalanced(v)
    ensures var front := HeadPart(c) + (RootBlock(v) + TailPart(c));
      Undisturbed(c) <==>
        && Last(Root, HeadPart(c)) == Root && Outside(Last(Root, front))
        && (c.memories != [] ==> Last(Last(Root, front), MemoriesFront(c)) == AtMemories)
  {
    var mark := HeaderOf(MEMORIES_PATH);
    HeadPartLike(c, mark);
    if Last(Root, c.head) == Root {
      FrontEnds(c, v);
      if Outside(Last(Root, c.tail)) && c.memories != [] {
        MemoriesPartOwn(Last(Root, c.tail), c, v, mark);
      }
    }
  }

  /** Undisturbed, an exported file has of each managed name its own lines and those of its sections. */
  lemma CountOfRendered(c: Cleaned, v: Values, mark: TomlLines.Mark)
    requires WritesBalanced(v) && Undisturbed(c) && ManagedName(mark)
    ensures Count(Root, Rendered(c, v), mark)
         == Own(c, mark) + Count(Root, c.head, mark) + Count(Root, c.tail, mark) + Count(AtMemories, c.memories, mark)
  {
    var p := Last(Root, c.tail);
    var end := MemoriesPart(c, v) + ProviderPart(v);
    HeadPartLike(c, mark);
    RootBlockOwn(v, mark);
    TailPartLike(c, mark);
    CountAppend(Root, HeadPart(c), RootBlock(v) + (TailPart(c) + end), mark);
    CountAppend(Root, RootBlock(v), TailPart(c) + end, mark);
    CountAppend(Root, TailPart(c), end, mark);
    CountAppend(p, MemoriesPart(c, v), ProviderPart(v), mark);
    if c.memories != [] {
      MemoriesPartOwn(p, c, v, mark);
    }
    ProviderPartOwn(Last(p, MemoriesPart(c, v)), v, mark);
    OwnAdds(c, mark);
  }

  lemma OwnAdds(c: Cleaned, mark: TomlLines.Mark)
    requires ManagedName(mark)
    ensures Own(c, mark)
         == One(mark.Meets? && mark.path[0] in ROOT_KEYS)
            + (if c.memories == [] then 0 else One(mark.HeaderOf? || mark.path[0] == MEMORIES))
            + if mark == Meets(PROVIDER_PATH) then 5 else 0
  {
    NamesApart();
  }

  /** What an export of any file writes is in effect exactly if the sections it keeps do not disturb it
      and no line they have meets a managed name. */
  lemma InEffectIff(c: Cleaned, v: Values)
    requires WritesBalanced(v)
    ensures InEffect(c, v) <==> Undisturbed(c) && NoClash(c)
  {
    PlacesIff(c, v);
    if Undisturbed(c) {
      CountsIff(c, v);
    }
  }

  lemma CountsIff(c: Cleaned, v: Values)
    requires WritesBalanced(v) && Undisturbed(c)
    ensures OnlyOwnLines(c, v) <==> NoClash(c)
  {
    forall mark | ManagedName(mark) ensures OnlyOwn(c, v, mark) <==> NoneMeets(c, mark) {
      OneCountIff(c, v, mark);
    }
  }

  lemma OneCountIff(c: Cleaned, v: Values, mark: TomlLines.Mark)
    requires WritesBalanced(v) && Undisturbed(c) && ManagedName(mark)
    ensures OnlyOwn(c, v, mark) <==> NoneMeets(c, mark)
  {
    CountOfRendered(c, v, mark);
    NothingElse(Count(Root, Rendered(c, v), mark), Own(c, mark),
                Count(Root, c.head, mark), Count(Root, c.tail, mark), Count(AtMemories, c.memories, mark));
  }

  lemma NothingElse(all: nat, own: nat, head: nat, tail: nat, memories: nat)
    requires all == own + head + tail + memories
    ensures all == own <==> head == tail == memories == 0
  {
  }
}
