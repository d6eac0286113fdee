/** The values that an exported file has for the managed names, as TOML reads them. */
module CodexValues {
  import opened Wrappers
  import opened Text
  import opened Lines
  import opened TomlSyntax
  import opened TomlStrings
  import opened TomlLines
  import opened TomlValues
  import opened CodexExport
  import opened CodexLaws
  import opened CodexEffect
  import opened CodexTarget
  import opened CodexFixedPoint
  import opened TargetModels

  // --- One line. ---

  /** A value that is read as it was written: no backslash and no control character but tab. */
  predicate IsReadable(s: string) {
    forall c :: c in s ==> c != '\\' && !IsControl(c)
  }

  lemma {:induction false} EscapeLength(s: string)
    ensures |Escape(s)| == |s| + Quotes(s)
  {
    if s != [] {
      EscapeLength(s[1..]);
    }
  }

  lemma ReadableStep(s: string)
    requires s != []
    ensures IsReadable(s) <==> s[0] != '\\' && !IsControl(s[0]) && IsReadable(s[1..])
  {
    assert s[0] in s && forall c :: c in s[1..] ==> c in s;
    assert forall c :: c in s ==> c == s[0] || c in s[1..];
  }

  lemma {:induction false} SpecialsAreQuotes(s: string)
    ensures Specials(s) >= Quotes(s) && (Specials(s) == Quotes(s) <==> IsReadable(s))
  {
    if s != [] {
      SpecialsAreQuotes(s[1..]);
      ReadableStep(s);
    }
  }

  lemma {:induction false} ReadsEscaped(s: string, rest: string)
    requires IsReadable(s)
    ensures BasicString(Escape(s) + ("\"" + rest)) == TomlLines.Part(s, rest)
  {
    var end := "\"" + rest;
    if s == [] {
      assert Escape(s) + end == end;
      ClosesString(end);
      assert end[1..] == rest;
    } else {
      var first := if s[0] == '"' then ['\\', '"'] else [s[0]];
      assert s[0] in s && forall c :: c in s[1..] ==> c in s;
      ReadsEscaped(s[1..], rest);
      assert [s[0]] + s[1..] == s;
      EscapeFirst(s, first, end);
      ReadsOne(s[0], first, Escape(s[1..]) + end);
    }
  }

  lemma ClosesString(end: string)
    requires end != [] && end[0] == '"'
    ensures BasicString(end) == TomlLines.Part("", end[1..])
  {
  }

  lemma EscapeFirst(s: string, first: string, end: string)
    requires s != [] && first == if s[0] == '"' then ['\\', '"'] else [s[0]]
    ensures Escape(s) + end == first + (Escape(s[1..]) + end)
  {
    Associates(first, Escape(s[1..]), end);
  }

  lemma Associates(a: string, b: string, c: string)
    ensures (a + b) + c == a + (b + c)
  {
  }

  lemma ReadsOne(c: char, first: string, more: string)
    requires c != '\\' && !IsControl(c) && first == if c == '"' then ['\\', '"'] else [c]
    ensures var p := BasicString(more);
      BasicString(first + more) == if p.Part? then TomlLines.Part([c] + p.name, p.rest) else NoPart
  {
    var all := first + more;
    if c == '"' {
      assert all[1..] == ['"'] + more && (['"'] + more)[1..] == more;
      assert Unescape(all[1..]) == TomlLines.Part("\"", more);
    } else {
      assert all[1..] == more;
    }
  }

  /** What stands behind the equals sign of a setting. */
  lemma ValueOfSetting(name: string, value: string)
    requires IsKeyName(name)
    ensures ValueOf(Setting(name, value)) == ValueFrom(SkipBlanks(value))
  {
    SettingStarts(name, value);
    BehindEquals("= " + value, value);
  }

  lemma BehindEquals(rest: string, value: string)
    requires rest == "= " + value
    ensures rest[0] == '=' && SkipBlanks(rest[1..]) == SkipBlanks(value)
  {
    assert rest[1..] == " " + value && (" " + value)[1..] == value;
  }

  lemma QuoteIsNoMark(s: string)
    ensures !(Triple('"') <= Quote(s)) && !(Triple('\'') <= Quote(s))
  {
    NoTripleQuotes("", s);
    assert "" + Quote(s) == Quote(s);
    assert Triple('\'')[0] == '\'' && Quote(s)[0] == '"';
    assert BASIC == Triple('"');
  }

  lemma QuotedValue(s: string)
    ensures ValueFrom(SkipBlanks(Quote(s))) == Whole(BasicString(Escape(s) + ("\"" + "")))
  {
    QuoteIsNoMark(s);
    assert Quote(s)[1..] == Escape(s) + ("\"" + "");
  }

  /** A quoted value is read back exactly if it has no backslash and no control character. */
  lemma QuotedReadsBackIff(name: string, s: string)
    requires IsKeyName(name)
    ensures ValueOf(Setting(name, Quote(s))) == Some(Str(s)) <==> IsReadable(s)
  {
    var e := Escape(s) + ("\"" + "");
    ValueOfSetting(name, Quote(s));
    QuotedValue(s);
    EscapeLength(s);
    SpecialsAreQuotes(s);
    if IsReadable(s) {
      ReadsEscaped(s, "");
      assert SkipBlanks("") == "";
    } else if BasicString(e).Part? {
      StringTakes(e);
    }
  }

  lemma {:induction false} DigitsOfItoa(n: nat)
    ensures Itoa(n) != [] && Decimal(Itoa(n)) == n && (Itoa(n)[0] == '0' <==> n == 0)
  {
    if n >= 10 {
      var last := '0' + (n % 10) as char;
      DigitsOfItoa(n / 10);
      assert Itoa(n)[..|Itoa(n)| - 1] == Itoa(n / 10);
      assert last as int - '0' as int == n % 10;
    } else {
      assert Itoa(n)[..0] == [];
    }
  }

  lemma {:induction false} AllDigits(s: string)
    requires forall c :: c in s ==> '0' <= c <= '9'
    ensures Digits(s) == s
  {
    if s != [] {
      assert s[0] in s && forall c :: c in s[1..] ==> c in s;
      AllDigits(s[1..]);
      assert [s[0]] + s[1..] == s;
    }
  }

  lemma LongNumber(n: nat)
    ensures |Itoa(n)| > 1 ==> n > 0
  {
  }

  lemma NumberReadsBack(name: string, n: nat)
    requires IsKeyName(name)
    ensures ValueOf(Setting(name, Itoa(n))) == Some(Num(n))
  {
    var s := Itoa(n);
    ValueOfSetting(name, s);
    DigitsOnly(n);
    DigitsOfItoa(n);
    LongNumber(n);
    NumberValue(s);
  }

  lemma DigitIsNoMark(s: string)
    requires s != [] && '0' <= s[0] <= '9'
    ensures SkipBlanks(s) == s && ValueFrom(s) == Integer(s)
  {
    assert Triple('"')[0] == '"' && Triple('\'')[0] == '\'';
  }

  lemma NothingAtEnd(s: string)
    ensures s[|s|..] == "" && NothingBehind("")
  {
  }

  lemma NumberValue(s: string)
    requires s != [] && (forall c :: c in s ==> '0' <= c <= '9') && (|s| > 1 ==> s[0] != '0')
    ensures ValueFrom(SkipBlanks(s)) == Some(Num(Decimal(s)))
  {
    AllDigits(s);
    assert s[0] in s;
    DigitIsNoMark(s);
    NothingAtEnd(s);
  }

  // --- The blocks that are written. ---

  /** The value of a setting, if it is the one of that name. */
  function Given(name: string, value: string, wanted: string): seq<Option<Value>> {
    if name == wanted then [ValueOf(Setting(name, value))] else []
  }

  lemma SettingGives(p: Place, table: Path, name: string, value: string, wanted: string)
    requires Outside(p) && TableAt(p) == Some(table) && IsKeyName(name) && IsBalanced(Setting(name, value))
    ensures Still(p, Setting(name, value))
    ensures ValuesOn(p, Setting(name, value), table + [wanted]) == Given(name, value, wanted)
  {
    KeyOfSetting(name, value);
    BalancedStays(p, Setting(name, value));
    assert (table + [name])[|table|] == name && (table + [wanted])[|table|] == wanted;
  }

  /** A setting gives nothing to a name that is not in its table. */
  lemma SettingGivesNothing(p: Place, table: Path, name: string, value: string, path: Path)
    requires Outside(p) && TableAt(p) == Some(table) && IsKeyName(name) && IsBalanced(Setting(name, value))
    requires |path| != |table| + 1 || path[..|table|] != table
    ensures Still(p, Setting(name, value)) && ValuesOn(p, Setting(name, value), path) == []
  {
    KeyOfSetting(name, value);
    BalancedStays(p, Setting(name, value));
    assert (table + [name])[..|table|] == table;
  }

  lemma ValuesOfOne(p: Place, line: string, path: Path)
    ensures ValuesAt(p, [line], path) == ValuesOn(p, line, path) && Last(p, [line]) == Next(p, line)
  {
    assert [line][1..] == [];
  }

  lemma ValuesOfTwo(p: Place, a: string, b: string, path: Path)
    requires Still(p, a) && Still(p, b)
    ensures ValuesAt(p, [a, b], path) == ValuesOn(p, a, path) + ValuesOn(p, b, path) && Last(p, [a, b]) == p
  {
    assert [a, b] == [a] + [b];
    ValuesOfOne(p, a, path);
    ValuesOfOne(p, b, path);
    ValuesAppend(p, [a], [b], path);
    CountAppend(p, [a], [b], Meets(path));
  }

  lemma ValuesOfThree(p: Place, a: string, b: string, c: string, path: Path)
    requires Still(p, a) && Still(p, b) && Still(p, c)
    ensures ValuesAt(p, [a, b, c], path) == ValuesOn(p, a, path) + ValuesOn(p, b, path) + ValuesOn(p, c, path)
  {
    assert [a, b, c] == [a, b] + [c];
    ValuesOfTwo(p, a, b, path);
    ValuesOfOne(p, c, path);
    ValuesAppend(p, [a, b], [c], path);
  }

  lemma ValuesOfFour(p: Place, a: string, b: string, c: string, d: string, path: Path)
    requires Still(p, a) && Still(p, b) && Still(p, c) && Still(p, d)
    ensures ValuesAt(p, [a, b, c, d], path)
         == ValuesOn(p, a, path) + ValuesOn(p, b, path) + (ValuesOn(p, c, path) + ValuesOn(p, d, path))
  {
    assert [a, b, c, d] == [a, b] + [c, d];
    ValuesOfTwo(p, a, b, path);
    ValuesOfTwo(p, c, d, path);
    ValuesAppend(p, [a, b], [c, d], path);
  }

  lemma RootBlockGives(v: Values, wanted: string)
    requires Balanced(RootBlock(v))
    ensures ValuesAt(Root, RootBlock(v), [wanted])
         == Given(MODEL, Quote(v.model), wanted) + Given(MODEL_PROVIDER, Quote(PROVIDER_ID), wanted)
            + Given(MODEL_CONTEXT_WINDOW, Itoa(v.context), wanted)
  {
    var s := RootBlock(v);
    assert IsBalanced(s[0]) && IsBalanced(s[1]) && IsBalanced(s[2]);
    RootNames();
    SettingGives(Root, [], MODEL, Quote(v.model), wanted);
    SettingGives(Root, [], MODEL_PROVIDER, Quote(PROVIDER_ID), wanted);
    SettingGives(Root, [], MODEL_CONTEXT_WINDOW, Itoa(v.context), wanted);
    assert [] + [wanted] == [wanted];
    ValuesOfThree(Root, s[0], s[1], s[2], [wanted]);
  }

  lemma RootBlockGivesNothing(v: Values, path: Path)
    requires Balanced(RootBlock(v)) && |path| != 1
    ensures ValuesAt(Root, RootBlock(v), path) == []
  {
    var s := RootBlock(v);
    assert IsBalanced(s[0]) && IsBalanced(s[1]) && IsBalanced(s[2]);
    RootNames();
    SettingGivesNothing(Root, [], MODEL, Quote(v.model), path);
    SettingGivesNothing(Root, [], MODEL_PROVIDER, Quote(PROVIDER_ID), path);
    SettingGivesNothing(Root, [], MODEL_CONTEXT_WINDOW, Itoa(v.context), path);
    ValuesOfThree(Root, s[0], s[1], s[2], path);
  }

  lemma MemoryBlockGives(v: Values, wanted: string)
    requires Balanced(MemoryBlock(v))
    ensures ValuesAt(AtMemories, MemoryBlock(v), [MEMORIES, wanted])
         == Given(EXTRACT_MODEL, Quote(v.memoryModel), wanted)
            + Given(CONSOLIDATION_MODEL, Quote(v.memoryModel), wanted)
  {
    var s := MemoryBlock(v);
    assert IsBalanced(s[0]) && IsBalanced(s[1]);
    MemoryNames();
    MemoriesLineOpens();
    SettingGives(AtMemories, MEMORIES_PATH, EXTRACT_MODEL, Quote(v.memoryModel), wanted);
    SettingGives(AtMemories, MEMORIES_PATH, CONSOLIDATION_MODEL, Quote(v.memoryModel), wanted);
    assert MEMORIES_PATH + [wanted] == [MEMORIES, wanted];
    ValuesOfTwo(AtMemories, s[0], s[1], [MEMORIES, wanted]);
  }

  lemma MemoryBlockGivesNothing(v: Values, path: Path)
    requires Balanced(MemoryBlock(v)) && |path| != 2
    ensures ValuesAt(AtMemories, MemoryBlock(v), path) == []
  {
    var s := MemoryBlock(v);
    assert IsBalanced(s[0]) && IsBalanced(s[1]);
    MemoryNames();
    MemoriesLineOpens();
    SettingGivesNothing(AtMemories, MEMORIES_PATH, EXTRACT_MODEL, Quote(v.memoryModel), path);
    SettingGivesNothing(AtMemories, MEMORIES_PATH, CONSOLIDATION_MODEL, Quote(v.memoryModel), path);
    ValuesOfTwo(AtMemories, s[0], s[1], path);
  }

  lemma ProviderSettingsGive(v: Values, wanted: string)
    requires Balanced(ProviderSettings(v))
    ensures ValuesAt(AtProvider, ProviderSettings(v), PROVIDER_PATH + [wanted])
         == Given(NAME_KEY, Quote(PROVIDER_NAME), wanted) + Given(BASE_URL, Quote(v.host + PROXY_PREFIX), wanted)
            + (Given(WIRE_API_KEY, Quote(WIRE_API), wanted) + Given(BEARER_TOKEN, Quote(v.apiKey), wanted))
  {
    var s := ProviderSettings(v);
    assert IsBalanced(s[0]) && IsBalanced(s[1]) && IsBalanced(s[2]) && IsBalanced(s[3]);
    ProviderNames();
    ProviderLineOpens();
    SettingGives(AtProvider, PROVIDER_PATH, NAME_KEY, Quote(PROVIDER_NAME), wanted);
    SettingGives(AtProvider, PROVIDER_PATH, BASE_URL, Quote(v.host + PROXY_PREFIX), wanted);
    SettingGives(AtProvider, PROVIDER_PATH, WIRE_API_KEY, Quote(WIRE_API), wanted);
    SettingGives(AtProvider, PROVIDER_PATH, BEARER_TOKEN, Quote(v.apiKey), wanted);
    ValuesOfFour(AtProvider, s[0], s[1], s[2], s[3], PROVIDER_PATH + [wanted]);
  }

  lemma ProviderSettingsGiveNothing(v: Values, path: Path)
    requires Balanced(ProviderSettings(v)) && |path| != 3
    ensures ValuesAt(AtProvider, ProviderSettings(v), path) == []
  {
    var s := ProviderSettings(v);
    assert IsBalanced(s[0]) && IsBalanced(s[1]) && IsBalanced(s[2]) && IsBalanced(s[3]);
    ProviderNames();
    ProviderLineOpens();
    SettingGivesNothing(AtProvider, PROVIDER_PATH, NAME_KEY, Quote(PROVIDER_NAME), path);
    SettingGivesNothing(AtProvider, PROVIDER_PATH, BASE_URL, Quote(v.host + PROXY_PREFIX), path);
    SettingGivesNothing(AtProvider, PROVIDER_PATH, WIRE_API_KEY, Quote(WIRE_API), path);
    SettingGivesNothing(AtProvider, PROVIDER_PATH, BEARER_TOKEN, Quote(v.apiKey), path);
    ValuesOfFour(AtProvider, s[0], s[1], s[2], s[3], path);
  }

  // --- The file. ---

  lemma BlankGivesNothing(p: Place, path: Path)
    ensures ValuesAt(p, [""], path) == [] && Last(p, [""]) == p
  {
    BlankLine(p, Meets(path));
    ValuesOfOne(p, "", path);
  }

  lemma OpeningGivesNothing(p: Place, line: string, table: Path, path: Path)
    requires Outside(p) && HeaderPath(line) == Some(table) && "[" <= SkipBlanks(line) && IsBalanced(line)
    ensures ValuesAt(p, ["", line], path) == [] && Last(p, ["", line]) == Place(Some(line), NoDelim, 0)
  {
    BalancedStays(p, line);
    BlankGivesNothing(p, path);
    ValuesOfOne(p, line, path);
    OpeningLine(p, line, table, Meets(path));
    assert ["", line] == [""] + [line];
    ValuesAppend(p, [""], [line], path);
  }

  lemma ProviderPartGives(p: Place, v: Values, path: Path)
    requires Outside(p)
    ensures ValuesAt(p, ProviderPart(v), path) == ValuesAt(AtProvider, ProviderSettings(v), path)
  {
    ProviderLineOpens();
    OpeningGivesNothing(p, PROVIDER_LINE, PROVIDER_PATH, path);
    ValuesAppend(p, ["", PROVIDER_LINE], ProviderSettings(v), path);
  }

  lemma MemoriesPartGives(p: Place, c: Cleaned, v: Values, path: Path)
    requires Outside(p) && c.memories != [] && Last(AtMemories, c.memories) == AtMemories
    ensures ValuesAt(p, MemoriesPart(c, v), path)
         == ValuesAt(AtMemories, c.memories, path) + ValuesAt(AtMemories, MemoryBlock(v), path)
  {
    MemoriesLineOpens();
    OpeningGivesNothing(p, MEMORIES_LINE, MEMORIES_PATH, path);
    ValuesAppend(p, ["", MEMORIES_LINE], c.memories + MemoryBlock(v), path);
    ValuesAppend(AtMemories, c.memories, MemoryBlock(v), path);
  }

  /** What is written in the tables. */
  function InTables(c: Cleaned, v: Values, path: Path): seq<Option<Value>> {
    (if c.memories == [] then [] else ValuesAt(AtMemories, MemoryBlock(v), path))
    + ValuesAt(AtProvider, ProviderSettings(v), path)
  }

  lemma MemoriesGive(p: Place, c: Cleaned, v: Values, name: Path, path: Path)
    requires Outside(p) && WritesBalanced(v) && Undisturbed(c) && ManagedName(Meets(name)) && name <= path
    requires Count(AtMemories, c.memories, Meets(name)) == 0
    ensures Outside(Last(p, MemoriesPart(c, v)))
    ensures ValuesAt(p, MemoriesPart(c, v), path)
         == if c.memories == [] then [] else ValuesAt(AtMemories, MemoryBlock(v), path)
  {
    if c.memories != [] {
      MemoriesPartOwn(p, c, v, Meets(name));
      MemoriesPartGives(p, c, v, path);
      NoneMetNoValue(AtMemories, c.memories, name, path);
    }
  }

  lemma ThenValues(p: Place, a: seq<string>, q: Place, b: seq<string>, path: Path, x: seq<Option<Value>>,
                   y: seq<Option<Value>>)
    requires Last(p, a) == q && ValuesAt(p, a, path) == x && ValuesAt(q, b, path) == y
    ensures ValuesAt(p, a + b, path) == x + y
  {
    ValuesAppend(p, a, b, path);
  }

  lemma EndGives(p: Place, c: Cleaned, v: Values, name: Path, path: Path)
    requires Outside(p) && WritesBalanced(v) && Undisturbed(c) && ManagedName(Meets(name)) && name <= path
    requires Count(AtMemories, c.memories, Meets(name)) == 0
    ensures ValuesAt(p, MemoriesPart(c, v) + ProviderPart(v), path) == InTables(c, v, path)
  {
    var q := Last(p, MemoriesPart(c, v));
    MemoriesGive(p, c, v, name, path);
    ProviderPartGives(q, v, path);
    ThenValues(p, MemoriesPart(c, v), q, ProviderPart(v), path, ValuesAt(p, MemoriesPart(c, v), path),
               ValuesAt(AtProvider, ProviderSettings(v), path));
  }

  lemma HeadGivesNothing(c: Cleaned, name: Path, path: Path)
    requires Count(Root, c.head, Meets(name)) == 0 && Count(Root, c.tail, Meets(name)) == 0 && name <= path
    ensures ValuesAt(Root, HeadPart(c), path) == [] && ValuesAt(Root, TailPart(c), path) == []
  {
    HeadPartLike(c, Meets(name));
    TailPartLike(c, Meets(name));
    NoneMetNoValue(Root, HeadPart(c), name, path);
    NoneMetNoValue(Root, TailPart(c), name, path);
  }

  /** Undisturbed, and with no line of a section meeting the name, a file has for it what was written. */
  lemma ValuesOfRendered(c: Cleaned, v: Values, name: Path, path: Path)
    requires WritesBalanced(v) && Undisturbed(c) && ManagedName(Meets(name)) && name <= path
    requires NoneMeets(c, Meets(name))
    ensures ValuesAt(Root, Rendered(c, v), path) == ValuesAt(Root, RootBlock(v), path) + InTables(c, v, path)
  {
    var mark, q, root := Meets(name), Last(Root, c.tail), ValuesAt(Root, RootBlock(v), path);
    var end, rest := MemoriesPart(c, v) + ProviderPart(v), InTables(c, v, path);
    HeadGivesNothing(c, name, path);
    HeadPartLike(c, mark);
    TailPartLike(c, mark);
    RootBlockOwn(v, mark);
    EndGives(q, c, v, name, path);
    ThenValues(Root, TailPart(c), q, end, path, [], rest);
    ThenValues(Root, RootBlock(v), Root, TailPart(c) + end, path, root, [] + rest);
    ThenValues(Root, HeadPart(c), Root, RootBlock(v) + (TailPart(c) + end), path, [], root + ([] + rest));
    NothingMore(root, rest);
  }

  lemma NothingMore(a: seq<Option<Value>>, b: seq<Option<Value>>)
    ensures [] + (a + ([] + b)) == a + b
  {
  }

  // --- What a reader of the file gets. ---

  /** The sections do not disturb what is written, and it does not leave anything open. */
  ghost predicate Fine(c: Cleaned, v: Values) {
    WritesBalanced(v) && Undisturbed(c) && NoClash(c)
  }

  lemma TablesGiveNothing(c: Cleaned, v: Values, path: Path)
    requires WritesBalanced(v) && |path| == 1
    ensures InTables(c, v, path) == []
  {
    MemoryBlockGivesNothing(v, path);
    ProviderSettingsGiveNothing(v, path);
  }

  lemma AllOfIt(a: seq<Option<Value>>)
    ensures a + [] == a && [] + a == a
  {
  }

  lemma RootKeyReads(c: Cleaned, v: Values, name: string)
    requires Fine(c, v) && name in ROOT_KEYS
    ensures ValuesAt(Root, Rendered(c, v), [name])
         == Given(MODEL, Quote(v.model), name) + Given(MODEL_PROVIDER, Quote(PROVIDER_ID), name)
            + Given(MODEL_CONTEXT_WINDOW, Itoa(v.context), name)
  {
    assert ManagedName(Meets([name])) && NoneMeets(c, Meets([name]));
    ValuesOfRendered(c, v, [name], [name]);
    TablesGiveNothing(c, v, [name]);
    RootBlockGives(v, name);
    AllOfIt(ValuesAt(Root, RootBlock(v), [name]));
  }

  lemma MemoryKeyReads(c: Cleaned, v: Values, name: string)
    requires Fine(c, v) && name in MEMORY_KEYS && c.memories != []
    ensures ValuesAt(Root, Rendered(c, v), [MEMORIES, name])
         == Given(EXTRACT_MODEL, Quote(v.memoryModel), name) + Given(CONSOLIDATION_MODEL, Quote(v.memoryModel), name)
  {
    var path := [MEMORIES, name];
    assert ManagedName(Meets(path)) && NoneMeets(c, Meets(path));
    ValuesOfRendered(c, v, path, path);
    RootBlockGivesNothing(v, path);
    ProviderSettingsGiveNothing(v, path);
    MemoryBlockGives(v, name);
    AllOfIt(ValuesAt(AtMemories, MemoryBlock(v), path));
  }

  lemma ProviderKeyReads(c: Cleaned, v: Values, name: string)
    requires Fine(c, v)
    ensures ValuesAt(Root, Rendered(c, v), PROVIDER_PATH + [name])
         == Given(NAME_KEY, Quote(PROVIDER_NAME), name) + Given(BASE_URL, Quote(v.host + PROXY_PREFIX), name)
            + (Given(WIRE_API_KEY, Quote(WIRE_API), name) + Given(BEARER_TOKEN, Quote(v.apiKey), name))
  {
    var path := PROVIDER_PATH + [name];
    assert ManagedName(Meets(PROVIDER_PATH)) && NoneMeets(c, Meets(PROVIDER_PATH));
    ValuesOfRendered(c, v, PROVIDER_PATH, path);
    RootBlockGivesNothing(v, path);
    MemoryBlockGivesNothing(v, path);
    ProviderSettingsGive(v, name);
    AllOfIt(ValuesAt(AtProvider, ProviderSettings(v), path));
  }

  lemma QuotedIsGiven(name: string, s: string)
    requires IsKeyName(name) && IsReadable(s)
    ensures Given(name, Quote(s), name) == [Some(Str(s))]
  {
    QuotedReadsBackIff(name, s);
  }

  lemma NumberIsGiven(name: string, n: nat)
    requires IsKeyName(name)
    ensures Given(name, Itoa(n), name) == [Some(Num(n))]
  {
    NumberReadsBack(name, n);
  }

  lemma OwnIsReadable()
    ensures IsReadable(PROVIDER_ID) && IsReadable(PROVIDER_NAME) && IsReadable(WIRE_API) && IsReadable(PROXY_PREFIX)
  {
  }

  lemma OneIsGiven(a: seq<Option<Value>>, b: seq<Option<Value>>, c: seq<Option<Value>>, d: seq<Option<Value>>)
    ensures b == c == d == [] ==> a + b + (c + d) == a && b + a + (c + d) == a
    ensures b == c == d == [] ==> c + d + (a + b) == a && c + d + (b + a) == a
    ensures b == c == [] ==> a + b + c == a && b + a + c == a && b + c + a == a
  {
  }

  lemma ModelReads(c: Cleaned, v: Values)
    requires Fine(c, v) && IsReadable(v.model)
    ensures Reads(Rendered(c, v), [MODEL], Str(v.model))
  {
    NamesApart();
    RootNames();
    RootKeyReads(c, v, MODEL);
    QuotedIsGiven(MODEL, v.model);
    OneIsGiven([Some(Str(v.model))], [], [], []);
  }

  lemma ModelProviderReads(c: Cleaned, v: Values)
    requires Fine(c, v)
    ensures Reads(Rendered(c, v), [MODEL_PROVIDER], Str(PROVIDER_ID))
  {
    NamesApart();
    RootNames();
    OwnIsReadable();
    RootKeyReads(c, v, MODEL_PROVIDER);
    QuotedIsGiven(MODEL_PROVIDER, PROVIDER_ID);
    OneIsGiven([Some(Str(PROVIDER_ID))], [], [], []);
  }

  lemma ContextReads(c: Cleaned, v: Values)
    requires Fine(c, v)
    ensures Reads(Rendered(c, v), [MODEL_CONTEXT_WINDOW], Num(v.context))
  {
    NamesApart();
    RootNames();
    RootKeyReads(c, v, MODEL_CONTEXT_WINDOW);
    NumberIsGiven(MODEL_CONTEXT_WINDOW, v.context);
    OneIsGiven([Some(Num(v.context))], [], [], []);
  }

  lemma RootReads(c: Cleaned, v: Values)
    requires Fine(c, v) && IsReadable(v.model)
    ensures Reads(Rendered(c, v), ["model"], Str(v.model))
    ensures Reads(Rendered(c, v), ["model_provider"], Str("aris-mass"))
    ensures Reads(Rendered(c, v), ["model_context_window"], Num(v.context))
  {
    ModelReads(c, v);
    ModelProviderReads(c, v);
    ContextReads(c, v);
  }

  lemma MemoriesRead(c: Cleaned, v: Values)
    requires Fine(c, v) && IsReadable(v.memoryModel) && c.memories != []
    ensures Reads(Rendered(c, v), ["memories", "extract_model"], Str(v.memoryModel))
    ensures Reads(Rendered(c, v), ["memories", "consolidation_model"], Str(v.memoryModel))
  {
    NamesApart();
    MemoryNames();
    MemoryKeyReads(c, v, EXTRACT_MODEL);
    MemoryKeyReads(c, v, CONSOLIDATION_MODEL);
    QuotedIsGiven(EXTRACT_MODEL, v.memoryModel);
    QuotedIsGiven(CONSOLIDATION_MODEL, v.memoryModel);
  }

  lemma ProviderNamesApart()
    ensures |NAME_KEY| == 4 && |BASE_URL| == 8 && |WIRE_API_KEY| == 8 && |BEARER_TOKEN| == 25
    ensures BASE_URL != WIRE_API_KEY
  {
    assert BASE_URL[0] == 'b' && WIRE_API_KEY[0] == 'w';
  }

  lemma ProviderPaths()
    ensures PROVIDER_PATH + [NAME_KEY] == ["model_providers", "aris-mass", "name"]
    ensures PROVIDER_PATH + [BASE_URL] == ["model_providers", "aris-mass", "base_url"]
    ensures PROVIDER_PATH + [WIRE_API_KEY] == ["model_providers", "aris-mass", "wire_api"]
    ensures PROVIDER_PATH + [BEARER_TOKEN] == ["model_providers", "aris-mass", "experimental_bearer_token"]
  {
  }

  lemma SettingReads(c: Cleaned, v: Values, name: string, value: string)
    requires Fine(c, v) && IsKeyName(name) && IsReadable(value)
    requires ValuesAt(Root, Rendered(c, v), PROVIDER_PATH + [name]) == Given(name, Quote(value), name)
    ensures Reads(Rendered(c, v), PROVIDER_PATH + [name], Str(value))
  {
    QuotedIsGiven(name, value);
  }

  lemma NameReads(c: Cleaned, v: Values)
    requires Fine(c, v)
    ensures Reads(Rendered(c, v), PROVIDER_PATH + [NAME_KEY], Str(PROVIDER_NAME))
  {
    ProviderNamesApart();
    ProviderNames();
    OwnIsReadable();
    ProviderKeyReads(c, v, NAME_KEY);
    OneIsGiven(Given(NAME_KEY, Quote(PROVIDER_NAME), NAME_KEY), [], [], []);
    SettingReads(c, v, NAME_KEY, PROVIDER_NAME);
  }

  lemma UrlIsReadable(host: string)
    requires IsReadable(host)
    ensures IsReadable(host + PROXY_PREFIX)
  {
    OwnIsReadable();
  }

  lemma BaseUrlReads(c: Cleaned, v: Values)
    requires Fine(c, v) && IsReadable(v.host)
    ensures Reads(Rendered(c, v), PROVIDER_PATH + [BASE_URL], Str(v.host + PROXY_PREFIX))
  {
    ProviderNamesApart();
    ProviderNames();
    UrlIsReadable(v.host);
    ProviderKeyReads(c, v, BASE_URL);
    OneIsGiven(Given(BASE_URL, Quote(v.host + PROXY_PREFIX), BASE_URL), [], [], []);
    SettingReads(c, v, BASE_URL, v.host + PROXY_PREFIX);
  }

  lemma WireApiReads(c: Cleaned, v: Values)
    requires Fine(c, v)
    ensures Reads(Rendered(c, v), PROVIDER_PATH + [WIRE_API_KEY], Str(WIRE_API))
  {
    ProviderNamesApart();
    ProviderNames();
    OwnIsReadable();
    ProviderKeyReads(c, v, WIRE_API_KEY);
    OneIsGiven(Given(WIRE_API_KEY, Quote(WIRE_API), WIRE_API_KEY), [], [], []);
    SettingReads(c, v, WIRE_API_KEY, WIRE_API);
  }

  lemma TokenReads(c: Cleaned, v: Values)
    requires Fine(c, v) && IsReadable(v.apiKey)
    ensures Reads(Rendered(c, v), PROVIDER_PATH + [BEARER_TOKEN], Str(v.apiKey))
  {
    ProviderNamesApart();
    ProviderNames();
    ProviderKeyReads(c, v, BEARER_TOKEN);
    OneIsGiven(Given(BEARER_TOKEN, Quote(v.apiKey), BEARER_TOKEN), [], [], []);
    SettingReads(c, v, BEARER_TOKEN, v.apiKey);
  }

  lemma ProviderReads(c: Cleaned, v: Values)
    requires Fine(c, v) && IsReadable(v.host) && IsReadable(v.apiKey)
    ensures Reads(Rendered(c, v), ["model_providers", "aris-mass", "name"], Str("Aris MaaS"))
    ensures Reads(Rendered(c, v), ["model_providers", "aris-mass", "base_url"], Str(v.host + "/api/openai/v1"))
    ensures Reads(Rendered(c, v), ["model_providers", "aris-mass", "wire_api"], Str("responses"))
    ensures Reads(Rendered(c, v), ["model_providers", "aris-mass", "experimental_bearer_token"], Str(v.apiKey))
  {
    NameReads(c, v);
    BaseUrlReads(c, v);
    WireApiReads(c, v);
    TokenReads(c, v);
    ProviderPaths();
  }

  // --- The model that is taken from the file. ---

  lemma {:induction false} TrimsToText(s: string)
    requires s != "" && s[0] != '"' && s[|s| - 1] != '"'
    ensures TrimQuotesLeft(s + "\"") == s + "\"" && TrimQuotesRight(s + "\"") == s
  {
    assert (s + "\"")[..|s|] == s;
    assert TrimQuotesRight(s) == s;
  }

  lemma {:induction false} TrimmedEndsOtherwise(s: string)
    ensures TrimQuotesRight(s) != "" ==> TrimQuotesRight(s)[|TrimQuotesRight(s)| - 1] != '"'
    ensures TrimQuotesRight(s) <= s
  {
    if s != [] {
      TrimmedEndsOtherwise(s[..|s| - 1]);
    }
  }

  lemma {:induction false} TrimmedStartsOtherwise(s: string)
    ensures TrimQuotesLeft(s) != "" ==> TrimQuotesLeft(s)[0] != '"'
  {
    if s != [] {
      TrimmedStartsOtherwise(s[1..]);
    }
  }

  lemma EscapeEnds(s: string)
    requires s != "" && s[|s| - 1] != '"'
    ensures Escape(s) != "" && Escape(s)[|Escape(s)| - 1] == s[|s| - 1]
  {
    if |s| > 1 {
      EscapeEnds(s[1..]);
    }
  }

  /** Trimming the quotes off a quoted value gives the value exactly if it has no quote in it. */
  lemma TrimOfQuoteIff(s: string)
    ensures TrimQuotes(Quote(s)) == s <==> '"' !in s
  {
    var inner := Escape(s) + "\"";
    assert Quote(s)[1..] == inner;
    TrimmedEndsOtherwise(TrimQuotesLeft(Quote(s)));
    if s == "" {
      assert Quote(s) == "\"\"" && inner[1..] == "";
    } else if s[0] != '"' && s[|s| - 1] != '"' {
      EscapeEnds(s);
      EscapeHead(s);
      TrimsToText(Escape(s));
      EscapeLength(s);
      CountsQuotes(s);
      if '"' !in s {
        NothingToEscape(s);
      }
    } else {
      assert '"' in s;
      if s[0] == '"' {
        EscapeHead(s);
        StartsOtherwise(inner);
      }
    }
  }

  lemma StartsOtherwise(inner: string)
    requires inner != "" && inner[0] == '\\'
    ensures TrimQuotesLeft(inner) == inner
    ensures TrimQuotesRight(inner) != "" ==> TrimQuotesRight(inner)[0] == '\\'
  {
    TrimmedEndsOtherwise(inner);
  }

  /** The model line that an export has written, or one like it, gives its model exactly if that has no quotes. */
  lemma ModelLineGivesIff(s: string)
    ensures ModelValue(Setting(MODEL, Quote(s))) == s <==> '"' !in s
  {
    var line, q := Setting(MODEL, Quote(s)), Quote(s);
    OwnNamesAreKeyNames(MODEL);
    SettingSets(MODEL, MODEL, q);
    EqualsAt(line, q);
    TrimmedQuote(q);
    TrimOfQuoteIff(s);
  }

  lemma EqualsAt(line: string, q: string)
    requires line == Setting(MODEL, q)
    ensures Find(line, "=") == 6 && line[7..] == " " + q
  {
    var front := "model ";
    assert line == front + ("= " + q);
    assert "=" <= line[6..];
    FindIsFirst(line, "=", 6);
    FoundAt(line, "=");
    assert forall i :: 0 <= i < 6 ==> line[i] == front[i] != '=';
    assert line[Find(line, "=") + 0] == '=';
  }

  lemma TrimmedQuote(q: string)
    requires q != "" && q[0] == '"' && q[|q| - 1] == '"'
    ensures TrimSpace(" " + q) == q
  {
    assert (" " + q)[0] == ' ' && (" " + q)[1..] == q;
    assert !IsSpace('"') && TrimLeft(q) == q && TrimLeft(" " + q) == q;
  }

  /** The first such line of a file gives the memory model. */
  lemma FirstModelIsTaken(before: seq<string>, s: string, behind: seq<string>)
    requires (forall line :: line in before ==> !Sets("model", line)) && s != "" && '"' !in s
    ensures MemoryModel(before + (["model = \"" + s + "\""] + behind)) == s
  {
    var line := Setting(MODEL, Quote(s));
    NothingToEscape(s);
    assert line == "model = \"" + s + "\"";
    ModelLineGivesIff(s);
    NoModel(before);
    assert ([line] + behind)[1..] == behind;
    MemoryModelAppend(before, [line] + behind);
  }

  // --- An export. ---

  /** The values are read as they were written, and no value has three single quotes in a row. */
  predicate TargetIsReadable(t: Target) {
    && IsReadable(t.host) && IsReadable(t.apiKey) && (t.models == [] || IsReadable(t.models[0].alias))
    && TargetFits(t)
  }

  predicate IsReadableModel(s: string) {
    IsReadable(s) && Fit(s)
  }

  lemma ValuesArePlain(v: Values)
    requires IsReadable(v.model) && IsReadable(v.host) && IsReadable(v.apiKey)
    requires IsReadableModel(v.memoryModel) && Fits(v)
    ensures WritesBalanced(v)
  {
    OwnIsReadable();
    PlainValuesAreBalanced(v);
  }

  /** What a reader finds at the managed names, in the order they are written. */
  ghost predicate Provides(file: seq<string>, model: string, context: nat, host: string, apiKey: string) {
    && Reads(file, ["model"], Str(model)) && Reads(file, ["model_provider"], Str("aris-mass"))
    && Reads(file, ["model_context_window"], Num(context))
    && Reads(file, ["model_providers", "aris-mass", "name"], Str("Aris MaaS"))
    && Reads(file, ["model_providers", "aris-mass", "base_url"], Str(host + "/api/openai/v1"))
    && Reads(file, ["model_providers", "aris-mass", "wire_api"], Str("responses"))
    && Reads(file, ["model_providers", "aris-mass", "experimental_bearer_token"], Str(apiKey))
  }

  ghost predicate ProvidesMemory(file: seq<string>, model: string) {
    && Reads(file, ["memories", "extract_model"], Str(model))
    && Reads(file, ["memories", "consolidation_model"], Str(model))
  }

  function FirstAlias(models: seq<TargetModel>): string {
    if models == [] then "" else models[0].alias
  }

  function FirstContext(models: seq<TargetModel>): nat {
    if models != [] && models[0].contextLength > 0 then models[0].contextLength else 128000
  }

  lemma RenderedProvides(c: Cleaned, v: Values)
    requires Fine(c, v) && IsReadable(v.model) && IsReadable(v.host) && IsReadable(v.apiKey)
    ensures Provides(Rendered(c, v), v.model, v.context, v.host, v.apiKey)
    ensures c.memories != [] && IsReadable(v.memoryModel) ==> ProvidesMemory(Rendered(c, v), v.memoryModel)
  {
    RootReads(c, v);
    ProviderReads(c, v);
    if c.memories != [] && IsReadable(v.memoryModel) {
      MemoriesRead(c, v);
    }
  }

  /** Where the sections do not disturb what is written, TOML reads from an export at each managed name the
      value it was given, and at the memory keys the model of the original file. */
  lemma ExportProvides(lines: seq<string>, t: Target)
    requires TargetIsReadable(t) && Undisturbed(Clean(lines)) && NoClash(Clean(lines))
    requires Clean(lines).memories == [] || IsReadableModel(MemoryModel(lines))
    ensures Provides(Rewrite(lines, t), FirstAlias(t.models), FirstContext(t.models), t.host, t.apiKey)
    ensures Clean(lines).memories != [] ==> ProvidesMemory(Rewrite(lines, t), MemoryModel(lines))
  {
    var c, v := Clean(lines), ValuesFor(lines, t.host, t.apiKey, t.models);
    NothingFits();
    if c.memories != [] {
      ValuesArePlain(v);
      RenderedProvides(c, v);
    } else {
      var w := v.(memoryModel := "");
      ValuesArePlain(w);
      SameFileIff(c, v, w);
      RenderedProvides(c, w);
    }
  }

  lemma ReadableIsLine(t: Target)
    requires TargetIsReadable(t)
    ensures TargetIsLines(t)
  {
  }

  /** The text that is written has the lines of the export. */
  lemma LinesOfFile(content: string, t: Target)
    requires TargetIsReadable(t)
    ensures Split(WriteText(content, t)) == Rewrite(SplitLines(content), t)
  {
    SplitIsLines(StripReturns(content));
    ReadableIsLine(t);
    ExportIsLines(SplitLines(content), t);
    SplitOfJoin(Rewrite(SplitLines(content), t));
  }

  lemma ExportIsLines(lines: seq<string>, t: Target)
    requires AllLines(lines) && TargetIsLines(t)
    ensures Rewrite(lines, t) != [] && AllLines(Rewrite(lines, t))
  {
    forall line | line in Rewrite(lines, t) ensures IsLine(line) { RewriteIsLines(lines, t, line); }
    LastIsOwn(Clean(lines), ValuesFor(lines, t.host, t.apiKey, t.models));
  }

  /** The same of the text that is written. */
  lemma FileProvides(content: string, t: Target)
    requires TargetIsReadable(t)
    requires var c := Clean(SplitLines(content)); Undisturbed(c) && NoClash(c)
    requires Clean(SplitLines(content)).memories == [] || IsReadableModel(MemoryModel(SplitLines(content)))
    ensures var file := Split(WriteText(content, t));
      && Provides(file, FirstAlias(t.models), FirstContext(t.models), t.host, t.apiKey)
      && (Clean(SplitLines(content)).memories != [] ==> ProvidesMemory(file, MemoryModel(SplitLines(content))))
  {
    LinesOfFile(content, t);
    ExportProvides(SplitLines(content), t);
  }
}
