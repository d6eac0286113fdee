/** Exporting to a Codex configuration, again and again. */
module CodexTarget {
  import opened Text
  import opened Lines
  import opened TomlSyntax
  import opened CodexConfig
  import opened CodexRegions
  import opened CodexExport
  import opened CodexLaws
  import opened TargetModels

  const DEFAULT_CONTEXT := 128000

  // --- The model of the memories table. ---

  function TrimQuotes(s: string): string {
    TrimQuotesRight(TrimQuotesLeft(s))
  }

  function TrimQuotesLeft(s: string): string {
    if s != [] && s[0] == '"' then TrimQuotesLeft(s[1..]) else s
  }

  function TrimQuotesRight(s: string): string {
    if s != [] && s[|s| - 1] == '"' then TrimQuotesRight(s[..|s| - 1]) else s
  }

  /** What a line sets the model to; empty if it does not set it. */
  function ModelValue(line: string): string {
    var k := Find(line, "=");
    if Sets(MODEL, line) && k >= 0 then TrimQuotes(TrimSpace(line[k + 1..])) else ""
  }

  /** The first model of the file, in whatever table, or nothing. */
  function MemoryModel(lines: seq<string>): string {
    if lines == [] then "" else if ModelValue(lines[0]) != "" then ModelValue(lines[0]) else MemoryModel(lines[1..])
  }

  lemma NextModel(lines: seq<string>, i: nat)
    requires i < |lines|
    ensures MemoryModel(lines[i..])
         == if ModelValue(lines[i]) != "" then ModelValue(lines[i]) else MemoryModel(lines[i + 1..])
  {
    assert lines[i..][0] == lines[i] && lines[i..][1..] == lines[i + 1..];
  }

  method CodexMemoryModel(lines: seq<string>) returns (model: string)
    ensures model == MemoryModel(lines)
  {
    for i := 0 to |lines|
      invariant MemoryModel(lines) == MemoryModel(lines[i..])
    {
      NextModel(lines, i);
      if Sets(MODEL, lines[i]) {
        var k := Find(lines[i], "=");
        if k >= 0 {
          var v := TrimQuotes(TrimSpace(lines[i][k + 1..]));
          if v != "" {
            return v;
          }
        }
      }
    }
    return "";
  }

  lemma {:induction false} MemoryModelAppend(a: seq<string>, b: seq<string>)
    ensures MemoryModel(a + b) == if MemoryModel(a) != "" then MemoryModel(a) else MemoryModel(b)
  {
    if a == [] {
      assert a + b == b;
    } else {
      assert (a + b)[1..] == a[1..] + b;
      MemoryModelAppend(a[1..], b);
    }
  }

  // --- An export, on lines. ---

  /** The values an export is given; the memory model comes from the file. */
  function ValuesFor(lines: seq<string>, host: string, apiKey: string, models: seq<TargetModel>): Values {
    Values(
      if models == [] then "" else models[0].alias,
      if models != [] && models[0].contextLength > 0 then models[0].contextLength else DEFAULT_CONTEXT,
      MemoryModel(lines), host, apiKey)
  }

  function Export(lines: seq<string>, host: string, apiKey: string, models: seq<TargetModel>): seq<string> {
    Rendered(Clean(lines), ValuesFor(lines, host, apiKey, models))
  }

  lemma {:induction false} NoModel(lines: seq<string>)
    requires forall i :: 0 <= i < |lines| ==> !Sets(MODEL, lines[i])
    ensures MemoryModel(lines) == ""
  {
    if lines != [] {
      NoModel(lines[1..]);
    }
  }

  lemma MemoryBlockHasNoModel(v: Values)
    ensures MemoryModel(MemoryBlock(v)) == ""
  {
    NamesDiffer();
    OwnNamesAreKeyNames(MODEL);
    OwnNamesAreKeyNames(EXTRACT_MODEL);
    OwnNamesAreKeyNames(CONSOLIDATION_MODEL);
    SettingSets(MODEL, EXTRACT_MODEL, Quote(v.memoryModel));
    SettingSets(MODEL, CONSOLIDATION_MODEL, Quote(v.memoryModel));
    NoModel(MemoryBlock(v));
  }

  lemma NamesDiffer()
    ensures MODEL !in MEMORY_KEYS
  {
    assert MODEL[0] == 'm' && EXTRACT_MODEL[0] == 'e' && CONSOLIDATION_MODEL[0] == 'c';
  }

  /** What the memory model is set to does not show in the memory model of the file. */
  lemma MemoryModelOfRendered(c: Cleaned, v: Values, w: Values)
    requires w == v.(memoryModel := w.memoryModel)
    ensures MemoryModel(Rendered(c, v)) == MemoryModel(Rendered(c, w))
  {
    MemoryModelOfMemories(c, v, w);
    MemoryModelAppend(MemoriesPart(c, v), ProviderPart(v));
    MemoryModelAppend(MemoriesPart(c, w), ProviderPart(w));
    var endV, endW := MemoriesPart(c, v) + ProviderPart(v), MemoriesPart(c, w) + ProviderPart(w);
    MemoryModelAppend(TailPart(c), endV);
    MemoryModelAppend(TailPart(c), endW);
    MemoryModelAppend(RootBlock(v), TailPart(c) + endV);
    MemoryModelAppend(RootBlock(w), TailPart(c) + endW);
    MemoryModelAppend(HeadPart(c), RootBlock(v) + (TailPart(c) + endV));
    MemoryModelAppend(HeadPart(c), RootBlock(w) + (TailPart(c) + endW));
  }

  lemma MemoryModelOfMemories(c: Cleaned, v: Values, w: Values)
    ensures MemoryModel(MemoriesPart(c, v)) == MemoryModel(MemoriesPart(c, w))
  {
    if c.memories != [] {
      MemoryModelAppend(["", MEMORIES_LINE], c.memories + MemoryBlock(v));
      MemoryModelAppend(["", MEMORIES_LINE], c.memories + MemoryBlock(w));
      MemoryModelAppend(c.memories, MemoryBlock(v));
      MemoryModelAppend(c.memories, MemoryBlock(w));
      MemoryBlockHasNoModel(v);
      MemoryBlockHasNoModel(w);
    }
  }

  // --- The memory model is fit to be written. ---

  lemma PartOfPart(s: string, i: nat, j: nat, k: nat, mark: string)
    requires i + k <= j <= |s| && mark <= s[i..j][k..]
    ensures mark <= s[i + k..]
  {
    assert s[i..j][k..] == s[i + k..][..j - i - k];
  }

  lemma {:induction false} FitPart(s: string, i: nat, j: nat)
    requires i <= j <= |s| && Fit(s)
    ensures Fit(s[i..j])
  {
    var k := Find(s[i..j], LITERAL);
    if k >= 0 {
      FindIsThere(s[i..j], LITERAL);
      PartOfPart(s, i, j, k, LITERAL);
      FindIsFirst(s, LITERAL, i + k);
    }
  }

  lemma {:induction false} TrimmedIsPart(s: string)
    requires Fit(s)
    ensures Fit(TrimLeft(s)) && Fit(TrimRight(s)) && Fit(TrimQuotesLeft(s)) && Fit(TrimQuotesRight(s))
    decreases |s|
  {
    if s != [] {
      FitPart(s, 1, |s|);
      FitPart(s, 0, |s| - 1);
      assert s[1..|s|] == s[1..] && s[0..|s| - 1] == s[..|s| - 1];
      TrimmedIsPart(s[1..]);
      TrimmedIsPart(s[..|s| - 1]);
    }
  }

  lemma ModelValueFits(line: string)
    requires Sets(MODEL, line) ==> Fit(line)
    ensures Fit(ModelValue(line))
  {
    var k := Find(line, "=");
    if Sets(MODEL, line) && k >= 0 {
      FitPart(line, k + 1, |line|);
      var v := line[k + 1..];
      assert line[k + 1..|line|] == v;
      TrimmedIsPart(v);
      TrimmedIsPart(TrimLeft(v));
      TrimmedIsPart(TrimSpace(v));
      TrimmedIsPart(TrimQuotesLeft(TrimSpace(v)));
    } else {
      NothingFits();
    }
  }

  lemma NothingFits()
    ensures Fit("")
  {
  }

  /** No line that sets a model has three single quotes in a row. */
  predicate ModelsFit(lines: seq<string>) {
    forall line :: line in lines && Sets(MODEL, line) ==> Fit(line)
  }

  lemma {:induction false} MemoryModelFits(lines: seq<string>)
    requires ModelsFit(lines)
    ensures Fit(MemoryModel(lines))
  {
    if lines == [] {
      NothingFits();
    } else {
      assert lines[0] in lines && forall line :: line in lines[1..] ==> line in lines;
      ModelValueFits(lines[0]);
      MemoryModelFits(lines[1..]);
    }
  }

  // --- What an exported file is made of. ---

  lemma {:induction false} KeptAreLines(st: State, lines: seq<string>, section: Section)
    ensures forall line :: line in KeptLines(st, lines, section) ==> line in lines
    decreases |lines|
  {
    if lines != [] {
      KeptAreLines(Step(st, lines[0]).0, lines[1..], section);
      assert forall line :: line in lines <==> line == lines[0] || line in lines[1..];
    }
  }

  lemma {:induction false} TrimmedAreLines(lines: seq<string>)
    ensures forall line :: line in Trimmed(lines) ==> line in lines
  {
    if lines != [] && IsBlank(lines[|lines| - 1]) {
      TrimmedAreLines(lines[..|lines| - 1]);
    }
  }

  lemma CleanedAreLines(lines: seq<string>)
    ensures forall line ::
      line in Clean(lines).head || line in Clean(lines).tail || line in Clean(lines).memories ==> line in lines
  {
    KeptAreLines(Begin, lines, Head);
    KeptAreLines(Begin, lines, Tail);
    KeptAreLines(Begin, lines, Memories);
    TrimmedAreLines(KeptLines(Begin, lines, Head));
    TrimmedAreLines(KeptLines(Begin, lines, Tail));
    TrimmedAreLines(KeptLines(Begin, lines, Memories));
  }

  /** The settings, headers and gaps of an export. */
  predicate IsOwn(v: Values, line: string) {
    || line in RootBlock(v) || line in MemoryBlock(v) || line in ProviderSettings(v)
    || line in ["", MEMORIES_LINE, PROVIDER_LINE]
  }

  lemma RenderedLines(c: Cleaned, v: Values)
    ensures forall line :: line in Rendered(c, v) ==>
      IsOwn(v, line) || line in c.head || line in c.tail || line in c.memories
  {
    forall line | line in Rendered(c, v)
      ensures IsOwn(v, line) || line in c.head || line in c.tail || line in c.memories
    {
      if line in HeadPart(c) {
      } else if line in TailPart(c) {
      } else if line in MemoriesPart(c, v) {
      } else if line in ProviderPart(v) {
      } else {
        assert line in RootBlock(v);
      }
    }
  }

  lemma OwnModelFits(v: Values, line: string)
    requires Fits(v) && IsOwn(v, line) && Sets(MODEL, line)
    ensures Fit(line)
  {
    OwnModelIs(v, line);
    OwnNamesAreKeyNames(MODEL);
    QuotedSettingIsSingle(MODEL, v.model);
  }

  lemma OwnModelIs(v: Values, line: string)
    requires IsOwn(v, line) && Sets(MODEL, line)
    ensures line == RootBlock(v)[0]
  {
    NoOwnHeaderSetsModel();
    NotInThree(line, "", MEMORIES_LINE, PROVIDER_LINE);
    NoOtherSetsModel(v);
    OnlyOneSets(line, RootBlock(v), MemoryBlock(v), ProviderSettings(v));
  }

  lemma NotInThree(line: string, a: string, b: string, c: string)
    requires Sets(MODEL, line) && !Sets(MODEL, a) && !Sets(MODEL, b) && !Sets(MODEL, c)
    ensures line !in [a, b, c]
  {
  }

  lemma OnlyOneSets(line: string, root: seq<string>, memory: seq<string>, provider: seq<string>)
    requires root != [] && NoneSetsModel(root[1..]) && NoneSetsModel(memory) && NoneSetsModel(provider)
    requires line in root || line in memory || line in provider
    requires Sets(MODEL, line)
    ensures line == root[0]
  {
    assert line !in memory && line !in provider;
    FirstOrRest(line, root);
  }

  lemma OtherSetting(name: string, value: string)
    requires name in ROOT_KEYS + MEMORY_KEYS + PROVIDER_KEYS && name != MODEL
    ensures !Sets(MODEL, Setting(name, value))
  {
    OwnNamesAreKeyNames(name);
    OwnNamesAreKeyNames(MODEL);
    SettingSets(MODEL, name, value);
  }

  predicate NoneSetsModel(lines: seq<string>) {
    forall line :: line in lines ==> !Sets(MODEL, line)
  }

  lemma FirstOrRest(line: string, lines: seq<string>)
    requires line in lines
    ensures line == lines[0] || line in lines[1..]
  {
  }

  lemma TwoSetNoModel(a: string, b: string)
    requires !Sets(MODEL, a) && !Sets(MODEL, b)
    ensures NoneSetsModel([a, b])
  {
  }

  lemma FourSetNoModel(a: string, b: string, c: string, d: string)
    requires !Sets(MODEL, a) && !Sets(MODEL, b) && !Sets(MODEL, c) && !Sets(MODEL, d)
    ensures NoneSetsModel([a, b, c, d])
  {
  }

  lemma NoOtherSetsModel(v: Values)
    ensures NoneSetsModel(RootBlock(v)[1..]) && NoneSetsModel(MemoryBlock(v)) && NoneSetsModel(ProviderSettings(v))
  {
    NoProviderSettingSetsModel(v);
    NoOtherRootLineSetsModel(v);
    NamesDiffer();
    OtherSetting(EXTRACT_MODEL, Quote(v.memoryModel));
    OtherSetting(CONSOLIDATION_MODEL, Quote(v.memoryModel));
    TwoSetNoModel(MemoryBlock(v)[0], MemoryBlock(v)[1]);
  }

  lemma NoOtherRootLineSetsModel(v: Values)
    ensures NoneSetsModel(RootBlock(v)[1..])
  {
    OtherSetting(MODEL_PROVIDER, Quote(PROVIDER_ID));
    OtherSetting(MODEL_CONTEXT_WINDOW, Itoa(v.context));
    var s := RootBlock(v);
    TwoSetNoModel(s[1], s[2]);
    assert s[1..] == [s[1], s[2]];
  }

  lemma NoProviderSettingSetsModel(v: Values)
    ensures NoneSetsModel(ProviderSettings(v))
  {
    OtherSetting(NAME_KEY, Quote(PROVIDER_NAME));
    OtherSetting(BASE_URL, Quote(v.host + PROXY_PREFIX));
    OtherSetting(WIRE_API_KEY, Quote(WIRE_API));
    OtherSetting(BEARER_TOKEN, Quote(v.apiKey));
    var s := ProviderSettings(v);
    FourSetNoModel(s[0], s[1], s[2], s[3]);
  }

  lemma NoOwnHeaderSetsModel()
    ensures !Sets(MODEL, "") && !Sets(MODEL, MEMORIES_LINE) && !Sets(MODEL, PROVIDER_LINE)
  {
    BlankIsNothing("");
    MemoriesLine();
    HeaderIsNoManagedKey(MEMORIES_LINE);
    ProviderLine();
    HeaderIsNoManagedKey(PROVIDER_LINE);
  }

  lemma RenderedModelsFit(lines: seq<string>, v: Values)
    requires ModelsFit(lines) && Fits(v)
    ensures ModelsFit(Rendered(Clean(lines), v))
  {
    RenderedLines(Clean(lines), v);
    CleanedAreLines(lines);
    forall line | line in Rendered(Clean(lines), v) && Sets(MODEL, line) ensures Fit(line) {
      if IsOwn(v, line) {
        OwnModelFits(v, line);
      }
    }
  }

  predicate Writable(line: string) {
    IsLine(line) && !EndsInReturn(line)
  }

  lemma {:induction false} EscapeIsLine(s: string)
    requires IsLine(s)
    ensures IsLine(Escape(s))
  {
    if s != [] {
      assert s[0] in s && forall c :: c in s[1..] ==> c in s;
      EscapeIsLine(s[1..]);
    }
  }

  lemma SettingIsWritable(name: string, value: string)
    requires name in ROOT_KEYS + MEMORY_KEYS + PROVIDER_KEYS
    requires IsLine(value) && value != [] && !EndsInReturn(value)
    ensures Writable(Setting(name, value))
  {
    OwnNamesAreKeyNames(name);
    assert Setting(name, value)[|Setting(name, value)| - 1] == value[|value| - 1];
  }

  lemma QuotedIsWritable(name: string, value: string)
    requires name in ROOT_KEYS + MEMORY_KEYS + PROVIDER_KEYS && IsLine(value)
    ensures Writable(Setting(name, Quote(value)))
  {
    EscapeIsLine(value);
    SettingIsWritable(name, Quote(value));
  }

  predicate ValuesAreLines(v: Values) {
    IsLine(v.model) && IsLine(v.memoryModel) && IsLine(v.host) && IsLine(v.apiKey)
  }

  predicate AllWritable(lines: seq<string>) {
    forall line :: line in lines ==> Writable(line)
  }

  lemma RootBlockIsWritable(v: Values)
    requires ValuesAreLines(v)
    ensures AllWritable(RootBlock(v))
  {
    QuotedIsWritable(MODEL, v.model);
    QuotedIsWritable(MODEL_PROVIDER, PROVIDER_ID);
    ContextIsWritable(v.context);
  }

  lemma ContextIsWritable(n: nat)
    ensures Writable(Setting(MODEL_CONTEXT_WINDOW, Itoa(n)))
  {
    DigitsOnly(n);
    SettingIsWritable(MODEL_CONTEXT_WINDOW, Itoa(n));
  }

  lemma MemoryBlockIsWritable(v: Values)
    requires ValuesAreLines(v)
    ensures AllWritable(MemoryBlock(v))
  {
    QuotedIsWritable(EXTRACT_MODEL, v.memoryModel);
    QuotedIsWritable(CONSOLIDATION_MODEL, v.memoryModel);
  }

  lemma FourWritable(a: string, b: string, c: string, d: string)
    requires Writable(a) && Writable(b) && Writable(c) && Writable(d)
    ensures AllWritable([a, b, c, d])
  {
  }

  lemma NameLineIsWritable()
    ensures Writable(Setting(NAME_KEY, Quote(PROVIDER_NAME)))
  {
    QuotedIsWritable(NAME_KEY, PROVIDER_NAME);
  }

  lemma WireApiLineIsWritable()
    ensures Writable(Setting(WIRE_API_KEY, Quote(WIRE_API)))
  {
    QuotedIsWritable(WIRE_API_KEY, WIRE_API);
  }

  lemma BaseUrlLineIsWritable(v: Values)
    requires IsLine(v.host)
    ensures Writable(Setting(BASE_URL, Quote(v.host + PROXY_PREFIX)))
  {
    QuotedIsWritable(BASE_URL, v.host + PROXY_PREFIX);
  }

  lemma TokenLineIsWritable(v: Values)
    requires IsLine(v.apiKey)
    ensures Writable(Setting(BEARER_TOKEN, Quote(v.apiKey)))
  {
    QuotedIsWritable(BEARER_TOKEN, v.apiKey);
  }

  lemma ProviderSettingsAreWritable(v: Values)
    requires ValuesAreLines(v)
    ensures AllWritable(ProviderSettings(v))
  {
    NameLineIsWritable();
    WireApiLineIsWritable();
    BaseUrlLineIsWritable(v);
    TokenLineIsWritable(v);
    var s := ProviderSettings(v);
    FourWritable(s[0], s[1], s[2], s[3]);
  }

  lemma MemoriesLineIsWritable()
    ensures Writable("") && Writable(MEMORIES_LINE)
  {
  }

  lemma BracketIsWritable(before: string, s: string)
    requires IsLine(before) && IsLine(s)
    ensures Writable(before + Quote(s) + "]")
  {
    EscapeIsLine(s);
  }

  lemma HeadersAreWritable()
    ensures Writable("") && Writable(MEMORIES_LINE) && Writable(PROVIDER_LINE)
  {
    MemoriesLineIsWritable();
    BracketIsWritable("[" + "model_providers" + ".", PROVIDER_ID);
  }
}
