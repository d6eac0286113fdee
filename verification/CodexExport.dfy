/** The Codex configuration that an export writes. */
module CodexExport {
  import opened Text
  import opened TomlSyntax
  import opened CodexConfig
  import opened CodexRegions

  const PROVIDER_NAME := "Aris MaaS"
  const PROXY_PREFIX := "/api/openai/v1"

  const WIRE_API := "responses"

  const MODEL := "model"
  const MODEL_PROVIDER := "model_provider"
  const MODEL_CONTEXT_WINDOW := "model_context_window"
  const EXTRACT_MODEL := "extract_model"
  const CONSOLIDATION_MODEL := "consolidation_model"

  const NAME_KEY := "name"
  const BASE_URL := "base_url"
  const WIRE_API_KEY := "wire_api"
  const BEARER_TOKEN := "experimental_bearer_token"

  const ROOT_KEYS := {MODEL, MODEL_PROVIDER, MODEL_CONTEXT_WINDOW}
  const MEMORY_KEYS := {EXTRACT_MODEL, CONSOLIDATION_MODEL}
  const PROVIDER_KEYS := {NAME_KEY, BASE_URL, WIRE_API_KEY, BEARER_TOKEN}

  /** The values that are written; context is in tokens. */
  datatype Values = Values(model: string, context: nat, memoryModel: string, host: string, apiKey: string)

  function Setting(name: string, value: string): string {
    name + " =" + (" " + value)
  }

  function RootBlock(v: Values): seq<string> {
    [
      Setting(MODEL, Quote(v.model)),
      Setting(MODEL_PROVIDER, Quote(PROVIDER_ID)),
      Setting(MODEL_CONTEXT_WINDOW, Itoa(v.context))
    ]
  }

  function ProviderSettings(v: Values): seq<string> {
    [
      Setting(NAME_KEY, Quote(PROVIDER_NAME)),
      Setting(BASE_URL, Quote(v.host + PROXY_PREFIX)),
      Setting(WIRE_API_KEY, Quote(WIRE_API)),
      Setting(BEARER_TOKEN, Quote(v.apiKey))
    ]
  }

  function MemoryBlock(v: Values): seq<string> {
    [
      Setting(EXTRACT_MODEL, Quote(v.memoryModel)),
      Setting(CONSOLIDATION_MODEL, Quote(v.memoryModel))
    ]
  }

  /** Without the blank lines at its end. */
  function Trimmed(lines: seq<string>): seq<string> {
    if lines != [] && IsBlank(lines[|lines| - 1]) then Trimmed(lines[..|lines| - 1]) else lines
  }

  method TrimTrailingBlank(lines: seq<string>) returns (r: seq<string>)
    ensures r == Trimmed(lines)
  {
    r := lines;
    while |r| > 0 && TrimSpace(r[|r| - 1]) == ""
      invariant Trimmed(r) == Trimmed(lines)
    {
      r := r[..|r| - 1];
    }
  }

  datatype Cleaned = Cleaned(head: seq<string>, tail: seq<string>, memories: seq<string>)

  function Clean(lines: seq<string>): Cleaned {
    Cleaned(
      Trimmed(KeptLines(Begin, lines, Head)),
      Trimmed(KeptLines(Begin, lines, Tail)),
      Trimmed(KeptLines(Begin, lines, Memories)))
  }

  // --- The parts of the file, in order. ---

  function HeadPart(c: Cleaned): seq<string> {
    c.head + if c.head == [] then [] else [""]
  }

  function TailPart(c: Cleaned): seq<string> {
    if c.tail == [] then [] else [""] + c.tail
  }

  function MemoriesPart(c: Cleaned, v: Values): seq<string> {
    if c.memories == [] then [] else ["", MEMORIES_LINE] + (c.memories + MemoryBlock(v))
  }

  function ProviderPart(v: Values): seq<string> {
    ["", PROVIDER_LINE] + ProviderSettings(v)
  }

  function Rendered(c: Cleaned, v: Values): seq<string> {
    HeadPart(c) + (RootBlock(v) + (TailPart(c) + (MemoriesPart(c, v) + ProviderPart(v))))
  }

  // --- The lines that are written. ---

  /** Characters of the names written. */
  predicate IsKeyName(name: string) {
    name != [] && forall c :: c in name ==> 'a' <= c <= 'z' || c == '_'
  }

  lemma PrefixOfSetting(other: string, name: string, value: string)
    requires IsKeyName(other) && IsKeyName(name) && other <= Setting(name, value)
    ensures other <= name
  {
    var line := Setting(name, value);
    assert line[..|name|] == name && line[|name|] == ' ';
    assert forall i :: 0 <= i < |other| ==> other[i] == line[i] && other[i] in other;
  }

  lemma SettingSets(other: string, name: string, value: string)
    requires IsKeyName(other) && IsKeyName(name)
    ensures Sets(other, Setting(name, value)) <==> other == name
  {
    var line := Setting(name, value);
    if other == name {
      SetsItsKey(name, " " + value);
    } else {
      var k := |other|;
      assert line[0] == name[0] && name[0] in name;
      if other <= line {
        PrefixOfSetting(other, name, value);
        assert k < |name| && line[k] == name[k] && name[k] in name;
      }
      SetsNoOtherKey(other, line);
    }
  }

  lemma SettingIsNoHeader(name: string, value: string)
    requires IsKeyName(name)
    ensures !IsTableHeader(Setting(name, value))
    ensures !IsProviderHeader(Setting(name, value)) && !IsLegacyHeader(Setting(name, value))
    ensures !IsMemoriesHeader(Setting(name, value))
  {
    assert Setting(name, value)[0] == name[0] && name[0] in name;
    NotAHeader(Setting(name, value));
  }

  predicate Fit(value: string) {
    Find(value, LITERAL) < 0
  }

  lemma EscapedFirst(s: string)
    requires s != [] && s[0] == '"'
    ensures Escape(s)[1] == '"' && Escape(s)[1..][0] == '"'
  {
  }

  lemma {:induction false} EscapeStaysFit(s: string, k: nat)
    requires k <= |Escape(s)| && LITERAL <= Escape(s)[k..]
    ensures !Fit(s)
  {
    if k == 0 {
      assert Escape(s)[0] == '\'' && Escape(s)[1] == '\'' && Escape(s)[2] == '\'';
      assert Escape(s)[1..] == Escape(s[1..]);
      assert Escape(s[1..])[1..] == Escape(s[2..]);
      assert s[..3] == LITERAL;
      assert s[0..] == s;
      FindIsFirst(s, LITERAL, 0);
    } else {
      var first := if s[0] == '"' then ['\\', '"'] else [s[0]];
      if k < |first| {
        EscapedFirst(s);
      } else {
        assert Escape(s)[k..] == Escape(s[1..])[k - |first|..];
        EscapeStaysFit(s[1..], k - |first|);
        var j := Find(s[1..], LITERAL);
        FindIsThere(s[1..], LITERAL);
        assert s[j + 1..] == s[1..][j..];
        FindIsFirst(s, LITERAL, j + 1);
      }
    }
  }

  lemma QuotedSettingIsSingle(name: string, value: string)
    requires IsKeyName(name) && Fit(value)
    ensures Single(Setting(name, Quote(value))) && Fit(Setting(name, Quote(value)))
  {
    if Find(Escape(value), LITERAL) >= 0 {
      FindIsThere(Escape(value), LITERAL);
      EscapeStaysFit(value, Find(Escape(value), LITERAL));
    }
    var before := name + " =" + " ";
    assert Setting(name, Quote(value)) == before + Quote(value);
    QuotedIsSingle(before, value);
  }

  lemma {:induction false} DigitsOnly(n: nat)
    ensures forall c :: c in Itoa(n) ==> '0' <= c <= '9'
  {
    if n >= 10 {
      DigitsOnly(n / 10);
    }
  }

  lemma PlainFits(value: string)
    requires '\'' !in value
    ensures Fit(value)
  {
    NoMark(value, LITERAL);
  }

  lemma PlainIsSingle(line: string)
    requires '"' !in line && '\'' !in line
    ensures Single(line)
  {
    NoMark(line, BASIC);
    NoMark(line, LITERAL);
  }

  lemma ContextIsSingle(name: string, n: nat)
    requires IsKeyName(name)
    ensures Single(Setting(name, Itoa(n)))
  {
    DigitsOnly(n);
    var line := Setting(name, Itoa(n));
    forall c | c in line ensures c != '"' && c != '\'' {
      assert c in name || c in " =" || c in " " || c in Itoa(n);
    }
    PlainIsSingle(line);
  }
}
