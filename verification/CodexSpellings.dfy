/** Which lines disturb an export: headers that its expression misses, and managed names in a spelling
    that it does not look for. */
module CodexSpellings {
  import opened Wrappers
  import opened Text
  import opened Regex
  import opened TomlSyntax
  import opened TomlStrings
  import opened TomlLines
  import opened CodexConfig
  import opened CodexRegions
  import opened CodexExport
  import opened CodexLaws
  import opened CodexRight
  import CodexManaged
  import opened CodexEffect

  // --- Headers. ---

  /** No line opens a table. */
  predicate OpensNoTable(p: Place, lines: seq<string>)
    decreases |lines|
  {
    lines == [] || (!IsTable(p, lines[0]) && OpensNoTable(Next(p, lines[0]), lines[1..]))
  }

  /** No line that opens a table is missed by the header expression. */
  predicate MissesNoTable(p: Place, lines: seq<string>)
    decreases |lines|
  {
    lines == [] || ((IsTable(p, lines[0]) ==> IsTableHeader(lines[0])) && MissesNoTable(Next(p, lines[0]), lines[1..]))
  }

  /** A line kept at the top or among the memories is no header to the expressions. */
  lemma KeptIsNoHeader(q: Position, line: string, section: Section)
    requires Move(q, line).1 == Kept(section) && section != Tail && q.delim == NoDelim && !Track(NoDelim, line).1
    ensures !IsTableHeader(line) && line != MEMORIES_LINE
  {
    MemoriesLine();
    HeaderFacts(line);
  }

  lemma TableIsOutside(p: Place, line: string)
    requires IsTable(p, line) && Agrees(p.delim, line)
    ensures p.delim == NoDelim && !Track(NoDelim, line).1
  {
  }

  /** Where the tracker is right, a table that such a section opens is one it has missed. */
  lemma {:induction false} TablesAreMissed(q: Position, p: Place, lines: seq<string>, section: Section)
    requires Stays(q, lines, section) && section != Tail && Right(q, lines) && q.delim == p.delim
    ensures OpensNoTable(p, lines) <==> MissesNoTable(p, lines)
    ensures Last(p, lines).delim == End(q, lines).delim
    ensures if OpensNoTable(p, lines) then Last(p, lines).header == p.header
      else Last(p, lines).header.Some? && Last(p, lines).header.value != MEMORIES_LINE
    decreases |lines|
  {
    if lines != [] {
      if IsTable(p, lines[0]) {
        TableIsOutside(p, lines[0]);
        KeptIsNoHeader(q, lines[0], section);
      }
      TablesAreMissed(Move(q, lines[0]).0, Next(p, lines[0]), lines[1..], section);
    }
  }

  /** The head of a file the tracker is right about leaves the root keys in front of any table exactly if
      it has no table that the header expression misses and no array open at its end. */
  lemma HeadStaysIff(head: seq<string>)
    requires HeadSettled(head) && Right(Start, head)
    ensures Last(Root, head) == Root <==> MissesNoTable(Root, head) && Last(Root, head).depth == 0
  {
    TablesAreMissed(Start, Root, head, Head);
  }

  lemma MemoriesStayIff(memories: seq<string>)
    requires MemoriesSettled(memories) && Right(InMemories, memories)
    ensures Last(AtMemories, memories) == AtMemories
       <==> MissesNoTable(AtMemories, memories) && Last(AtMemories, memories).depth == 0
  {
    TablesAreMissed(InMemories, AtMemories, memories, Memories);
  }

  // --- Keys. ---

  lemma {:induction false} BlanksInFront(s: string) returns (w: string)
    ensures s == w + SkipBlanks(s) && Matches(Spaces, w)
  {
    if s != [] && s[0] in {' ', '\t'} {
      var more := BlanksInFront(s[1..]);
      w := [s[0]] + more;
      assert [s[0]] + s[1..] == s;
      InSpaces(s[0], more);
    } else {
      w := "";
    }
  }

  lemma InSpaces(c: char, more: string)
    requires c in {' ', '\t'} && Matches(Spaces, more)
    ensures Matches(Spaces, [c] + more)
  {
    var s := [c] + more;
    assert s[..1] == [c] && s[1..] == more && Matches(OneOf(WS), [c]);
  }

  lemma KeyFits(w: string, name: string, w': string, more: string)
    requires Matches(Spaces, w) && Matches(Spaces, w')
    ensures Sets(name, w + (name + (w' + ("=" + more))))
  {
    var key := w + (name + (w' + "="));
    InSequence(Spaces, Lit("="), w', "=");
    InSequence(Lit(name), Cat(Spaces, Lit("=")), name, w' + "=");
    InSequence(Spaces, Cat(Lit(name), Cat(Spaces, Lit("="))), w, name + (w' + "="));
    InFront(w, name, w', "=", more);
  }

  lemma InFront(a: string, b: string, c: string, d: string, e: string)
    ensures var all, front := a + (b + (c + (d + e))), a + (b + (c + d));
      |front| <= |all| && all[..|front|] == front
  {
  }

  lemma OneBareKey(s: string, name: string) returns (w: string, more: string)
    requires DottedKey(s).Dotted? && DottedKey(s).path == [name] && s[0] !in QUOTES
    requires DottedKey(s).rest != [] && DottedKey(s).rest[0] == '='
    ensures Matches(Spaces, w) && s == name + (w + ("=" + more))
  {
    var rest := s[|BareName(s)|..];
    BareParts(s, name, rest);
    w := BlanksInFront(rest);
    more := SkipBlanks(rest)[1..];
    EqualsFirst(SkipBlanks(rest));
  }

  lemma EqualsFirst(s: string)
    requires s != [] && s[0] == '='
    ensures s == "=" + s[1..]
  {
  }

  lemma BareParts(s: string, name: string, rest: string)
    requires DottedKey(s).Dotted? && DottedKey(s).path == [name] && s[0] !in QUOTES && rest == s[|BareName(s)|..]
    ensures s == name + rest && DottedKey(s).rest == SkipBlanks(rest)
  {
    assert SimpleKey(s) == Part(BareName(s), rest);
  }

  /** A bare spelling of a name is what the key expression looks for. */
  lemma BareIsSeen(name: string, line: string)
    requires KeyOf(line) == Some([name]) && SkipBlanks(line)[0] !in QUOTES
    ensures Sets(name, line)
  {
    var w := BlanksInFront(line);
    var w', more := OneBareKey(SkipBlanks(line), name);
    KeyFits(w, name, w', more);
  }

  /** The line sets the key, or something in it, in a form that the key expressions do not see: in quotes,
      with a dotted key, or with a value that opens a multi-line string. */
  predicate Respells(line: string, name: string) {
    && KeyOf(line).Some? && KeyOf(line).value[0] == name
    && (Track(NoDelim, line).1 || SkipBlanks(line)[0] in QUOTES || |KeyOf(line).value| > 1)
  }

  /** The names that are removed from a section. */
  predicate IsRemoved(section: Section, name: string) {
    (section == Head && name in ROOT_KEYS) || (section == Memories && name in MEMORY_KEYS)
  }

  /** A kept line that sets a key that should have been removed spells it otherwise. */
  lemma KeptKeyIsSpelledOtherwise(q: Position, line: string, section: Section, name: string)
    requires Move(q, line).1 == Kept(section) && q.delim == NoDelim && IsRemoved(section, name)
    ensures KeyOf(line).Some? && KeyOf(line).value[0] == name <==> Respells(line, name)
  {
    if KeyOf(line).Some? && KeyOf(line).value[0] == name && !Respells(line, name) {
      assert KeyOf(line).value == [name];
      BareIsSeen(name, line);
    }
  }

  /** No line that starts an expression does so. */
  predicate RespellsNone(p: Place, lines: seq<string>, name: string)
    decreases |lines|
  {
    lines == [] || ((Outside(p) ==> !Respells(lines[0], name)) && RespellsNone(Next(p, lines[0]), lines[1..], name))
  }

  lemma KeyHits(p: Place, table: Path, line: string, name: string)
    requires !IsTable(p, line) && TableAt(p) == Some(table)
    ensures Hits(p, line, Meets(table + [name])) <==>
      Outside(p) && KeyOf(line).Some? && KeyOf(line).value[0] == name
  {
    if KeyOf(line).Some? {
      var path := KeyOf(line).value;
      InTheTable(table, name, path);
    }
  }

  lemma InTheTable(table: Path, name: string, path: Path)
    requires path != []
    ensures Related(table + [name], table + path) <==> path[0] == name
  {
    var n := |table|;
    assert (table + path)[n] == path[0] && (table + [name])[n] == name;
    if path[0] == name {
      assert (table + path)[..n + 1] == table + [name];
    }
  }

  /** Where no table is opened, the key is met exactly if it is spelled otherwise. */
  lemma {:induction false} MetIffRespelled(q: Position, p: Place, table: Path, lines: seq<string>, section: Section,
                                           name: string)
    requires Stays(q, lines, section) && Right(q, lines) && q.delim == p.delim && IsRemoved(section, name)
    requires OpensNoTable(p, lines) && TableAt(p) == Some(table)
    ensures Count(p, lines, Meets(table + [name])) == 0 <==> RespellsNone(p, lines, name)
    decreases |lines|
  {
    if lines != [] {
      KeyHits(p, table, lines[0], name);
      if Outside(p) {
        KeptKeyIsSpelledOtherwise(q, lines[0], section, name);
      }
      MetIffRespelled(Move(q, lines[0]).0, Next(p, lines[0]), table, lines[1..], section, name);
    }
  }

  /** The sections of a file the tracker is right about, read alone. */
  lemma SectionsFit(lines: seq<string>)
    requires Tidy(Start, lines) && Closed(End(Start, lines)) && Right(Start, lines)
    ensures var c := Clean(lines);
      && HeadSettled(c.head) && Right(Start, c.head) && MemoriesSettled(c.memories) && Right(InMemories, c.memories)
  {
    CleanSettles(lines);
    CleanIsRight(lines);
  }

  /** The key is set in front of any table, and once as far as the keys just written. */
  predicate RootKeyOnce(c: Cleaned, v: Values, name: string) {
    Last(Root, HeadPart(c)) == Root && Count(Root, HeadPart(c) + RootBlock(v), Meets([name])) == 1
  }

  /** On a file the tracker is right about, a root key is set once in front of any table exactly if the head
      has no table that the header expression misses, no array open at its end, and no line that
      spells the key otherwise. */
  lemma RootKeyOnceIff(lines: seq<string>, v: Values, name: string)
    requires Tidy(Start, lines) && Closed(End(Start, lines)) && Right(Start, lines)
    requires name in ROOT_KEYS && Balanced(RootBlock(v))
    ensures var head := Clean(lines).head;
      RootKeyOnce(Clean(lines), v, name) <==>
        MissesNoTable(Root, head) && Last(Root, head).depth == 0 && RespellsNone(Root, head, name)
  {
    var c := Clean(lines);
    SectionsFit(lines);
    HeadPartLike(c, Meets([name]));
    HeadStaysIff(c.head);
    if Last(Root, c.head) == Root {
      MetInHead(c.head, name);
      WithOneMore(Root, HeadPart(c), RootBlock(v), Meets([name]));
      RootBlockOwn(v, Meets([name]));
    }
  }

  lemma MetInHead(head: seq<string>, name: string)
    requires HeadSettled(head) && Right(Start, head) && MissesNoTable(Root, head) && name in ROOT_KEYS
    ensures Count(Root, head, Meets([name])) == 0 <==> RespellsNone(Root, head, name)
  {
    TablesAreMissed(Start, Root, head, Head);
    assert [] + [name] == [name];
    MetIffRespelled(Start, Root, [], head, Head, name);
  }

  lemma MetInMemories(memories: seq<string>, name: string)
    requires MemoriesSettled(memories) && Right(InMemories, memories)
    requires MissesNoTable(AtMemories, memories) && name in MEMORY_KEYS
    ensures Count(AtMemories, memories, Meets([MEMORIES, name])) == 0 <==> RespellsNone(AtMemories, memories, name)
  {
    TablesAreMissed(InMemories, AtMemories, memories, Memories);
    MemoriesLineOpens();
    assert MEMORIES_PATH + [name] == [MEMORIES, name];
    MetIffRespelled(InMemories, AtMemories, MEMORIES_PATH, memories, Memories, name);
  }

  lemma WithOneMore(p: Place, a: seq<string>, b: seq<string>, mark: TomlLines.Mark)
    requires Last(p, a) == p
    ensures Count(p, b, mark) == 1 ==> (Count(p, a + b, mark) == 1 <==> Count(p, a, mark) == 0)
  {
    CountAppend(p, a, b, mark);
  }

  /** The key is set in the memories table, and once there. */
  predicate MemoryKeyOnce(c: Cleaned, v: Values, name: string) {
    && Last(AtMemories, c.memories) == AtMemories
    && Count(AtMemories, c.memories + MemoryBlock(v), Meets([MEMORIES, name])) == 1
  }

  lemma MemoryBlockHas(v: Values, name: string)
    requires name in MEMORY_KEYS && Balanced(MemoryBlock(v))
    ensures Count(AtMemories, MemoryBlock(v), Meets([MEMORIES, name])) == 1
  {
    MemoryBlockOwn(v, Meets([MEMORIES, name]));
  }

  /** And a memory key in its table. */
  lemma MemoryKeyOnceIff(lines: seq<string>, v: Values, name: string)
    requires Tidy(Start, lines) && Closed(End(Start, lines)) && Right(Start, lines)
    requires name in MEMORY_KEYS && Balanced(MemoryBlock(v))
    ensures var memories := Clean(lines).memories;
      MemoryKeyOnce(Clean(lines), v, name) <==>
        && MissesNoTable(AtMemories, memories) && Last(AtMemories, memories).depth == 0
        && RespellsNone(AtMemories, memories, name)
  {
    var memories, mark := Clean(lines).memories, Meets([MEMORIES, name]);
    SectionsFit(lines);
    MemoriesStayIff(memories);
    if Last(AtMemories, memories) == AtMemories {
      MetInMemories(memories, name);
      WithOneMore(AtMemories, memories, MemoryBlock(v), mark);
      MemoryBlockHas(v, name);
    }
  }

  // --- A file of one kept line. ---

  /** A line that the clean-up of a file keeps at the top, and that leaves nothing open. */
  predicate IsKept(line: string) {
    IsBalanced(line) && !IsTableHeader(line) && !IsRootModelKey(line) && !IsBlank(line)
  }

  lemma OneLineIsHead(line: string)
    requires IsKept(line)
    ensures Tidy(Start, [line]) && End(Start, [line]) == Start && Right(Start, [line])
    ensures Clean([line]) == Cleaned([line], [], [])
  {
    assert [line][1..] == [] && Move(Start, line) == (Start, Kept(Head));
    SingleIsRight(Start, line);
    StaysIsTidy(Start, [line], Head, Head);
    StaysIsTidy(Start, [line], Head, Tail);
    StaysIsTidy(Start, [line], Head, Memories);
    forall section { CleanFollows(Begin, Start, [line], section); }
  }

  lemma KeyStays(line: string, mark: TomlLines.Mark)
    requires IsBalanced(line) && KeyOf(line).Some? && !("[" <= SkipBlanks(line))
    ensures Last(Root, [line]) == Root
    ensures mark.Meets? && Related(mark.path, KeyOf(line).value) ==> Count(Root, [line], mark) == 1
  {
    BalancedStays(Root, line);
    CountOne(Root, line, mark);
    assert [] + KeyOf(line).value == KeyOf(line).value;
  }

  lemma HeadOnly(lines: seq<string>, v: Values, mark: TomlLines.Mark)
    requires Last(Root, lines) == Root && ManagedName(mark) && WritesBalanced(v)
    ensures var c := Cleaned(lines, [], []);
      Undisturbed(c) && Count(Root, Rendered(c, v), mark) == Own(c, mark) + Count(Root, lines, mark)
  {
    CountOfRendered(Cleaned(lines, [], []), v, mark);
  }

  lemma NotInEffect(c: Cleaned, v: Values, mark: TomlLines.Mark)
    requires ManagedName(mark) && Count(Root, Rendered(c, v), mark) != Own(c, mark)
    ensures !InEffect(c, v)
  {
    assert !OnlyOwn(c, v, mark);
  }

  /** A key that is kept beside a managed name it meets: the name is there once more than it should be. */
  lemma KeptKeyMeets(line: string, v: Values, mark: TomlLines.Mark)
    requires IsKept(line) && KeyOf(line).Some? && !("[" <= SkipBlanks(line))
    requires ManagedName(mark) && mark.Meets? && Related(mark.path, KeyOf(line).value) && WritesBalanced(v)
    ensures var c := Clean([line]);
      && Count(Root, Rendered(c, v), mark) == Own(c, mark) + 1 && !InEffect(c, v)
  {
    OneLineIsHead(line);
    KeyStays(line, mark);
    HeadOnly([line], v, mark);
    NotInEffect(Cleaned([line], [], []), v, mark);
  }

  lemma FirstCharacter(line: string)
    requires line != [] && line[0] !in WS && line[0] != '[' && !IsSpace(line[0])
    ensures !IsTableHeader(line) && !IsBlank(line) && !("[" <= SkipBlanks(line)) && SkipBlanks(line) == line
  {
    NotAHeader(line);
    if IsBlank(line) {
      BlankIsSpace(line);
    }
  }

  function QuotedKeyLine(name: string, value: string): string {
    "\"" + (name + ("\"" + ("=" + value)))
  }

  lemma KeyOfQuoted(name: string, value: string)
    requires IsPlain(name)
    ensures KeyOf(QuotedKeyLine(name, value)) == Some([name])
  {
    var line, end := QuotedKeyLine(name, value), "=" + value;
    BasicStringOf(name, end);
    assert line[1..] == name + ("\"" + end) && SkipBlanks(end) == end && SkipBlanks(line) == line;
    assert SimpleKey(line) == Part(name, end);
    assert DottedKey(line) == Dotted([name], end);
  }

  lemma {:induction false} NotWithTail(text: string, tail: string, mark: string)
    requires mark != [] && mark[|mark| - 1] !in tail && Find(text, mark) < 0
    ensures Find(text + tail, mark) < 0
  {
    if tail == [] {
      assert text + tail == text;
    } else {
      var n := |tail| - 1;
      assert tail[n] in tail && forall c :: c in tail[..n] ==> c in tail;
      NotWithTail(text, tail[..n], mark);
      NotWithEnd(text + tail[..n], tail[n], mark);
      assert text + tail == text + tail[..n] + [tail[n]];
    }
  }

  lemma QuotedKeyText(name: string, value: string)
    requires IsPlain(name)
    ensures QuotedKeyLine(name, value) == Quote(name) + ("=" + value) && "" + Quote(name) == Quote(name)
    ensures QuotedKeyLine(name, value) == "" + (Quote(name) + ("=" + value))
    ensures '\'' !in Quote(name)
  {
    NothingToEscape(name);
  }

  lemma QuotedKeyIsSingle(name: string, value: string)
    requires IsPlain(name) && IsQuiet(value)
    ensures Single(QuotedKeyLine(name, value))
  {
    var end := "=" + value;
    QuotedKeyText(name, value);
    NoTripleQuotes("", name);
    NotInEither("=", value, '"');
    NotInEither("=", value, '\'');
    NotWithTail(Quote(name), end, BASIC);
    NotInEither(Quote(name), end, '\'');
    NoMark(Quote(name) + end, LITERAL);
  }

  lemma QuotedKeyIsClosed(name: string, value: string)
    requires IsPlain(name) && IsQuiet(value)
    ensures Depth(Bare, 0, QuotedKeyLine(name, value)) == 0
  {
    var end := "=" + value;
    QuotedKeyText(name, value);
    DepthOfQuoted("", name, end, 0);
    assert forall c :: c in end ==> c == '=' || c in value;
    DepthOfQuiet(end, 0);
  }

  lemma QuotedKeyIsKept(name: string, value: string)
    requires IsPlain(name) && IsQuiet(value)
    ensures IsKept(QuotedKeyLine(name, value)) && !("[" <= SkipBlanks(QuotedKeyLine(name, value)))
  {
    var line := QuotedKeyLine(name, value);
    QuotedKeyIsSingle(name, value);
    QuotedKeyIsClosed(name, value);
    FirstCharacter(line);
    SetsNoOtherKey(MODEL, line);
    SetsNoOtherKey(MODEL_PROVIDER, line);
    SetsNoOtherKey(MODEL_CONTEXT_WINDOW, line);
  }

  lemma KeyNameIsPlain(name: string)
    requires IsKeyName(name)
    ensures IsPlain(name)
  {
  }

  /** A root key that the file has in quotes: the export keeps it, and TOML has the key twice. */
  lemma QuotedKeyIsDoubled(name: string, value: string, v: Values)
    requires name in ROOT_KEYS && IsQuiet(value) && WritesBalanced(v)
    ensures var c := Clean([QuotedKeyLine(name, value)]);
      && c.head == [QuotedKeyLine(name, value)]
      && Count(Root, Rendered(c, v), Meets([name])) == 2 && !InEffect(c, v)
  {
    OwnNamesAreKeyNames(name);
    KeyNameIsPlain(name);
    KeyOfQuoted(name, value);
    QuotedKeyIsKept(name, value);
    OneLineIsHead(QuotedKeyLine(name, value));
    KeptKeyMeets(QuotedKeyLine(name, value), v, Meets([name]));
  }

  /** A setting of the provider with a dotted key, spaces aside. */
  function DottedKeyLine(key: string, value: string): string {
    PROVIDERS + ("." + (PROVIDER_ID + ("." + (key + ("=" + value)))))
  }

  lemma KeyOfDotted(a: string, b: string, c: string, value: string)
    requires IsBareName(a) && IsBareName(b) && IsBareName(c)
    ensures KeyOf(a + ("." + (b + ("." + (c + ("=" + value)))))) == Some([a, b, c])
  {
    var eq := "=" + value;
    var third := c + eq;
    var second := b + ("." + third);
    BareKey(c, eq);
    assert ("." + third)[1..] == third;
    BareKey(b, "." + third);
    assert [b] + [c] == [b, c];
    assert ("." + second)[1..] == second;
    BareKey(a, "." + second);
    assert [a] + [b, c] == [a, b, c];
  }

  lemma DottedKeyIsQuiet(key: string, value: string)
    requires IsBareName(key) && IsQuiet(value)
    ensures IsQuiet(DottedKeyLine(key, value))
  {
    ProviderIdIsBare();
    forall c | c in DottedKeyLine(key, value) ensures c !in {'"', '\'', '#', '[', ']'} {
      assert c in PROVIDERS || c == '.' || c in PROVIDER_ID || c in key || c == '=' || c in value;
    }
  }

  lemma DottedKeyIsKept(key: string, value: string)
    requires IsBareName(key) && IsQuiet(value)
    ensures IsKept(DottedKeyLine(key, value)) && !("[" <= SkipBlanks(DottedKeyLine(key, value)))
  {
    var line := DottedKeyLine(key, value);
    DottedKeyIsQuiet(key, value);
    PlainIsSingle(line);
    DepthOfQuiet(line, 0);
    DottedKeySetsNothing(key, value);
    FirstCharacter(line);
  }

  lemma DottedKeySetsNothing(key: string, value: string)
    ensures !IsRootModelKey(DottedKeyLine(key, value)) && DottedKeyLine(key, value)[0] == 'm'
  {
    var line := DottedKeyLine(key, value);
    assert line[0] == 'm' && line[5] == PROVIDERS[5] == '_' && line[6] == PROVIDERS[6] == 'p';
    assert line[14] == PROVIDERS[14] == 's';
    assert |MODEL| == 5 && |MODEL_PROVIDER| == 14 && MODEL_CONTEXT_WINDOW[6] == 'c';
    SetsNoOtherKey(MODEL, line);
    SetsNoOtherKey(MODEL_PROVIDER, line);
    SetsNoOtherKey(MODEL_CONTEXT_WINDOW, line);
  }

  lemma KeyOfProviderKey(key: string, value: string)
    requires IsBareName(key)
    ensures KeyOf(DottedKeyLine(key, value)) == Some([PROVIDERS, PROVIDER_ID, key])
    ensures Related(PROVIDER_PATH, [PROVIDERS, PROVIDER_ID, key])
  {
    ProviderIdIsBare();
    KeyOfDotted(PROVIDERS, PROVIDER_ID, key, value);
  }

  lemma ProviderIdIsBare()
    ensures IsBareName(PROVIDERS) && IsBareName(PROVIDER_ID)
  {
    ProviderNamesArePlain();
  }

  /** A setting of the provider in a dotted key: the export keeps it beside the table it writes. */
  lemma DottedKeyMeetsProvider(key: string, value: string, v: Values)
    requires IsBareName(key) && IsQuiet(value) && WritesBalanced(v)
    ensures var c := Clean([DottedKeyLine(key, value)]);
      Count(Root, Rendered(c, v), Meets(PROVIDER_PATH)) == 6 && !InEffect(c, v)
  {
    var line := DottedKeyLine(key, value);
    KeyOfProviderKey(key, value);
    DottedKeyIsKept(key, value);
    ProviderOwn(Clean([line]));
    KeptKeyMeets(line, v, Meets(PROVIDER_PATH));
  }

  lemma ProviderOwn(c: Cleaned)
    ensures ManagedName(Meets(PROVIDER_PATH)) && Own(c, Meets(PROVIDER_PATH)) == 5
  {
  }

  // --- A table that the header expression misses. ---

  /** Every match has the character. */
  predicate Needs(r: Re, c: char) {
    match r
    case Lit(l) => c in l
    case Cat(a, b) => Needs(a, c) || Needs(b, c)
    case Alt(a, b) => Needs(a, c) && Needs(b, c)
    case _ => false
  }

  /** Every match without that character is made of those. */
  predicate Within(r: Re, cs: set<char>, without: char) {
    Needs(r, without) ||
    match r
    case Lit(l) => forall c :: c in l ==> c in cs
    case OneOf(x) => x <= cs
    case Dot => false
    case Cat(a, b) => Within(a, cs, without) && Within(b, cs, without)
    case Alt(a, b) => Within(a, cs, without) && Within(b, cs, without)
    case Opt(p) => Within(p, cs, without)
    case Star(p) => Within(p, cs, without)
  }

  lemma {:induction false} NeedsIt(r: Re, c: char, s: string)
    requires Needs(r, c) && Matches(r, s)
    ensures c in s
  {
    match r {
      case Cat(a, b) =>
        var x, y := Parts(a, b, s);
        if Needs(a, c) { NeedsIt(a, c, x); } else { NeedsIt(b, c, y); }
      case Alt(a, b) =>
        if Matches(a, s) { NeedsIt(a, c, s); } else { NeedsIt(b, c, s); }
      case _ =>
    }
  }

  lemma {:induction false} MadeOf(r: Re, cs: set<char>, without: char, s: string)
    requires Within(r, cs, without) && Matches(r, s) && without !in s
    ensures forall c :: c in s ==> c in cs
    decreases r, |s|
  {
    if Needs(r, without) {
      NeedsIt(r, without, s);
    } else {
      match r {
        case Cat(a, b) =>
          var x, y := Parts(a, b, s);
          MadeOf(a, cs, without, x);
          MadeOf(b, cs, without, y);
        case Alt(a, b) =>
          if Matches(a, s) { MadeOf(a, cs, without, s); } else { MadeOf(b, cs, without, s); }
        case Opt(p) =>
          if s != [] { MadeOf(p, cs, without, s); }
        case Star(p) =>
          if s != [] {
            var i :| 1 <= i <= |s| && Matches(p, s[..i]) && Matches(r, s[i..]);
            MadeOf(p, cs, without, s[..i]);
            MadeOf(r, cs, without, s[i..]);
            assert s == s[..i] + s[i..];
          }
        case _ =>
      }
    }
  }

  /** What a header that the expression matches is made of, comments aside. */
  const HEADER_CHARS := NAME.cs + WS + {'[', ']', '.'}

  /** Without a comment, of those. */
  predicate Fits(r: Re) {
    Within(r, HEADER_CHARS, '#')
  }

  lemma CatFits(a: Re, b: Re)
    requires Fits(a) && Fits(b)
    ensures Fits(Cat(a, b))
  {
  }

  lemma RepeatFits(r: Re)
    requires Fits(r)
    ensures Fits(Opt(r)) && Fits(Star(r))
  {
  }

  lemma AtomsFit()
    ensures Fits(Lit("[")) && Fits(Lit("]")) && Fits(Lit(".")) && Fits(NAME) && Fits(OneOf(WS))
    ensures Fits(Cat(Lit("#"), Star(Dot)))
  {
    assert Needs(Lit("#"), '#');
  }

  lemma CloseFits()
    ensures Fits(Spaces) && Fits(Close)
  {
    AtomsFit();
    RepeatFits(OneOf(WS));
    RepeatFits(Cat(Lit("#"), Star(Dot)));
    CatFits(Spaces, Opt(Cat(Lit("#"), Star(Dot))));
    RepeatFits(Lit("]"));
    CatFits(Opt(Lit("]")), LineEnd);
    CatFits(Lit("]"), Cat(Opt(Lit("]")), LineEnd));
    CatFits(Spaces, Cat(Lit("]"), Cat(Opt(Lit("]")), LineEnd)));
  }

  lemma NamesFit()
    ensures Fits(Regex.Plus(NAME)) && Fits(Star(DottedName))
  {
    AtomsFit();
    CloseFits();
    RepeatFits(NAME);
    CatFits(NAME, Star(NAME));
    CatFits(Spaces, Regex.Plus(NAME));
    CatFits(Lit("."), Cat(Spaces, Regex.Plus(NAME)));
    CatFits(Spaces, Cat(Lit("."), Cat(Spaces, Regex.Plus(NAME))));
    RepeatFits(DottedName);
  }

  lemma HeaderIsMadeOf(line: string)
    requires IsTableHeader(line) && '#' !in line
    ensures forall c :: c in line ==> c in HEADER_CHARS
  {
    AtomsFit();
    CloseFits();
    NamesFit();
    var names := Cat(Star(DottedName), Close);
    CatFits(Star(DottedName), Close);
    CatFits(Regex.Plus(NAME), names);
    CatFits(Spaces, Cat(Regex.Plus(NAME), names));
    RepeatFits(Lit("["));
    CatFits(Opt(Lit("[")), Cat(Spaces, Cat(Regex.Plus(NAME), names)));
    CatFits(Lit("["), Cat(Opt(Lit("[")), Cat(Spaces, Cat(Regex.Plus(NAME), names))));
    CatFits(Spaces, Cat(Lit("["), Cat(Opt(Lit("[")), Cat(Spaces, Cat(Regex.Plus(NAME), names)))));
    MadeOf(TableHeader, HEADER_CHARS, '#', line);
  }

  /** A character of a table name that the expression does not provide for. */
  predicate IsForeign(c: char) {
    c !in HEADER_CHARS
  }

  /** A table whose quoted name has such a character is missed. */
  lemma ForeignIsMissed(word: string, s: string)
    requires IsBareName(word) && IsPlain(s) && exists c :: c in s && IsForeign(c)
    ensures !IsTableHeader(TableLine(word, s))
  {
    var line := TableLine(word, s);
    NothingToEscape(s);
    forall c | c in line ensures c != '#' {
      assert c in word || c in s || c in "[.]\"";
    }
    var c :| c in s && IsForeign(c);
    assert c in line;
    if IsTableHeader(line) {
      HeaderIsMadeOf(line);
    }
  }

  lemma MissedIsKept(word: string, s: string)
    requires IsBareName(word) && IsPlain(s) && !IsTableHeader(TableLine(word, s))
    ensures IsKept(TableLine(word, s))
  {
    TableLineOpens(word, s);
    assert TableLine(word, s)[0] == '[';
    BracketSetsNothing(TableLine(word, s));
  }

  lemma BracketSetsNothing(line: string)
    requires line != [] && line[0] == '['
    ensures !IsRootModelKey(line) && !IsBlank(line)
  {
    SetsNoOtherKey(MODEL, line);
    SetsNoOtherKey(MODEL_PROVIDER, line);
    SetsNoOtherKey(MODEL_CONTEXT_WINDOW, line);
    if IsBlank(line) {
      BlankIsSpace(line);
    }
  }

  lemma TableTakesRootKeys(table: string, path: Path, v: Values, mark: TomlLines.Mark)
    requires HeaderPath(table) == Some(path) && WritesBalanced(v) && |path| == 2 && path[0] !in ROOT_KEYS
    requires mark.Meets? && |mark.path| == 1 && mark.path[0] in ROOT_KEYS
    ensures var p := Place(Some(table), NoDelim, 0);
      Last(p, RootBlock(v)) == p && Count(p, RootBlock(v), mark) == 0
  {
    var p := Place(Some(table), NoDelim, 0);
    var s := RootBlock(v);
    assert IsBalanced(s[0]) && IsBalanced(s[1]) && IsBalanced(s[2]);
    KeyInTable(p, path, MODEL, Quote(v.model), mark);
    KeyInTable(p, path, MODEL_PROVIDER, Quote(PROVIDER_ID), mark);
    KeyInTable(p, path, MODEL_CONTEXT_WINDOW, Itoa(v.context), mark);
    CountThree(p, s[0], s[1], s[2], mark);
  }

  lemma KeyInTable(p: Place, path: Path, name: string, value: string, mark: TomlLines.Mark)
    requires Outside(p) && TableAt(p) == Some(path) && |path| == 2 && path[0] !in ROOT_KEYS && name in ROOT_KEYS
    requires IsBalanced(Setting(name, value)) && mark.Meets? && |mark.path| == 1 && mark.path[0] in ROOT_KEYS
    ensures Still(p, Setting(name, value)) && !Hits(p, Setting(name, value), mark)
  {
    OwnNamesAreKeyNames(name);
    SettingLine(p, path, name, value, mark);
    var full := path + [name];
    assert |full| == 3 && full[0] == path[0];
  }

  lemma TableInFront(line: string, path: Path, mark: TomlLines.Mark)
    requires IsBalanced(line) && HeaderPath(line) == Some(path) && "[" <= SkipBlanks(line) && |path| == 2
    requires mark.Meets? && |mark.path| == 1 && mark.path[0] != path[0]
    ensures var c := Cleaned([line], [], []);
      Last(Root, HeadPart(c)) == Place(Some(line), NoDelim, 0) && Count(Root, HeadPart(c), mark) == 0
  {
    HeadPartLike(Cleaned([line], [], []), mark);
    BalancedStays(Root, line);
    CountOne(Root, line, mark);
  }

  lemma NothingAtTheRoot(c: Cleaned, table: string, path: Path, v: Values, mark: TomlLines.Mark)
    requires c.tail == c.memories == [] && HeaderPath(table) == Some(path) && WritesBalanced(v)
    requires |path| == 2 && path[0] !in ROOT_KEYS && ManagedName(mark) && mark.Meets? && |mark.path| == 1
    requires Last(Root, HeadPart(c)) == Place(Some(table), NoDelim, 0) && Count(Root, HeadPart(c), mark) == 0
    ensures Count(Root, Rendered(c, v), mark) == 0
  {
    var p := Place(Some(table), NoDelim, 0);
    BlocksInTable(table, path, v, mark);
    HeadAlone(c, v);
    CountAppend(Root, HeadPart(c), RootBlock(v) + ProviderPart(v), mark);
  }

  lemma HeadAlone(c: Cleaned, v: Values)
    requires c.tail == c.memories == []
    ensures Rendered(c, v) == HeadPart(c) + (RootBlock(v) + ProviderPart(v))
  {
    assert TailPart(c) + (MemoriesPart(c, v) + ProviderPart(v)) == ProviderPart(v);
  }

  lemma BlocksInTable(table: string, path: Path, v: Values, mark: TomlLines.Mark)
    requires HeaderPath(table) == Some(path) && WritesBalanced(v) && |path| == 2 && path[0] !in ROOT_KEYS
    requires ManagedName(mark) && mark.Meets? && |mark.path| == 1
    ensures Count(Place(Some(table), NoDelim, 0), RootBlock(v) + ProviderPart(v), mark) == 0
  {
    var p := Place(Some(table), NoDelim, 0);
    RootNameOf(mark);
    TableTakesRootKeys(table, path, v, mark);
    ProviderPartOwn(p, v, mark);
    CountAppend(p, RootBlock(v), ProviderPart(v), mark);
  }

  lemma RootNameOf(mark: TomlLines.Mark)
    requires ManagedName(mark) && mark.Meets? && |mark.path| == 1
    ensures mark.path[0] in ROOT_KEYS && mark != Meets(PROVIDER_PATH)
  {
  }

  /** A table that is missed, on a file that has nothing else: it is kept in front of the root keys, and
      TOML reads them as keys of that table. No root key is set. */
  lemma MissedTableTakesTheKeys(word: string, s: string, v: Values, name: string)
    requires IsBareName(word) && IsPlain(s) && !IsTableHeader(TableLine(word, s)) && word !in ROOT_KEYS
    requires name in ROOT_KEYS && WritesBalanced(v)
    ensures var line := TableLine(word, s);
      var c := Clean([line]);
      && Tidy(Start, [line]) && End(Start, [line]) == Start && Right(Start, [line])
      && c.head == [line] && TableAt(Last(Root, HeadPart(c))) == Some([word, s])
      && Count(Root, Rendered(c, v), Meets([name])) == 0 && !InEffect(c, v)
  {
    var line, c := TableLine(word, s), Cleaned([TableLine(word, s)], [], []);
    MissedIsKept(word, s);
    OneLineIsHead(line);
    TableLineOpens(word, s);
    TableInFront(line, [word, s], Meets([name]));
    NothingAtTheRoot(c, line, [word, s], v, Meets([name]));
  }

  const PROJECTS := "projects"
  const HOME := "/home/u"

  lemma ProjectFacts()
    ensures IsBareName(PROJECTS) && PROJECTS !in ROOT_KEYS
    ensures IsPlain(HOME) && '/' in HOME && IsForeign('/')
  {
    assert |MODEL| == 5 && |MODEL_PROVIDER| == 14 && |MODEL_CONTEXT_WINDOW| == 20 && |PROJECTS| == 8;
    assert HOME[0] == '/';
  }

  /** Such as [projects."/home/u"], a table that Codex keeps for a project, named after its directory. */
  lemma ProjectTableIsMissed(v: Values, name: string)
    requires WritesBalanced(v) && name in ROOT_KEYS
    ensures var c := Clean([TableLine(PROJECTS, HOME)]);
      c.head == [TableLine(PROJECTS, HOME)] && Count(Root, Rendered(c, v), Meets([name])) == 0 && !InEffect(c, v)
  {
    ProjectFacts();
    ForeignIsMissed(PROJECTS, HOME);
    MissedTableTakesTheKeys(PROJECTS, HOME, v, name);
  }

  // --- A key between two comments. ---

  lemma CommentIsNothing(line: string, name: string)
    requires line != [] && line[0] == '#' && IsKeyName(name)
    ensures !IsTableHeader(line) && !Sets(name, line) && !IsBlank(line)
    ensures KeyOf(line) == None && Depth(Bare, 0, line) == 0 && !("[" <= SkipBlanks(line))
  {
    NotAHeader(line);
    assert name[0] in name && name[0] != line[0];
    SetsNoOtherKey(name, line);
    assert line[|line|..] == [] && SkipBlanks(line) == line;
    if IsBlank(line) {
      BlankIsSpace(line);
    }
  }

  lemma ThreeMoves(p: Position, q: Position, a: string, b: string, mark: CodexManaged.Mark)
    requires Move(p, a) == (q, Kept(Head)) && Move(q, b) == (q, Kept(Head)) && Move(q, a) == (p, Kept(Head))
    requires !CodexManaged.Hits(p, a, mark) && !CodexManaged.Hits(q, b, mark) && !CodexManaged.Hits(q, a, mark)
    ensures Stays(p, [a, b, a], Head) && End(p, [a, b, a]) == p && CodexManaged.Count(p, [a, b, a], mark) == 0
  {
    assert [a, b, a][1..] == [b, a] && [b, a][1..] == [a] && [a][1..] == [];
    assert Stays(p, [], Head) && Stays(q, [a], Head) && Stays(q, [b, a], Head);
    assert End(p, []) == p && End(q, [a]) == p && End(q, [b, a]) == p;
    assert CodexManaged.Count(q, [a], mark) == 0 && CodexManaged.Count(q, [b, a], mark) == 0;
  }

  lemma ReadAsText(comment: string, line: string, d: Delim, name: string)
    requires Track(NoDelim, comment) == (d, true) && Track(d, comment) == (NoDelim, true) && d != NoDelim
    requires !IsBlank(comment) && !Sets(name, comment) && Single(line)
    ensures var lines := [comment, line, comment];
      && Tidy(Start, lines) && End(Start, lines) == Start && Clean(lines) == Cleaned(lines, [], [])
      && CodexManaged.Count(Start, lines, CodexManaged.KeyIn(Top, name)) == 0
  {
    var lines := [comment, line, comment];
    assert Track(d, line) == (d, true);
    ThreeMoves(Start, Position(Top, d), comment, line, CodexManaged.KeyIn(Top, name));
    StaysIsTidy(Start, lines, Head, Head);
    StaysIsTidy(Start, lines, Head, Tail);
    StaysIsTidy(Start, lines, Head, Memories);
    forall section { CleanFollows(Begin, Start, lines, section); }
    assert lines[|lines| - 1] == comment;
  }

  lemma HiddenKeyCounts(comment: string, line: string, name: string)
    requires TomlAfter(NoDelim, comment) == NoDelim && Depth(Bare, 0, comment) == 0 && KeyOf(comment) == None
    requires !("[" <= SkipBlanks(comment)) && Still(Root, line) && Hits(Root, line, Meets([name]))
    ensures Last(Root, [comment, line, comment]) == Root && Count(Root, [comment, line, comment], Meets([name])) == 1
  {
    CountThree(Root, comment, line, comment, Meets([name]));
  }

  lemma SettingAtTheRoot(name: string, value: string)
    requires IsKeyName(name) && IsQuiet(value)
    ensures IsBalanced(Setting(name, value)) && Still(Root, Setting(name, value))
    ensures Hits(Root, Setting(name, value), Meets([name]))
  {
    var line := Setting(name, value);
    forall c | c in line ensures c !in {'"', '\'', '#', '[', ']'} {
      assert c in name || c == ' ' || c == '=' || c in value;
    }
    PlainIsSingle(line);
    DepthOfQuiet(line, 0);
    SettingLine(Root, [], name, value, Meets([name]));
    assert [] + [name] == [name];
  }

  /** A root key between two comments with a mark: the clean-up takes it for text of a string and keeps
      it, and TOML has the key twice. */
  lemma CommentsHideAKey(text: string, d: Delim, name: string, value: string, v: Values)
    requires '"' !in text && '\'' !in text && d != NoDelim && name in ROOT_KEYS && IsQuiet(value) && WritesBalanced(v)
    ensures var lines := [CommentWith(text, d), Setting(name, value), CommentWith(text, d)];
      && Tidy(Start, lines) && End(Start, lines) == Start && Clean(lines).head == lines
      && CodexManaged.Count(Start, lines, CodexManaged.KeyIn(Top, name)) == 0
      && Count(Root, lines, Meets([name])) == 1
      && Count(Root, Rendered(Clean(lines), v), Meets([name])) == 2 && !InEffect(Clean(lines), v)
  {
    var comment, line := CommentWith(text, d), Setting(name, value);
    OwnNamesAreKeyNames(name);
    CommentFacts(text, d);
    CommentIsNothing(comment, name);
    SettingAtTheRoot(name, value);
    ReadAsText(comment, line, d, name);
    HiddenKeyCounts(comment, line, name);
    HeadOnly([comment, line, comment], v, Meets([name]));
    NotInEffect(Cleaned([comment, line, comment], [], []), v, Meets([name]));
  }
}
