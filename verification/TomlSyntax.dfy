/** The line classes and line builders of the Codex configuration. */
module TomlSyntax {
  import opened Wrappers
  import opened Text
  import opened Regex

  const PROVIDER_ID := "aris-mass"
  const LEGACY_PROVIDER_ID := "aris-proxy"

  const LETTERS: set<char> := set c: char | 'A' <= c <= 'Z' || 'a' <= c <= 'z' || '0' <= c <= '9'
  const NAME := OneOf(LETTERS + {'_', '.', '"', '\'', '-'})

  /** Optional space, then nothing or a comment. */
  const LineEnd := Cat(Spaces, Opt(Cat(Lit("#"), Star(Dot))))

  const DottedName := Cat(Spaces, Cat(Lit("."), Cat(Spaces, Plus(NAME))))

  const Close := Cat(Spaces, Cat(Lit("]"), Cat(Opt(Lit("]")), LineEnd)))

  /** Any table header, arrays of tables included. */
  const TableHeader :=
    Cat(Spaces, Cat(Lit("["), Cat(Opt(Lit("[")), Cat(Spaces, Cat(Plus(NAME), Cat(Star(DottedName), Close))))))

  /** A word with an optional pair of quotes around it. */
  function Quoted(word: string): Re {
    Cat(Opt(Lit("\"")), Cat(Lit(word), Opt(Lit("\""))))
  }

  /** The rest of a header: a word, quoted or not, and the closing bracket. */
  function Inside(word: string): Re {
    Cat(Spaces, Cat(Quoted(word), Cat(Spaces, Cat(Lit("]"), LineEnd))))
  }

  function ProviderTable(id: string): Re {
    Cat(Spaces, Cat(Lit("["), Cat(Spaces, Cat(Lit("model_providers"), Cat(Spaces, Cat(Lit("."), Inside(id)))))))
  }

  const ProfilesTable := Cat(Spaces, Cat(Lit("["), Cat(Spaces, Cat(Lit("profiles"), Cat(Spaces, Lit("."))))))

  const MemoriesTable := Cat(Spaces, Cat(Lit("["), Inside("memories")))

  /** A line that sets the key of that name. */
  function Key(name: string): Re {
    Cat(Spaces, Cat(Lit(name), Cat(Spaces, Lit("="))))
  }

  predicate IsTableHeader(line: string) { Matches(TableHeader, line) }

  predicate IsProviderHeader(line: string) { Matches(ProviderTable(PROVIDER_ID), line) }

  predicate IsLegacyHeader(line: string) { Matches(ProviderTable(LEGACY_PROVIDER_ID), line) }

  predicate IsProfilesHeader(line: string) { MatchesPrefix(ProfilesTable, line) }

  predicate IsMemoriesHeader(line: string) { Matches(MemoriesTable, line) }

  predicate Sets(name: string, line: string) { MatchesPrefix(Key(name), line) }

  predicate IsRootModelKey(line: string) {
    Sets("model", line) || Sets("model_provider", line) || Sets("model_context_window", line)
  }

  predicate IsMemoryModelKey(line: string) {
    Sets("extract_model", line) || Sets("consolidation_model", line)
  }

  // --- Lines that cannot be headers. ---

  /** Only lines whose first visible character is a bracket are headers. */
  lemma NotAHeader(line: string)
    requires line == [] || (line[0] !in WS && line[0] != '[')
    ensures !IsTableHeader(line) && !IsProviderHeader(line) && !IsLegacyHeader(line) && !IsMemoriesHeader(line)
  {
    if Matches(TableHeader, line) {
      StartsVisible(TableHeader.b, line);
      LiteralFirst("[", TableHeader.b.b, line);
    }
    if Matches(MemoriesTable, line) {
      StartsVisible(MemoriesTable.b, line);
      LiteralFirst("[", MemoriesTable.b.b, line);
    }
    forall id | Matches(ProviderTable(id), line) ensures false {
      StartsVisible(ProviderTable(id).b, line);
      LiteralFirst("[", ProviderTable(id).b.b, line);
    }
  }

  /** A key is set by name = ..., and by no line that starts visibly with something else. */
  lemma SetsItsKey(name: string, rest: string)
    ensures Sets(name, name + " =" + rest)
  {
    var line := name + " =" + rest;
    assert Matches(OneOf(WS), " ");
    AllOneOf(WS, " ");
    InSequence(Spaces, Lit("="), " ", "=");
    assert " " + "=" == " =";
    InSequence(Lit(name), Cat(Spaces, Lit("=")), name, " =");
    NothingFirst(Spaces, Cat(Lit(name), Cat(Spaces, Lit("="))), name + " =");
    assert line[..|name| + 2] == name + " =";
  }

  lemma VisibleFirst(l: string, b: Re, s: string)
    requires l != [] && l[0] !in WS && Matches(Cat(Spaces, Cat(Lit(l), b)), s)
    ensures Visible(s) == Some(l[0])
  {
    var x, y := SpacedLiteral(l, b, s);
    SpacesHide(x, l + y);
  }

  /** A header sets no key. */
  lemma HeaderSetsNoKey(name: string, line: string)
    requires IsTableHeader(line) && name != [] && name[0] !in WS && name[0] != '['
    ensures !Sets(name, line)
  {
    VisibleFirst("[", TableHeader.b.b, line);
    if Sets(name, line) {
      var i :| 0 <= i <= |line| && Matches(Key(name), line[..i]);
      VisibleFirst(name, Key(name).b.b, line[..i]);
      VisibleOfPrefix(line, i);
    }
  }

  lemma PrefixChars(s: string, i: nat)
    requires i <= |s|
    ensures forall c :: c in s[..i] ==> c in s
  {
  }

  lemma MiddleIn(x: string, l: string, y: string)
    requires l != []
    ensures l[0] in x + (l + y)
  {
    assert (x + (l + y))[|x|] == l[0];
  }

  /** A line of white space is no header and sets no key. */
  lemma BlankIsPlain(line: string, name: string)
    requires forall c :: c in line ==> IsSpace(c)
    requires name != [] && !IsSpace(name[0])
    ensures !IsTableHeader(line) && !Sets(name, line)
  {
    if IsTableHeader(line) {
      var x, y := SpacedLiteral("[", TableHeader.b.b, line);
      MiddleIn(x, "[", y);
    }
    if Sets(name, line) {
      var i :| 0 <= i <= |line| && Matches(Key(name), line[..i]);
      PrefixChars(line, i);
      var x, y := SpacedLiteral(name, Key(name).b.b, line[..i]);
      MiddleIn(x, name, y);
    }
  }

  lemma SetsNoOtherKey(name: string, line: string)
    requires name != [] && (line == [] || line[0] !in WS)
    requires !(name <= line) || (|line| > |name| && line[|name|] !in WS && line[|name|] != '=')
    ensures !Sets(name, line)
  {
    if Sets(name, line) {
      var i :| 0 <= i <= |line| && Matches(Key(name), line[..i]);
      StartsVisible(Key(name).b, line[..i]);
      LiteralFirst(name, Key(name).b.b, line[..i]);
      assert name <= line;
      var rest := line[..i][|name|..];
      if rest != [] {
        assert rest[0] == line[|name|];
      }
      StartsVisible(Lit("="), rest);
    }
  }

  // --- Managed headers are table headers. ---

  predicate IsName(word: string) {
    word != [] && forall c :: c in word ==> c in NAME.cs
  }

  lemma NameMatches(word: string)
    requires IsName(word)
    ensures Matches(Plus(NAME), word)
  {
    var first, rest := [word[0]], word[1..];
    assert word == first + rest;
    assert Matches(NAME, first);
    AllOneOf(NAME.cs, rest);
    InSequence(NAME, Star(NAME), first, rest);
  }

  lemma CloseFits(s: string)
    requires Matches(Cat(Spaces, Cat(Lit("]"), LineEnd)), s)
    ensures Matches(Close, s)
  {
    var x, y := SpacedLiteral("]", LineEnd, s);
    NothingFirst(Opt(Lit("]")), LineEnd, y);
    SpaceLiteral("]", Cat(Opt(Lit("]")), LineEnd), x, y);
  }

  lemma QuotedIsName(word: string, q: string)
    requires Matches(Quoted(word), q) && IsName(word)
    ensures IsName(q)
  {
    var front, t := Parts(Opt(Lit("\"")), Cat(Lit(word), Opt(Lit("\""))), q);
    var w, back := Parts(Lit(word), Opt(Lit("\"")), t);
    assert w == word;
    forall c | c in q ensures c in NAME.cs {
      assert c in front || c in word || c in back;
    }
    assert q[|front|] == word[0];
  }

  /** The rest of a managed header: a name, and the end of a table header. */
  lemma InsideFits(word: string, s: string) returns (x: string, name: string, y: string)
    requires Matches(Inside(word), s) && IsName(word)
    ensures s == x + (name + y) && Matches(Spaces, x) && Matches(Plus(NAME), name) && Matches(Close, y)
  {
    var close := Cat(Spaces, Cat(Lit("]"), LineEnd));
    var t;
    x, t := Parts(Spaces, Cat(Quoted(word), close), s);
    name, y := Parts(Quoted(word), close, t);
    QuotedIsName(word, name);
    NameMatches(name);
    CloseFits(y);
  }

  /** A bracket in front of a name, dotted names and the close. */
  lemma HeaderFits(before: string, spaces: string, name: string, rest: string)
    requires Matches(Spaces, before) && Matches(Spaces, spaces)
    requires Matches(Plus(NAME), name) && Matches(Cat(Star(DottedName), Close), rest)
    ensures IsTableHeader(before + ("[" + (spaces + (name + rest))))
  {
    var named := Cat(Plus(NAME), Cat(Star(DottedName), Close));
    InSequence(Plus(NAME), named.b, name, rest);
    InSequence(Spaces, named, spaces, name + rest);
    NothingFirst(Opt(Lit("[")), Cat(Spaces, named), spaces + (name + rest));
    SpaceLiteral("[", Cat(Opt(Lit("[")), Cat(Spaces, named)), before, spaces + (name + rest));
  }

  lemma MemoriesHeaderIsTable(line: string)
    requires IsMemoriesHeader(line)
    ensures IsTableHeader(line)
  {
    var before, s := SpacedLiteral("[", Inside("memories"), line);
    var spaces, name, rest := InsideFits("memories", s);
    NothingFirst(Star(DottedName), Close, rest);
    HeaderFits(before, spaces, name, rest);
  }

  lemma Assoc4(a: string, b: string, c: string, d: string, e: string)
    ensures (a + (b + (c + d))) + e == a + (b + (c + (d + e)))
  {
  }

  /** The dotted part of a provider header. */
  lemma DottedFits(id: string, s: string)
    requires Matches(Cat(Spaces, Cat(Lit("."), Inside(id))), s) && IsName(id)
    ensures Matches(Cat(Star(DottedName), Close), s)
  {
    var x, t := SpacedLiteral(".", Inside(id), s);
    var spaces, name, rest := InsideFits(id, t);
    InSequence(Spaces, Plus(NAME), spaces, name);
    SpaceLiteral(".", Cat(Spaces, Plus(NAME)), x, spaces + name);
    var item := x + ("." + (spaces + name));
    assert item[|x|] == '.';
    Once(DottedName, item);
    InSequence(Star(DottedName), Close, item, rest);
    Assoc4(x, ".", spaces, name, rest);
  }

  lemma ProviderTableIsTable(id: string, line: string)
    requires Matches(ProviderTable(id), line) && IsName(id)
    ensures IsTableHeader(line)
  {
    var word := "model_providers";
    var dotted := Cat(Spaces, Cat(Lit("."), Inside(id)));
    var before, s := SpacedLiteral("[", Cat(Spaces, Cat(Lit(word), dotted)), line);
    var spaces, rest := SpacedLiteral(word, dotted, s);
    DottedFits(id, rest);
    NameMatches(word);
    HeaderFits(before, spaces, word, rest);
  }

  lemma ManagedHeadersAreHeaders(line: string)
    requires IsProviderHeader(line) || IsLegacyHeader(line) || IsMemoriesHeader(line)
    ensures IsTableHeader(line)
  {
    if IsProviderHeader(line) {
      ProviderTableIsTable(PROVIDER_ID, line);
    } else if IsLegacyHeader(line) {
      ProviderTableIsTable(LEGACY_PROVIDER_ID, line);
    } else {
      MemoriesHeaderIsTable(line);
    }
  }

  // --- The headers that are written. ---

  const MEMORIES_LINE := "[memories]"

  const PROVIDER_LINE := "[" + "model_providers" + "." + Quote(PROVIDER_ID) + "]"

  lemma EndsHere()
    ensures Matches(LineEnd, "")
  {
    NothingFirst(Spaces, Opt(Cat(Lit("#"), Star(Dot))), "");
  }

  lemma Closes()
    ensures Matches(Cat(Spaces, Cat(Lit("]"), LineEnd)), "]")
  {
    EndsHere();
    LiteralNext("]", LineEnd, "");
    assert "]" + "" == "]";
  }

  lemma QuotesAreOptional(word: string)
    ensures Matches(Quoted(word), word) && Matches(Quoted(word), "\"" + word + "\"")
  {
    assert word + "" == word && "" + word == word;
    InSequence(Lit(word), Opt(Lit("\"")), word, "");
    InSequence(Opt(Lit("\"")), Cat(Lit(word), Opt(Lit("\""))), "", word);
    InSequence(Lit(word), Opt(Lit("\"")), word, "\"");
    InSequence(Opt(Lit("\"")), Cat(Lit(word), Opt(Lit("\""))), "\"", word + "\"");
    assert "\"" + (word + "\"") == "\"" + word + "\"";
  }

  lemma MemoriesLineIsNoProvider(id: string)
    ensures !Matches(ProviderTable(id), MEMORIES_LINE)
  {
    var r := ProviderTable(id);
    assert "memories]"[1] != "model_providers"[1];
    if Matches(r, MEMORIES_LINE) {
      StartsVisible(r.b, MEMORIES_LINE);
      LiteralFirst("[", r.b.b, MEMORIES_LINE);
      assert MEMORIES_LINE[1..] == "memories]";
      StartsVisible(r.b.b.b, "memories]");
      LiteralFirst("model_providers", r.b.b.b.b, "memories]");
    }
  }

  lemma WordThenClose(word: string, t: string)
    requires t == word || t == "\"" + word + "\""
    ensures Matches(Inside(word), t + "]")
  {
    QuotesAreOptional(word);
    Closes();
    InSequence(Quoted(word), Cat(Spaces, Cat(Lit("]"), LineEnd)), t, "]");
    NothingFirst(Spaces, Cat(Quoted(word), Cat(Spaces, Cat(Lit("]"), LineEnd))), t + "]");
  }

  lemma BracketedWord(word: string)
    ensures Matches(Cat(Spaces, Cat(Lit("["), Inside(word))), "[" + (word + "]"))
  {
    WordThenClose(word, word);
    LiteralNext("[", Inside(word), word + "]");
  }

  lemma MemoriesLineIsMemories()
    ensures IsMemoriesHeader(MEMORIES_LINE)
  {
    BracketedWord("memories");
    assert "[" + ("memories" + "]") == MEMORIES_LINE;
  }

  lemma MemoriesLine()
    ensures IsMemoriesHeader(MEMORIES_LINE) && IsTableHeader(MEMORIES_LINE)
    ensures !IsProviderHeader(MEMORIES_LINE) && !IsLegacyHeader(MEMORIES_LINE)
  {
    MemoriesLineIsMemories();
    MemoriesHeaderIsTable(MEMORIES_LINE);
    MemoriesLineIsNoProvider(PROVIDER_ID);
    MemoriesLineIsNoProvider(LEGACY_PROVIDER_ID);
  }

  lemma ProviderLineOf(id: string)
    ensures Matches(ProviderTable(id), "[" + ("model_providers" + ("." + ("\"" + id + "\"" + "]"))))
  {
    var q := "\"" + id + "\"";
    WordThenClose(id, q);
    LiteralNext(".", Inside(id), q + "]");
    LiteralNext("model_providers", Cat(Spaces, Cat(Lit("."), Inside(id))), "." + (q + "]"));
    LiteralNext("[", Cat(Spaces, Cat(Lit("model_providers"), Cat(Spaces, Cat(Lit("."), Inside(id))))),
                "model_providers" + ("." + (q + "]")));
  }

  lemma Bracketed(table: string, q: string)
    ensures "[" + table + "." + q + "]" == "[" + (table + ("." + (q + "]")))
  {
    var open := "[";
    var dot := ".";
    var close := "]";
    assert open + table + dot + q + close == open + (table + (dot + (q + close)));
  }

  lemma ProviderLineText()
    ensures Quote(PROVIDER_ID) == "\"" + PROVIDER_ID + "\""
    ensures PROVIDER_LINE == "[" + ("model_providers" + ("." + (Quote(PROVIDER_ID) + "]")))
  {
    NothingToEscape(PROVIDER_ID);
    Bracketed("model_providers", Quote(PROVIDER_ID));
  }

  lemma ProviderLine()
    ensures IsProviderHeader(PROVIDER_LINE) && IsTableHeader(PROVIDER_LINE)
  {
    ProviderLineText();
    ProviderLineOf(PROVIDER_ID);
    ManagedHeadersAreHeaders(PROVIDER_LINE);
  }

  /** The provider table written is not the one of the former name. */
  lemma ProviderLineIsNotLegacy()
    ensures !IsLegacyHeader(PROVIDER_LINE)
  {
    assert LEGACY_PROVIDER_ID[5] != PROVIDER_ID[5];
    if IsLegacyHeader(PROVIDER_LINE) {
      ProviderLineText();
      var q := "\"" + PROVIDER_ID + "\"";
      var tail := "." + (q + "]");
      var dotted := Cat(Spaces, Cat(Lit("."), Inside(LEGACY_PROVIDER_ID)));
      AfterLiteral("[", Cat(Spaces, Cat(Lit("model_providers"), dotted)), "model_providers" + tail);
      AfterLiteral("model_providers", dotted, tail);
      AfterLiteral(".", Inside(LEGACY_PROVIDER_ID), q + "]");
      InsideNames(LEGACY_PROVIDER_ID, PROVIDER_ID);
    }
  }

  lemma AfterLiteral(l: string, b: Re, y: string)
    requires l != [] && l[0] !in WS && Matches(Cat(Spaces, Cat(Lit(l), b)), l + y)
    ensures Matches(b, y)
  {
    StartsVisible(Cat(Lit(l), b), l + y);
    LiteralFirst(l, b, l + y);
    assert (l + y)[|l|..] == y;
  }

  /** Nor is it the memories table. */
  lemma ProviderLineIsNotMemories()
    ensures !IsMemoriesHeader(PROVIDER_LINE)
  {
    var s := "model_providers" + ("." + (Quote(PROVIDER_ID) + "]"));
    assert s[1] == 'o';
    if IsMemoriesHeader(PROVIDER_LINE) {
      ProviderLineText();
      AfterLiteral("[", Inside("memories"), s);
      InsideStarts("memories", s);
    }
  }

  /** A word in brackets may have a quote in front of it. */
  lemma InsideParts(word: string, s: string) returns (o: string, y: string)
    requires Matches(Inside(word), s) && s != [] && s[0] !in WS
    ensures s == o + (word + y) && (o == [] || o == "\"")
  {
    var close := Cat(Spaces, Cat(Lit("]"), LineEnd));
    StartsVisible(Cat(Quoted(word), close), s);
    var q, z := Parts(Quoted(word), close, s);
    var t;
    o, t := Parts(Opt(Lit("\"")), Cat(Lit(word), Opt(Lit("\""))), q);
    LiteralFirst(word, Opt(Lit("\"")), t);
    y := t[|word|..] + z;
    Rejoin(o, word, t, z);
  }

  lemma Rejoin(o: string, word: string, t: string, z: string)
    requires word <= t
    ensures (o + t) + z == o + (word + (t[|word|..] + z))
  {
  }

  lemma InsideStarts(word: string, s: string)
    requires Matches(Inside(word), s) && s != [] && s[0] !in WS && s[0] != '"'
    ensures word <= s
  {
    var o, y := InsideParts(word, s);
  }

  lemma InsideNames(word: string, id: string)
    requires Matches(Inside(word), "\"" + id + "\"" + "]") && word != [] && word[0] != '"'
    ensures word <= id + "\"" + "]"
  {
    var s := "\"" + id + "\"" + "]";
    var o, y := InsideParts(word, s);
    assert s[1..] == id + "\"" + "]";
    assert o == "\"" ==> s[1..] == word + y;
  }

  // --- Values and multi-line strings. ---

  /** Quotes inside are escaped; backslashes are not. */
  function Escape(s: string): string {
    if s == [] then [] else (if s[0] == '"' then ['\\', '"'] else [s[0]]) + Escape(s[1..])
  }

  function Quote(s: string): string {
    "\"" + Escape(s) + "\""
  }

  lemma {:induction false} NothingToEscape(s: string)
    requires '"' !in s
    ensures Escape(s) == s
  {
    if s != [] {
      NothingToEscape(s[1..]);
    }
  }

  /** The mark that closes the multi-line string that is open, if any. */
  datatype Delim = NoDelim | Basic | Literal {
    function Mark(): string {
      match this
      case NoDelim => ""
      case Basic => BASIC
      case Literal => LITERAL
    }
  }

  const BASIC := "\"\"\""
  const LITERAL := "'''"

  /** The kind of multi-line string a line has a mark of. */
  function MarkIn(line: string): Delim {
    if Find(line, BASIC) >= 0 then Basic else if Find(line, LITERAL) >= 0 then Literal else NoDelim
  }

  /** A mark and, behind it, the same mark again. */
  predicate ClosedInLine(line: string, mark: string) {
    Find(line, mark) >= 0 && Find(line[Find(line, mark) + |mark|..], mark) >= 0
  }

  /** What is open after the line, and whether the line belongs to a multi-line string. */
  function Track(delim: Delim, line: string): (Delim, bool) {
    if delim != NoDelim then (if Find(line, delim.Mark()) >= 0 then NoDelim else delim, true)
    else
      var started := MarkIn(line);
      if started == NoDelim || ClosedInLine(line, started.Mark()) then (NoDelim, false) else (started, true)
  }

  /** The tracker, as the scan of a file keeps it. */
  class TomlMultiline {
    var delim: Delim

    constructor ()
      ensures delim == NoDelim
    {
      delim := NoDelim;
    }

    method Advance(line: string) returns (inside: bool)
      modifies this
      ensures (delim, inside) == Track(old(delim), line)
    {
      if delim != NoDelim {
        if Find(line, delim.Mark()) >= 0 {
          delim := NoDelim;
        }
        return true;
      }
      var started := NoDelim;
      if Find(line, BASIC) >= 0 {
        started := Basic;
      } else if Find(line, LITERAL) >= 0 {
        started := Literal;
      }
      if started == NoDelim {
        return false;
      }
      if Find(line[Find(line, started.Mark()) + 3..], started.Mark()) >= 0 {
        return false;
      }
      delim := started;
      return true;
    }
  }

  /** The line has no mark of a multi-line string. */
  predicate Single(line: string) {
    MarkIn(line) == NoDelim
  }

  /** A line that ends in a mark, with no quote in front of it, opens a string for the tracker. */
  lemma EndsInMark(front: string, d: Delim)
    requires '"' !in front && '\'' !in front && d != NoDelim
    ensures Track(NoDelim, front + d.Mark()) == (d, true)
  {
    EndsOnce(front, d.Mark());
    if d == Literal {
      NotInEither(front, LITERAL, '"');
      NoMark(front + LITERAL, BASIC);
    }
  }

  lemma NotInEither(a: string, b: string, c: char)
    requires c !in a && c !in b
    ensures c !in a + b
  {
  }

  lemma EndsOnce(front: string, mark: string)
    requires mark != [] && mark[0] !in front
    ensures Find(front + mark, mark) == |front| && !ClosedInLine(front + mark, mark)
  {
    FoundAtEnd(front, mark);
    assert (front + mark)[|front| + |mark|..] == [];
  }

  /** Every quote inside has a backslash in front of it. */
  lemma {:induction false} EscapedQuotes(s: string, k: nat)
    requires k < |Escape(s)| && Escape(s)[k] == '"'
    ensures k > 0 && Escape(s)[k - 1] == '\\'
  {
    var first := if s[0] == '"' then ['\\', '"'] else [s[0]];
    if k >= |first| {
      EscapedQuotes(s[1..], k - |first|);
    }
  }

  lemma NoTripleQuotes(before: string, s: string)
    requires '"' !in before
    ensures Find(before + Quote(s), BASIC) < 0
  {
    var line := before + Quote(s);
    var n, k := |before|, Find(line, BASIC);
    assert forall i :: 0 <= i < n ==> line[i] in before;
    assert forall i :: 0 <= i < |Escape(s)| ==> line[n + 1 + i] == Escape(s)[i];
    if k >= 0 {
      FoundAt(line, BASIC);
      assert BASIC[0] == BASIC[1] == BASIC[2] == '"';
      assert line[k] == line[k + 1] == line[k + 2] == '"';
      EscapedQuotes(s, k - n);
    }
  }

  // --- What is not there is not there with more text around it. ---

  lemma NotPrefix(text: string, c: char, mark: string)
    requires mark != [] && mark[|mark| - 1] != c && !(mark <= text)
    ensures !(mark <= text + [c])
  {
    var m := |mark|;
    assert m <= |text| ==> (text + [c])[..m] == text[..m];
    assert (text + [c])[|text|] == c;
  }

  lemma {:induction false} NotWithEnd(text: string, c: char, mark: string)
    requires mark != [] && mark[|mark| - 1] != c && Find(text, mark) < 0
    ensures Find(text + [c], mark) < 0
  {
    NotPrefix(text, c, mark);
    if text != [] {
      assert (text + [c])[1..] == text[1..] + [c];
      NotWithEnd(text[1..], c, mark);
    }
  }

  lemma {:induction false} NotWithFront(front: string, text: string, mark: string)
    requires mark != [] && mark[0] !in front && Find(text, mark) < 0
    ensures Find(front + text, mark) < 0
  {
    if front == [] {
      assert front + text == text;
    } else {
      assert front[0] in front && forall c :: c in front[1..] ==> c in front;
      assert (front + text)[1..] == front[1..] + text;
      NotWithFront(front[1..], text, mark);
    }
  }

  lemma NotQuoted(before: string, mid: string, mark: string)
    requires mark != [] && mark[0] !in before && mark[0] != '"' && mark[|mark| - 1] != '"' && Find(mid, mark) < 0
    ensures Find(before + ("\"" + mid + "\""), mark) < 0
  {
    var quote := "\"";
    NotWithFront(quote, mid, mark);
    NotWithEnd(quote + mid, '"', mark);
    NotWithFront(before, quote + mid + quote, mark);
  }

  /** A quoted value without three single quotes in a row keeps its line single. */
  lemma QuotedIsSingle(before: string, s: string)
    requires '"' !in before && '\'' !in before && Find(Escape(s), LITERAL) < 0
    ensures Single(before + Quote(s)) && Find(before + Quote(s), LITERAL) < 0
  {
    NoTripleQuotes(before, s);
    NotQuoted(before, Escape(s), LITERAL);
  }
}
