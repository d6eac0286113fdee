/** The header expressions and TOML: what a line that they match opens, and what they match. */
module CodexHeaders {
  import opened Wrappers
  import opened Text
  import opened Regex
  import opened TomlSyntax
  import opened TomlLines
  import opened TomlValues
  import opened CodexEffect
  import opened CodexSpellings
  import opened CodexSurvival

  // --- What a matched header opens. ---

  /** Exactly one double quote stands in front of the first closing bracket. */
  predicate HalfQuoted(line: string) {
    Find(line, "]") >= 0 && Quotes(line[..Find(line, "]")]) == 1
  }

  /** The header up to its first key. */
  lemma HeaderStarts(x: string, y: string)
    requires Matches(Spaces, x) && y != [] && y[0] != '['
    ensures var line, k := x + ("[" + y), DottedKey(SkipBlanks(y));
      HeaderPath(line).Some? ==> k.Dotted? && "]" <= k.rest && HeaderPath(line) == Some(k.path)
  {
    var s := "[" + y;
    SkipSpaces(x, s);
    assert s[1..] == y && (|s| > 1 ==> s[1] == y[0]);
  }

  lemma BarePart(word: string, rest: string)
    requires IsBareName(word) && rest != [] && !IsBare(rest[0])
    ensures SimpleKey(word + rest) == TomlLines.Part(word, rest) && (word + rest)[0] == word[0] && IsBare(word[0])
  {
    BareNameOf(word, rest);
    assert word[0] in word && (word + rest)[|word|..] == rest;
  }

  lemma SpacesThen(x: string, y: string)
    requires Matches(Spaces, x) && y != [] && !IsBare(y[0])
    ensures x + y != [] && !IsBare((x + y)[0])
  {
    SpacesFirst(x);
    assert x == [] ==> x + y == y;
  }

  /** A word and a dot. */
  lemma DottedStarts(word: string, x: string, y: string)
    requires IsBareName(word) && Matches(Spaces, x)
    ensures var k, more := DottedKey(word + (x + ("." + y))), DottedKey(SkipBlanks(y));
      k.Dotted? && "]" <= k.rest ==> more.Dotted? && k == Dotted([word] + more.path, more.rest)
  {
    SpacesThenDot(x, "." + y);
    BarePart(word, x + ("." + y));
    DottedFrom(word + (x + ("." + y)), word, x + ("." + y), "." + y, y);
  }

  lemma SpacesThenDot(x: string, dot: string)
    requires Matches(Spaces, x) && dot != [] && dot[0] == '.'
    ensures x + dot != [] && !IsBare((x + dot)[0]) && (SkipBlanks(x + dot) == dot || IsStuck(SkipBlanks(x + dot)))
  {
    SpacesThen(x, dot);
    SkipSpaces(x, dot);
  }

  lemma DottedFrom(s: string, word: string, tail: string, dot: string, y: string)
    requires SimpleKey(s) == TomlLines.Part(word, tail) && dot == "." + y
    requires SkipBlanks(tail) == dot || IsStuck(SkipBlanks(tail))
    ensures var k, more := DottedKey(s), DottedKey(SkipBlanks(y));
      k.Dotted? && "]" <= k.rest ==> more.Dotted? && k == Dotted([word] + more.path, more.rest)
  {
    assert dot[1..] == y;
  }

  /** A string that starts with those characters has a name that does. */
  lemma {:induction false} StringOver(word: string, z: string)
    requires IsPlain(word)
    ensures BasicString(word + z)
         == if BasicString(z).NoPart? then NoPart
            else TomlLines.Part(word + BasicString(z).name, BasicString(z).rest)
  {
    if word == [] {
      assert word + z == z && BasicString(z).Part? ==> word + BasicString(z).name == BasicString(z).name;
    } else {
      assert word[0] in word && forall c :: c in word[1..] ==> c in word;
      StringOver(word[1..], z);
      OneOver(word, z);
    }
  }

  lemma OneOver(word: string, z: string)
    requires word != [] && word[0] !in {'"', '\\'} && !IsControl(word[0])
    ensures var p := BasicString(word[1..] + z);
      BasicString(word + z) == if p.NoPart? then NoPart else TomlLines.Part([word[0]] + p.name, p.rest)
    ensures forall name: string :: [word[0]] + (word[1..] + name) == word + name
  {
    assert (word + z)[0] == word[0] && (word + z)[1..] == word[1..] + z;
    forall name: string ensures [word[0]] + (word[1..] + name) == word + name {
      assert [word[0]] + word[1..] == word;
    }
  }

  lemma StringHasText(z: string)
    requires z != [] && z[0] != '"' && BasicString(z).Part?
    ensures BasicString(z).name != ""
  {
    if z[0] == '\\' {
      EscapeHasText(z[1..]);
    }
  }

  lemma EscapeHasText(s: string)
    requires Unescape(s).Part?
    ensures Unescape(s).name != ""
  {
  }

  lemma {:induction false} AllSpaces(x: string)
    requires Matches(Spaces, x)
    ensures forall c :: c in x ==> c in WS
    decreases |x|
  {
    if x != [] {
      var i :| 1 <= i <= |x| && Matches(OneOf(WS), x[..i]) && Matches(Spaces, x[i..]);
      assert i == 1 && x[..i][0] == x[0] && x == [x[0]] + x[1..];
      AllSpaces(x[1..]);
    }
  }

  /** The optional quotes of a word. */
  lemma QuotedParts(word: string, q: string) returns (front: string, back: string)
    requires Matches(Quoted(word), q)
    ensures q == front + (word + back) && front in {"", "\""} && back in {"", "\""}
  {
    var t, w;
    front, t := Parts(Opt(Lit("\"")), Cat(Lit(word), Opt(Lit("\""))), q);
    w, back := Parts(Lit(word), Opt(Lit("\"")), t);
  }

  lemma CloseStarts(z: string)
    requires Matches(Cat(Spaces, Cat(Lit("]"), LineEnd)), z)
    ensures z != [] && !IsBare(z[0]) && z[0] != '"' && z[0] != '.'
    ensures SkipBlanks(z) != [] && SkipBlanks(z)[0] != '.'
  {
    var x, w := SpacedLiteral("]", LineEnd, z);
    SpacesFirst(x);
    SkipSpaces(x, "]" + w);
  }

  /** What is read for the word: itself, or with one quote something else. */
  predicate Opens(word: string, front: string, back: string, path: Path) {
    path != [] && if front == back then path == [word] else path[0] != word
  }

  /** A word without a quote in front is read as it is, and so is one with both; with one in front only
      something else is read. */
  lemma WordReads(word: string, front: string, back: string, z: string)
    requires IsBareName(word) && IsPlain(word) && front in {"", "\""} && back in {"", "\""}
    requires Matches(Cat(Spaces, Cat(Lit("]"), LineEnd)), z)
    ensures var k := DottedKey(front + (word + (back + z)));
      k.Dotted? && "]" <= k.rest ==> Opens(word, front, back, k.path)
  {
    var s := front + (word + (back + z));
    CloseStarts(z);
    assert "" + z == z && "" + (word + (back + z)) == word + (back + z);
    if front == "" {
      assert (back + z)[0] == if back == "" then z[0] else '"';
      BarePart(word, back + z);
    } else if back == "" {
      HalfWordReads(word, z, s);
    } else {
      BasicStringOf(word, z);
      assert s[1..] == word + ("\"" + z);
    }
  }

  lemma HalfWordReads(word: string, z: string, s: string)
    requires IsPlain(word) && z != [] && z[0] != '"' && s == "\"" + (word + z)
    ensures DottedKey(s).Dotted? ==> DottedKey(s).path[0] != word
  {
    assert s[1..] == word + z;
    StringOver(word, z);
    if BasicString(word + z).Part? {
      StringHasText(z);
    }
  }

  /** The parts of a word in a header. */
  lemma InsideParts(word: string, s: string) returns (x: string, front: string, back: string, z: string)
    requires Matches(Inside(word), s)
    ensures s == x + (front + (word + (back + z))) && Matches(Spaces, x) && front in {"", "\""} && back in {"", "\""}
    ensures Matches(Cat(Spaces, Cat(Lit("]"), LineEnd)), z)
  {
    var close := Cat(Spaces, Cat(Lit("]"), LineEnd));
    var t, q;
    x, t := Parts(Spaces, Cat(Quoted(word), close), s);
    q, z := Parts(Quoted(word), close, t);
    front, back := QuotedParts(word, q);
    assert t == front + (word + (back + z));
  }

  lemma InsideOpens(word: string, x: string, front: string, back: string, z: string)
    requires Matches(Spaces, x) && IsBareName(word) && IsPlain(word) && front in {"", "\""} && back in {"", "\""}
    requires Matches(Cat(Spaces, Cat(Lit("]"), LineEnd)), z)
    ensures var k := DottedKey(SkipBlanks(x + (front + (word + (back + z)))));
      k.Dotted? && "]" <= k.rest ==> Opens(word, front, back, k.path)
  {
    var t := front + (word + (back + z));
    assert word[0] in word && t[0] == if front == "" then word[0] else '"';
    SkipSpaces(x, t);
    WordReads(word, front, back, z);
    if IsStuck(SkipBlanks(x + t)) {
      StuckIsNoKey(SkipBlanks(x + t));
    }
  }

  predicate NoQuote(s: string) {
    '"' !in s && ']' !in s
  }

  /** Where the quotes are. */
  lemma QuotesOf(a: string, front: string, word: string, back: string, z: string, line: string)
    requires NoQuote(a) && NoQuote(word) && front in {"", "\""} && back in {"", "\""}
    requires Matches(Cat(Spaces, Cat(Lit("]"), LineEnd)), z) && line == a + (front + (word + (back + z)))
    ensures HalfQuoted(line) <==> front != back
  {
    var x, w := SpacedLiteral("]", LineEnd, z);
    var before := a + (front + (word + (back + x)));
    QuotesInFront(a, front, word, back, x);
    BracketBehind(a, front, word, back, x, "]" + w);
    FirstBracket(before, w);
    assert (before + ("]" + w))[..|before|] == before;
  }

  lemma BracketBehind(a: string, b: string, c: string, d: string, x: string, w: string)
    ensures a + (b + (c + (d + (x + w)))) == (a + (b + (c + (d + x)))) + w
  {
  }

  lemma FirstBracket(before: string, w: string)
    requires ']' !in before
    ensures Find(before + ("]" + w), "]") == |before|
  {
    var line := before + ("]" + w);
    assert "]" <= line[|before|..];
    FindIsFirst(line, "]", |before|);
    FoundAt(line, "]");
    assert line[Find(line, "]") + 0] == ']';
    assert forall i :: 0 <= i < |before| ==> line[i] in before;
  }

  /** Text without quotes and closing brackets in front. */
  lemma PlainInFront(a: string, s: string)
    requires NoQuote(a)
    ensures Quotes(a + s) == Quotes(s) && (']' in a + s <==> ']' in s)
  {
    QuotesConcat(a, s);
    CountsQuotes(a);
  }

  lemma QuoteInFront(q: string, s: string)
    requires q in {"", "\""}
    ensures Quotes(q + s) == One(q != "") + Quotes(s) && (']' in q + s <==> ']' in s)
  {
    QuotesConcat(q, s);
    assert "\""[1..] == "" && Quotes("\"") == 1;
  }

  lemma QuotesInFront(a: string, front: string, word: string, back: string, x: string)
    requires NoQuote(a) && NoQuote(word) && front in {"", "\""} && back in {"", "\""} && Matches(Spaces, x)
    ensures var before := a + (front + (word + (back + x)));
      ']' !in before && Quotes(before) == One(front != "") + One(back != "")
  {
    QuotesBehind(word, back, x);
    QuoteInFront(front, word + (back + x));
    PlainInFront(a, front + (word + (back + x)));
  }

  lemma QuotesBehind(word: string, back: string, x: string)
    requires NoQuote(word) && back in {"", "\""} && Matches(Spaces, x)
    ensures ']' !in word + (back + x) && Quotes(word + (back + x)) == One(back != "")
  {
    AllSpaces(x);
    CountsQuotes(x);
    QuoteInFront(back, x);
    PlainInFront(word, back + x);
  }

  lemma WordIsVisible(x: string, word: string, rest: string)
    requires IsBareName(word) && Matches(Spaces, x)
    ensures var y := x + (word + rest); y != [] && y[0] != '['
    ensures word + rest != [] && (word + rest)[0] !in WS
  {
    assert word[0] in word && (word + rest)[0] == word[0];
    SpacesFirst(x);
    assert x == [] ==> x + (word + rest) == word + rest;
  }

  /** A header up to its first word. */
  lemma HeaderOfWord(x: string, x2: string, word: string, rest: string)
    requires IsBareName(word) && Matches(Spaces, x) && Matches(Spaces, x2)
    ensures var line, k := x + ("[" + (x2 + (word + rest))), DottedKey(word + rest);
      HeaderPath(line).Some? ==> k.Dotted? && "]" <= k.rest && HeaderPath(line) == Some(k.path)
  {
    WordIsVisible(x2, word, rest);
    HeaderStarts(x, x2 + (word + rest));
    SkipSpaces(x2, word + rest);
    if IsStuck(SkipBlanks(x2 + (word + rest))) {
      StuckIsNoKey(SkipBlanks(x2 + (word + rest)));
    }
  }

  function Subtable(word: string, id: string): Re {
    Cat(Spaces, Cat(Lit("["), Cat(Spaces, Cat(Lit(word), Cat(Spaces, Cat(Lit("."), Inside(id)))))))
  }

  lemma DotParts(word: string, b: Re, line: string) returns (x: string, x2: string, x3: string, rest: string)
    requires Matches(Cat(Spaces, Cat(Lit("["), Cat(Spaces, Cat(Lit(word), Cat(Spaces, Cat(Lit("."), b)))))), line)
    ensures line == x + ("[" + (x2 + (word + (x3 + ("." + rest)))))
    ensures Matches(Spaces, x) && Matches(Spaces, x2) && Matches(Spaces, x3) && Matches(b, rest)
  {
    var dotted := Cat(Spaces, Cat(Lit("."), b));
    var y, y2;
    x, y := SpacedLiteral("[", Cat(Spaces, Cat(Lit(word), dotted)), line);
    x2, y2 := SpacedLiteral(word, dotted, y);
    x3, rest := SpacedLiteral(".", b, y2);
  }

  lemma SubtableOpens(word: string, id: string, line: string)
    requires IsBareName(word) && IsBareName(id) && IsPlain(id) && NoQuote(word) && NoQuote(id)
    requires Matches(Subtable(word, id), line) && HeaderPath(line).Some?
    ensures HeaderPath(line) == Some([word, id]) <==> !HalfQuoted(line)
  {
    var x, x2, x3, rest := DotParts(word, Inside(id), line);
    var x4, front, back, z := InsideParts(id, rest);
    SubtableQuotes(x, x2, word, x3, x4, front, id, back, z);
    SubtablePath(x, x2, word, x3, rest);
    InsideOpens(id, x4, front, back, z);
    TwoNames(word, id, DottedKey(SkipBlanks(rest)));
  }

  lemma SubtablePath(x: string, x2: string, word: string, x3: string, rest: string)
    requires IsBareName(word) && Matches(Spaces, x) && Matches(Spaces, x2) && Matches(Spaces, x3)
    ensures var line, more := x + ("[" + (x2 + (word + (x3 + ("." + rest))))), DottedKey(SkipBlanks(rest));
      HeaderPath(line).Some? ==> more.Dotted? && "]" <= more.rest && HeaderPath(line) == Some([word] + more.path)
  {
    HeaderOfWord(x, x2, word, x3 + ("." + rest));
    DottedStarts(word, x3, rest);
  }

  lemma SubtableQuotes(x: string, x2: string, word: string, x3: string, x4: string, front: string, id: string,
                       back: string, z: string)
    requires Matches(Spaces, x) && Matches(Spaces, x2) && Matches(Spaces, x3) && Matches(Spaces, x4)
    requires NoQuote(word) && NoQuote(id) && front in {"", "\""} && back in {"", "\""}
    requires Matches(Cat(Spaces, Cat(Lit("]"), LineEnd)), z)
    ensures HalfQuoted(x + ("[" + (x2 + (word + (x3 + ("." + (x4 + (front + (id + (back + z)))))))))) <==> front != back
  {
    var a := x + ("[" + (x2 + (word + (x3 + ("." + x4)))));
    var tail := front + (id + (back + z));
    FrontHasNoQuote(x, x2, word, x3, x4, a);
    SixParts(x, "[", x2, word, x3, ".", x4, tail);
    QuotesOf(a, front, id, back, z, a + tail);
  }

  lemma TwoNames(word: string, id: string, more: Dotted)
    ensures more.Dotted? ==> ([word] + more.path == [word, id] <==> more.path == [id])
  {
    if more.Dotted? && [word] + more.path == [word, id] {
      assert more.path == ([word] + more.path)[1..];
    }
  }

  lemma FrontHasNoQuote(x: string, x2: string, word: string, x3: string, x4: string, a: string)
    requires Matches(Spaces, x) && Matches(Spaces, x2) && Matches(Spaces, x3) && Matches(Spaces, x4) && NoQuote(word)
    requires a == x + ("[" + (x2 + (word + (x3 + ("." + x4)))))
    ensures NoQuote(a)
  {
    AllSpaces(x);
    AllSpaces(x2);
    AllSpaces(x3);
    AllSpaces(x4);
    forall c | c in a ensures c != '"' && c != ']' {
      assert c in x || c == '[' || c in x2 || c in word || c in x3 || c == '.' || c in x4;
    }
  }

  lemma SixParts(a: string, b: string, c: string, d: string, e: string, f: string, g: string, h: string)
    ensures a + (b + (c + (d + (e + (f + (g + h)))))) == (a + (b + (c + (d + (e + (f + g)))))) + h
  {
  }

  lemma IdsArePlain()
    ensures IsBareName("aris-mass") && IsPlain("aris-mass") && PROVIDER_ID == "aris-mass"
    ensures IsBareName("aris-proxy") && IsPlain("aris-proxy") && LEGACY_PROVIDER_ID == "aris-proxy"
    ensures NoQuote("aris-mass") && NoQuote("aris-proxy")
  {
  }

  lemma WordsArePlain()
    ensures IsBareName("memories") && IsPlain("memories") && IsBareName("profiles") && IsBareName("model_providers")
    ensures NoQuote("memories") && NoQuote("model_providers")
  {
  }

  lemma MemoriesOpens(line: string)
    requires IsMemoriesHeader(line) && HeaderPath(line).Some?
    ensures HeaderPath(line) == Some(["memories"]) <==> !HalfQuoted(line)
  {
    WordsArePlain();
    WordOpens("memories", line);
  }

  lemma WordOpens(word: string, line: string)
    requires Matches(Cat(Spaces, Cat(Lit("["), Inside(word))), line) && HeaderPath(line).Some?
    requires IsBareName(word) && IsPlain(word) && NoQuote(word)
    ensures HeaderPath(line) == Some([word]) <==> !HalfQuoted(line)
  {
    var x, y := SpacedLiteral("[", Inside(word), line);
    var x2, front, back, z := InsideParts(word, y);
    InsideOpens(word, x2, front, back, z);
    InsideIsNoBracket(word, x2, front, back + z);
    HeaderStarts(x, y);
    WordQuotes(x, x2, front, word, back, z);
  }

  lemma WordQuotes(x: string, x2: string, front: string, word: string, back: string, z: string)
    requires Matches(Spaces, x) && Matches(Spaces, x2) && NoQuote(word) && front in {"", "\""} && back in {"", "\""}
    requires Matches(Cat(Spaces, Cat(Lit("]"), LineEnd)), z)
    ensures HalfQuoted(x + ("[" + (x2 + (front + (word + (back + z)))))) <==> front != back
  {
    BracketHasNoQuote(x, x2);
    BracketAndTail(x, x2, front + (word + (back + z)));
    QuotesOf(x + ("[" + x2), front, word, back, z, x + ("[" + (x2 + (front + (word + (back + z))))));
  }

  lemma BracketAndTail(x: string, x2: string, tail: string)
    ensures x + ("[" + (x2 + tail)) == (x + ("[" + x2)) + tail
  {
  }

  lemma BracketHasNoQuote(x: string, x2: string)
    requires Matches(Spaces, x) && Matches(Spaces, x2)
    ensures NoQuote(x + ("[" + x2))
  {
    AllSpaces(x);
    AllSpaces(x2);
    forall c | c in x + ("[" + x2) ensures c != '"' && c != ']' {
      assert c in x || c == '[' || c in x2;
    }
  }

  lemma InsideIsNoBracket(word: string, x: string, front: string, rest: string)
    requires Matches(Spaces, x) && IsBareName(word) && front in {"", "\""}
    ensures var y := x + (front + (word + rest)); y != [] && y[0] != '['
  {
    SpacesFirst(x);
    var t := front + (word + rest);
    assert word[0] in word && t[0] == if front == "" then word[0] else '"';
    assert (x + t)[0] == if x == "" then t[0] else x[0];
  }

  lemma ProfilesOpens(line: string)
    requires IsProfilesHeader(line)
    ensures HeaderPath(line).Some? ==> |HeaderPath(line).value| > 1 && HeaderPath(line).value[0] == "profiles"
  {
    WordsArePlain();
    var i :| 0 <= i <= |line| && Matches(ProfilesTable, line[..i]);
    var x, x2, x3 := ProfilesParts(line[..i]);
    var rest := line[i..];
    assert line == line[..i] + rest;
    SixParts(x, "[", x2, "profiles", x3, ".", "", rest);
    assert "." + "" == "." && "" + rest == rest;
    HeaderOfWord(x, x2, "profiles", x3 + ("." + rest));
    DottedStarts("profiles", x3, rest);
  }

  lemma ProfilesParts(s: string) returns (x: string, x2: string, x3: string)
    requires Matches(ProfilesTable, s)
    ensures s == x + ("[" + (x2 + ("profiles" + (x3 + "."))))
    ensures Matches(Spaces, x) && Matches(Spaces, x2) && Matches(Spaces, x3)
  {
    var y, y2, dot;
    x, y := SpacedLiteral("[", Cat(Spaces, Cat(Lit("profiles"), Cat(Spaces, Lit(".")))), s);
    x2, y2 := SpacedLiteral("profiles", Cat(Spaces, Lit(".")), y);
    x3, dot := Parts(Spaces, Lit("."), y2);
  }

  /** A line that a managed header expression matches, and that TOML can read as a header, opens that table,
      exactly if the quote in front of the name has its partner. */
  lemma HeadersOpenWhatTheySay(line: string)
    requires HeaderPath(line).Some?
    ensures var path := HeaderPath(line).value;
      && (IsProviderHeader(line) ==> (path == ["model_providers", "aris-mass"] <==> !HalfQuoted(line)))
      && (IsLegacyHeader(line) ==> (path == ["model_providers", "aris-proxy"] <==> !HalfQuoted(line)))
      && (IsMemoriesHeader(line) ==> (path == ["memories"] <==> !HalfQuoted(line)))
    ensures IsProfilesHeader(line) ==> |HeaderPath(line).value| > 1 && HeaderPath(line).value[0] == "profiles"
  {
    IdsArePlain();
    WordsArePlain();
    if IsProviderHeader(line) { SubtableOpens("model_providers", "aris-mass", line); }
    if IsLegacyHeader(line) { SubtableOpens("model_providers", "aris-proxy", line); }
    if IsMemoriesHeader(line) { MemoriesOpens(line); }
    if IsProfilesHeader(line) { ProfilesOpens(line); }
  }

  /** Such as [model_providers."aris-mass] # "], which opens another table. */
  lemma HalfQuotedIsTaken(text: string)
    requires IsPlain(text)
    ensures var line := "[" + ("model_providers" + ("." + ("\"" + ("aris-mass" + ("] # " + (text + ("\"" + "]")))))));
      IsProviderHeader(line) && HeaderPath(line) == Some(["model_providers", "aris-mass" + ("] # " + text)])
  {
    IdsArePlain();
    WordsArePlain();
    HalfQuotedOpens("model_providers", "aris-mass", text);
    HalfQuotedMatches("aris-mass", text);
    SubtableMatches("model_providers", "aris-mass", "", "", "",
                    "\"" + ("aris-mass" + ("] # " + (text + ("\"" + "]")))));
    NothingInFront("model_providers", "\"" + ("aris-mass" + ("] # " + (text + ("\"" + "]")))));
  }

  lemma NothingInFront(word: string, inside: string)
    ensures "" + ("[" + ("" + (word + ("" + ("." + inside))))) == "[" + (word + ("." + inside))
  {
  }

  lemma HalfQuotedMatches(id: string, text: string)
    requires IsPlain(text)
    ensures Matches(Inside(id), "\"" + (id + ("] # " + (text + ("\"" + "]")))))
  {
    var comment := "# " + (text + ("\"" + "]"));
    var close := Cat(Spaces, Cat(Lit("]"), LineEnd));
    forall c | c in comment ensures c != '\n' {
      assert c in "# " || c in text || c in "\"]";
    }
    CommentMatches(" ", comment);
    LiteralNext("]", LineEnd, " " + comment);
    HalfQuotedWord(id);
    InSequence(Quoted(id), close, "\"" + id, "]" + (" " + comment));
    NothingFirst(Spaces, Cat(Quoted(id), close), ("\"" + id) + ("]" + (" " + comment)));
    CommentTogether(id, text + ("\"" + "]"));
  }

  lemma HalfQuotedWord(id: string)
    ensures Matches(Quoted(id), "\"" + id)
  {
    InSequence(Lit(id), Opt(Lit("\"")), id, "");
    assert id + "" == id;
    InSequence(Opt(Lit("\"")), Cat(Lit(id), Opt(Lit("\""))), "\"", id);
  }

  lemma CommentTogether(id: string, s: string)
    ensures ("\"" + id) + ("]" + (" " + ("# " + s))) == "\"" + (id + ("] # " + s))
  {
    assert "]" + (" " + ("# " + s)) == "] # " + s;
  }

  lemma HalfQuotedOpens(word: string, id: string, text: string)
    requires IsBareName(word) && IsPlain(id) && IsPlain(text)
    ensures HeaderPath("[" + (word + ("." + ("\"" + (id + ("] # " + (text + ("\"" + "]"))))))))
         == Some([word, id + ("] # " + text)])
  {
    var end := text + ("\"" + "]");
    var q := "\"" + (id + ("] # " + end));
    BasicStringOf(text, "]");
    BracketComment(text, end);
    StringOver(id, "] # " + end);
    assert q[1..] == id + ("] # " + end) && SkipBlanks(q) == q && SkipBlanks("]") == "]";
    assert DottedKey(q) == Dotted([id + ("] # " + text)], "]");
    assert ("." + q)[1..] == q;
    BareKey(word, "." + q);
    assert [word] + [id + ("] # " + text)] == [word, id + ("] # " + text)];
    var s := word + ("." + q);
    assert word[0] in word && s[0] == word[0];
    HeaderOfKey(s, [word, id + ("] # " + text)]);
  }

  lemma BracketComment(text: string, end: string)
    requires BasicString(end) == TomlLines.Part(text, "]")
    ensures BasicString("] # " + end) == TomlLines.Part("] # " + text, "]")
  {
    StringOneMore(' ', end, text);
    StringOneMore('#', [' '] + end, [' '] + text);
    StringOneMore(' ', ['#'] + ([' '] + end), ['#'] + ([' '] + text));
    StringOneMore(']', [' '] + (['#'] + ([' '] + end)), [' '] + (['#'] + ([' '] + text)));
    FourCharacters(end);
    FourCharacters(text);
  }

  lemma FourCharacters(s: string)
    ensures "] # " + s == [']'] + ([' '] + (['#'] + ([' '] + s)))
  {
  }

  lemma StringOneMore(c: char, end: string, text: string)
    requires BasicString(end) == TomlLines.Part(text, "]") && c !in {'"', '\\'} && !IsControl(c)
    ensures BasicString([c] + end) == TomlLines.Part([c] + text, "]")
  {
    assert ([c] + end)[1..] == end;
  }

  // --- Which headers are matched. ---

  predicate AreBlanks(s: string) {
    forall c :: c in s ==> c == ' ' || c == '\t'
  }

  /** A bare word, or the same in double quotes. */
  predicate IsWord(q: string, word: string) {
    q == word || q == "\"" + word + "\""
  }

  predicate IsComment(s: string) {
    s == "" || (s[0] == '#' && '\n' !in s)
  }

  lemma {:induction false} BlanksMatch(s: string)
    requires AreBlanks(s)
    ensures Matches(Spaces, s)
  {
    if s != [] {
      assert s[0] in s && forall c :: c in s[1..] ==> c in s;
      BlanksMatch(s[1..]);
      InSpaces(s[0], s[1..]);
      assert [s[0]] + s[1..] == s;
    }
  }

  lemma {:induction false} AnyMatches(s: string)
    requires '\n' !in s
    ensures Matches(Star(Dot), s)
    decreases |s|
  {
    if s != [] {
      assert s[0] in s && forall c :: c in s[1..] ==> c in s;
      AnyMatches(s[1..]);
      assert Matches(Dot, s[..1]);
    }
  }

  lemma CommentMatches(b: string, comment: string)
    requires AreBlanks(b) && IsComment(comment)
    ensures Matches(LineEnd, b + comment)
  {
    var text := Cat(Lit("#"), Star(Dot));
    BlanksMatch(b);
    if comment != "" {
      assert forall c :: c in comment[1..] ==> c in comment;
      AnyMatches(comment[1..]);
      InSequence(Lit("#"), Star(Dot), "#", comment[1..]);
      assert "#" + comment[1..] == comment;
    }
    InSequence(Spaces, Opt(text), b, comment);
  }

  /** A word in a header, and what follows. */
  lemma InsideMatches(word: string, b1: string, q: string, b2: string, b3: string, comment: string)
    requires AreBlanks(b1) && IsWord(q, word) && AreBlanks(b2) && AreBlanks(b3) && IsComment(comment)
    ensures Matches(Inside(word), b1 + (q + (b2 + ("]" + (b3 + comment)))))
  {
    var close := Cat(Spaces, Cat(Lit("]"), LineEnd));
    var end := b2 + ("]" + (b3 + comment));
    BlanksMatch(b1);
    BlanksMatch(b2);
    CommentMatches(b3, comment);
    SpaceLiteral("]", LineEnd, b2, b3 + comment);
    QuotesAreOptional(word);
    InSequence(Quoted(word), close, q, end);
    InSequence(Spaces, Cat(Quoted(word), close), b1, q + end);
  }

  lemma SubtableMatches(word: string, id: string, b1: string, b2: string, b3: string, inside: string)
    requires AreBlanks(b1) && AreBlanks(b2) && AreBlanks(b3) && Matches(Inside(id), inside)
    ensures Matches(Subtable(word, id), b1 + ("[" + (b2 + (word + (b3 + ("." + inside))))))
  {
    var dotted := Cat(Spaces, Cat(Lit("."), Inside(id)));
    BlanksMatch(b1);
    BlanksMatch(b2);
    BlanksMatch(b3);
    SpaceLiteral(".", Inside(id), b3, inside);
    SpaceLiteral(word, dotted, b2, b3 + ("." + inside));
    SpaceLiteral("[", Cat(Spaces, Cat(Lit(word), dotted)), b1, b2 + (word + (b3 + ("." + inside))));
  }

  /** The managed headers are recognised with any blanks, bare or quoted, and with a comment behind them. */
  lemma ProviderHeadersAreSeen(b1: string, b2: string, b3: string, b4: string, q: string, b5: string, b6: string,
                               comment: string)
    requires AreBlanks(b1) && AreBlanks(b2) && AreBlanks(b3) && AreBlanks(b4) && AreBlanks(b5) && AreBlanks(b6)
    requires IsComment(comment)
    ensures var inside := b4 + (q + (b5 + ("]" + (b6 + comment))));
      var line := b1 + ("[" + (b2 + ("model_providers" + (b3 + ("." + inside)))));
      (IsWord(q, "aris-mass") ==> IsProviderHeader(line)) && (IsWord(q, "aris-proxy") ==> IsLegacyHeader(line))
  {
    IdsArePlain();
    var inside := b4 + (q + (b5 + ("]" + (b6 + comment))));
    if IsWord(q, "aris-mass") {
      InsideMatches("aris-mass", b4, q, b5, b6, comment);
      SubtableMatches("model_providers", "aris-mass", b1, b2, b3, inside);
    }
    if IsWord(q, "aris-proxy") {
      InsideMatches("aris-proxy", b4, q, b5, b6, comment);
      SubtableMatches("model_providers", "aris-proxy", b1, b2, b3, inside);
    }
  }

  lemma MemoriesHeadersAreSeen(b1: string, b2: string, q: string, b3: string, b4: string, comment: string)
    requires AreBlanks(b1) && AreBlanks(b2) && AreBlanks(b3) && AreBlanks(b4) && IsComment(comment)
    requires IsWord(q, "memories")
    ensures IsMemoriesHeader(b1 + ("[" + (b2 + (q + (b3 + ("]" + (b4 + comment)))))))
  {
    var inside := b2 + (q + (b3 + ("]" + (b4 + comment))));
    InsideMatches("memories", b2, q, b3, b4, comment);
    BlanksMatch(b1);
    SpaceLiteral("[", Inside("memories"), b1, inside);
  }

  lemma ProfilesHeadersAreSeen(b1: string, b2: string, b3: string, rest: string)
    requires AreBlanks(b1) && AreBlanks(b2) && AreBlanks(b3)
    ensures IsProfilesHeader(b1 + ("[" + (b2 + ("profiles" + (b3 + ("." + rest))))))
  {
    var front := b1 + ("[" + (b2 + ("profiles" + (b3 + "."))));
    BlanksMatch(b1);
    BlanksMatch(b2);
    BlanksMatch(b3);
    InSequence(Spaces, Lit("."), b3, ".");
    SpaceLiteral("profiles", Cat(Spaces, Lit(".")), b2, b3 + ".");
    SpaceLiteral("[", Cat(Spaces, Cat(Lit("profiles"), Cat(Spaces, Lit(".")))), b1, b2 + ("profiles" + (b3 + ".")));
    SixParts(b1, "[", b2, "profiles", b3, ".", "", rest);
    assert "." + "" == "." && "" + rest == rest;
    PrefixMatches(ProfilesTable, front, rest);
  }

  lemma PrefixMatches(r: Re, front: string, rest: string)
    requires Matches(r, front)
    ensures MatchesPrefix(r, front + rest)
  {
    assert (front + rest)[..|front|] == front;
  }

  /** The characters that the header expression takes for those of a name, quotes aside. */
  predicate IsNameChar(c: char) {
    'A' <= c <= 'Z' || 'a' <= c <= 'z' || '0' <= c <= '9' || c == '_' || c == '-' || c == '.'
  }

  lemma NameCharsAre(c: char)
    ensures IsNameChar(c) || c == '"' || c == '\'' <==> c in NAME.cs
  {
  }

  /** A header of such characters and quotes is recognised. */
  lemma NamesAreSeen(name: string)
    requires name != "" && forall c :: c in name ==> IsNameChar(c) || c == '"' || c == '\''
    ensures IsTableHeader("[" + (name + "]"))
  {
    forall c | c in name ensures c in NAME.cs { NameCharsAre(c); }
    NameMatches(name);
    EndsHere();
    NothingFirst(Opt(Lit("]")), LineEnd, "");
    LiteralNext("]", Cat(Opt(Lit("]")), LineEnd), "");
    assert "]" + "" == "]";
    NothingFirst(Star(DottedName), Close, "]");
    HeaderFits("", "", name, "]");
    assert "" + (name + "]") == name + "]" && "" + ("[" + (name + "]")) == "[" + (name + "]");
  }

  /** A table with a quoted name without white space and brackets is recognised exactly if the name is made
      of such characters. */
  lemma TableIsSeenIff(word: string, s: string)
    requires IsBareName(word) && IsPlain(s) && forall c :: c in s ==> c !in WS && c != '[' && c != ']'
    ensures IsTableHeader(TableLine(word, s)) <==> forall c :: c in s ==> IsNameChar(c)
  {
    if forall c :: c in s ==> IsNameChar(c) {
      var name := word + ("." + Quote(s));
      NothingToEscape(s);
      forall c | c in name ensures IsNameChar(c) || c == '"' {
        assert c in word || c == '.' || c in Quote(s);
      }
      NamesAreSeen(name);
      FourParts("[", word, ".", Quote(s), "]");
    } else {
      var c :| c in s && !IsNameChar(c);
      NameCharsAre(c);
      assert IsForeign(c);
      ForeignIsMissed(word, s);
    }
  }

  lemma FourParts(a: string, b: string, c: string, d: string, e: string)
    ensures a + ((b + (c + d)) + e) == a + (b + (c + (d + e)))
  {
  }
}
