/** An export of an export. */
module CodexFixedPoint {
  import opened Text
  import opened Lines
  import opened TomlSyntax
  import opened CodexConfig
  import opened CodexRegions
  import opened CodexExport
  import opened CodexLaws
  import opened CodexTarget
  import opened TargetModels

  datatype Target = Target(host: string, apiKey: string, models: seq<TargetModel>)

  function Rewrite(lines: seq<string>, t: Target): seq<string> {
    Export(lines, t.host, t.apiKey, t.models)
  }

  /** No value has three single quotes in a row. */
  predicate TargetFits(t: Target) {
    Fit(t.host + PROXY_PREFIX) && Fit(t.apiKey) && (t.models == [] || Fit(t.models[0].alias))
  }

  /** In the eyes of the tracker the file ends closed, and no multi-line string of a managed
      provider table reads like a header. */
  predicate WellFormed(lines: seq<string>) {
    Tidy(Start, lines) && Closed(End(Start, lines))
  }

  lemma ValuesFit(lines: seq<string>, t: Target)
    requires TargetFits(t) && (Clean(lines).memories == [] || ModelsFit(lines))
    ensures FitsIn(Clean(lines), ValuesFor(lines, t.host, t.apiKey, t.models))
  {
    NothingFits();
    if ModelsFit(lines) {
      MemoryModelFits(lines);
    }
  }

  /** Cleaning an export gives what cleaning the original gives. */
  lemma RewriteKeepsSections(lines: seq<string>, t: Target)
    requires WellFormed(lines) && TargetFits(t) && (Clean(lines).memories == [] || ModelsFit(lines))
    ensures var once := Rewrite(lines, t);
      && Clean(once) == Clean(lines) && WellFormed(once)
      && (Clean(once).memories == [] || ModelsFit(once))
  {
    var c := Clean(lines);
    var v := ValuesFor(lines, t.host, t.apiKey, t.models);
    CleanSettles(lines);
    ValuesFit(lines, t);
    CleanOfRendered(c, v);
    if ModelsFit(lines) {
      RenderedModelsFit(lines, v);
    }
  }

  lemma EscapeHead(s: string)
    requires s != []
    ensures Escape(s)[0] == if s[0] == '"' then '\\' else s[0]
  {
  }

  lemma {:induction false} EscapeIsInjective(a: string, b: string)
    requires Escape(a) == Escape(b)
    ensures a == b
    decreases |a|
  {
    if a != [] && b != [] {
      var x, y := Escape(a[1..]), Escape(b[1..]);
      EscapeHead(a);
      EscapeHead(b);
      if a[0] == b[0] {
        var n := if a[0] == '"' then 2 else 1;
        assert x == Escape(a)[n..] && y == Escape(b)[n..];
        EscapeIsInjective(a[1..], b[1..]);
      } else if a[0] == '"' {
        assert Escape(b)[1] == y[0] == '"';
        EscapedQuotes(b[1..], 0);
      } else if b[0] == '"' {
        assert Escape(a)[1] == x[0] == '"';
        EscapedQuotes(a[1..], 0);
      }
    }
  }

  lemma SettingIsInjective(name: string, a: string, b: string)
    requires Setting(name, Quote(a)) == Setting(name, Quote(b))
    ensures a == b
  {
    var n := |name + " =" + " "|;
    assert Setting(name, Quote(a))[n..] == Quote(a) && Setting(name, Quote(b))[n..] == Quote(b);
    assert Quote(a)[1..|Quote(a)| - 1] == Escape(a) && Quote(b)[1..|Quote(b)| - 1] == Escape(b);
    EscapeIsInjective(a, b);
  }

  /** The memory model shows in the file exactly if it has a memories table. */
  lemma SameFileIff(c: Cleaned, v: Values, w: Values)
    requires w == v.(memoryModel := w.memoryModel)
    ensures Rendered(c, v) == Rendered(c, w) <==> c.memories == [] || v == w
  {
    if c.memories != [] && Rendered(c, v) == Rendered(c, w) {
      var front := HeadPart(c) + RootBlock(v) + TailPart(c) + ["", MEMORIES_LINE] + c.memories;
      AtMemoryBlock(c, v);
      AtMemoryBlock(c, w);
      SettingIsInjective(EXTRACT_MODEL, v.memoryModel, w.memoryModel);
    }
  }

  lemma AtMemoryBlock(c: Cleaned, v: Values)
    requires c.memories != []
    ensures var n := |HeadPart(c)| + 3 + |TailPart(c)| + 2 + |c.memories|;
      n < |Rendered(c, v)| && Rendered(c, v)[n] == Setting(EXTRACT_MODEL, Quote(v.memoryModel))
  {
    var n := |c.memories| + 2;
    assert MemoriesPart(c, v)[n] == MemoryBlock(v)[0];
    var end := MemoriesPart(c, v) + ProviderPart(v);
    assert end[n] == MemoryBlock(v)[0];
    assert (TailPart(c) + end)[|TailPart(c)| + n] == MemoryBlock(v)[0];
    assert (RootBlock(v) + (TailPart(c) + end))[3 + |TailPart(c)| + n] == MemoryBlock(v)[0];
  }

  /** The second export changes nothing exactly if the file has no memories table or the first
      left its model what it was; the third never changes anything. */
  lemma FixedPoint(lines: seq<string>, t: Target)
    requires WellFormed(lines) && TargetFits(t) && (Clean(lines).memories == [] || ModelsFit(lines))
    ensures var once := Rewrite(lines, t);
      var twice := Rewrite(once, t);
      && (twice == once <==> Clean(lines).memories == [] || MemoryModel(once) == MemoryModel(lines))
      && Rewrite(twice, t) == twice
  {
    var c := Clean(lines);
    var once := Rewrite(lines, t);
    var twice := Rewrite(once, t);
    RewriteKeepsSections(lines, t);
    RewriteKeepsSections(once, t);
    var v := ValuesFor(lines, t.host, t.apiKey, t.models);
    var w := ValuesFor(once, t.host, t.apiKey, t.models);
    SameFileIff(c, w, v);
    MemoryModelOfRendered(c, v, w);
  }

  // --- Files. ---

  function WriteText(content: string, t: Target): string {
    Join(Rewrite(SplitLines(content), t), "\n")
  }

  method Write(content: string, t: Target) returns (file: string)
    ensures file == WriteText(content, t)
  {
    var model := "";
    var context := DEFAULT_CONTEXT;
    if |t.models| > 0 {
      model := t.models[0].alias;
      if t.models[0].contextLength > 0 {
        context := t.models[0].contextLength;
      }
    }
    var lines := SplitLines(content);
    var memoryModel := CodexMemoryModel(lines);
    var cleaned := CleanCodexConfig(lines);
    var v := Values(model, context, memoryModel, t.host, t.apiKey);
    var head := TrimTrailingBlank(cleaned.head);
    var tail := TrimTrailingBlank(cleaned.tail);
    var memories := TrimTrailingBlank(cleaned.memories);
    var sections := Cleaned(head, tail, memories);
    var out := Assemble(sections, RootBlock(v), ["", MEMORIES_LINE], MemoryBlock(v), ProviderPart(v));
    file := Join(out, "\n");
  }

  /** The sections and the written blocks, in the order they are appended. */
  method Assemble(
    c: Cleaned, root: seq<string>, opening: seq<string>, memoryBlock: seq<string>, provider: seq<string>
  ) returns (out: seq<string>)
    ensures out == HeadPart(c) + (root + (TailPart(c) + (Bracket(c.memories, opening, memoryBlock) + provider)))
  {
    out := c.head;
    if |c.head| > 0 {
      out := out + [""];
    }
    assert out == HeadPart(c);
    out := out + root;
    if |c.tail| > 0 {
      out := AppendTwo(out, [""], c.tail);
    }
    Unit(HeadPart(c) + root);
    assert out == HeadPart(c) + root + TailPart(c);
    ghost var sofar := out;
    if |c.memories| > 0 {
      out := AppendTwo(out, opening, c.memories + memoryBlock);
    }
    Unit(sofar);
    assert out == sofar + Bracket(c.memories, opening, memoryBlock);
    out := out + provider;
    Regroup5(HeadPart(c), root, TailPart(c), Bracket(c.memories, opening, memoryBlock), provider);
  }

  function Bracket(lines: seq<string>, opening: seq<string>, closing: seq<string>): seq<string> {
    if lines == [] then [] else opening + (lines + closing)
  }

  method AppendTwo(a: seq<string>, b: seq<string>, c: seq<string>) returns (r: seq<string>)
    ensures r == a + (b + c)
  {
    r := a + b;
    r := r + c;
  }

  lemma Unit(a: seq<string>)
    ensures a + [] == a
  {
  }

  lemma Regroup5(a: seq<string>, b: seq<string>, c: seq<string>, d: seq<string>, e: seq<string>)
    ensures a + b + c + d + e == a + (b + (c + (d + e)))
  {
  }

  /** No value has a line break. */
  predicate TargetIsLines(t: Target) {
    IsLine(t.host) && IsLine(t.apiKey) && (t.models == [] || IsLine(t.models[0].alias))
  }

  predicate AllLines(lines: seq<string>) {
    forall line :: line in lines ==> IsLine(line)
  }

  /** No line that is kept ends in a return. */
  ghost predicate NoReturnKept(c: Cleaned) {
    forall line :: line in c.head || line in c.tail || line in c.memories ==> !EndsInReturn(line)
  }

  lemma {:induction false} TrimmedChars(s: string)
    ensures forall c :: c in TrimLeft(s) || c in TrimRight(s) ==> c in s
    ensures forall c :: c in TrimQuotesLeft(s) || c in TrimQuotesRight(s) ==> c in s
    decreases |s|
  {
    if s != [] {
      TrimmedChars(s[1..]);
      TrimmedChars(s[..|s| - 1]);
      assert forall c :: c in s[1..] || c in s[..|s| - 1] ==> c in s;
    }
  }

  lemma ModelValueIsLine(line: string)
    requires IsLine(line)
    ensures IsLine(ModelValue(line))
  {
    var k := Find(line, "=");
    if Sets(MODEL, line) && k >= 0 {
      var v := line[k + 1..];
      assert forall c :: c in v ==> c in line;
      TrimmedChars(v);
      TrimmedChars(TrimLeft(v));
      TrimmedChars(TrimSpace(v));
      TrimmedChars(TrimQuotesLeft(TrimSpace(v)));
    }
  }

  lemma {:induction false} MemoryModelIsLine(lines: seq<string>)
    requires AllLines(lines)
    ensures IsLine(MemoryModel(lines))
  {
    if lines != [] {
      assert lines[0] in lines && forall line :: line in lines[1..] ==> line in lines;
      ModelValueIsLine(lines[0]);
      MemoryModelIsLine(lines[1..]);
    }
  }

  lemma OwnIsWritable(v: Values, line: string)
    requires ValuesAreLines(v) && IsOwn(v, line)
    ensures Writable(line)
  {
    RootBlockIsWritable(v);
    MemoryBlockIsWritable(v);
    ProviderSettingsAreWritable(v);
    HeadersAreWritable();
  }

  lemma RewriteIsLines(lines: seq<string>, t: Target, line: string)
    requires AllLines(lines) && TargetIsLines(t) && line in Rewrite(lines, t)
    ensures IsLine(line)
    ensures EndsInReturn(line) ==> !NoReturnKept(Clean(lines))
  {
    var v := ValuesFor(lines, t.host, t.apiKey, t.models);
    MemoryModelIsLine(lines);
    RenderedLines(Clean(lines), v);
    CleanedAreLines(lines);
    if IsOwn(v, line) {
      OwnIsWritable(v, line);
    }
  }

  lemma LastIsOwn(c: Cleaned, v: Values)
    ensures |Rendered(c, v)| > 1 && Rendered(c, v)[|Rendered(c, v)| - 1] == ProviderSettings(v)[3]
  {
    var p := ProviderPart(v);
    assert p[|p| - 1] == ProviderSettings(v)[3];
    var m := MemoriesPart(c, v) + p;
    assert m[|m| - 1] == p[|p| - 1];
    var t := TailPart(c) + m;
    assert t[|t| - 1] == p[|p| - 1];
    var r := RootBlock(v) + t;
    assert r[|r| - 1] == p[|p| - 1];
  }

  lemma SectionsAreRendered(c: Cleaned, v: Values, line: string)
    requires line in c.head || line in c.tail || line in c.memories
    ensures line in Rendered(c, v)
  {
    var m := MemoriesPart(c, v) + ProviderPart(v);
    var t := TailPart(c) + m;
    if line in c.head {
      assert line in HeadPart(c);
    } else if line in c.tail {
      assert line in TailPart(c) && line in t && line in RootBlock(v) + t;
    } else {
      assert line in c.memories + MemoryBlock(v);
      assert line in MemoriesPart(c, v) && line in m && line in t && line in RootBlock(v) + t;
    }
  }

  /** The next export reads the lines that this one wrote, exactly if none it kept ends in a
      return: of two returns in front of a line break only one is taken off per export. */
  lemma ReadBackIff(lines: seq<string>, t: Target)
    requires AllLines(lines) && TargetIsLines(t)
    ensures SplitLines(Join(Rewrite(lines, t), "\n")) == Rewrite(lines, t) <==> NoReturnKept(Clean(lines))
  {
    var out := Rewrite(lines, t);
    var v := ValuesFor(lines, t.host, t.apiKey, t.models);
    LastIsOwn(Clean(lines), v);
    MemoryModelIsLine(lines);
    OwnIsWritable(v, ProviderSettings(v)[3]);
    forall i | 0 <= i < |out| ensures IsLine(out[i]) && (EndsInReturn(out[i]) ==> !NoReturnKept(Clean(lines))) {
      RewriteIsLines(lines, t, out[i]);
    }
    SplitJoinIffNoReturns(out);
    if !NoReturnKept(Clean(lines)) {
      var c := Clean(lines);
      var line :| (line in c.head || line in c.tail || line in c.memories) && EndsInReturn(line);
      SectionsAreRendered(c, v, line);
      assert line in out && !NoReturns(out);
    }
  }

  /** The fixed point, on the text of the files. */
  lemma FileFixedPoint(content: string, t: Target)
    requires TargetFits(t) && TargetIsLines(t)
    requires var lines := SplitLines(content);
      WellFormed(lines) && (Clean(lines).memories == [] || ModelsFit(lines)) && NoReturnKept(Clean(lines))
    ensures var lines := SplitLines(content);
      var once := WriteText(content, t);
      var twice := WriteText(once, t);
      && (twice == once <==>
          Clean(lines).memories == [] || MemoryModel(Rewrite(lines, t)) == MemoryModel(lines))
      && WriteText(twice, t) == twice
  {
    var lines := SplitLines(content);
    SplitIsLines(StripReturns(content));
    var out1 := Rewrite(lines, t);
    ReadBackIff(lines, t);
    RewriteKeepsSections(lines, t);
    forall line | line in out1 ensures IsLine(line) { RewriteIsLines(lines, t, line); }
    ReadBackIff(out1, t);
    FixedPoint(lines, t);
  }
}
