/** The values that the lines of a TOML 1.0.0 document give to its keys: strings on one line and decimal
    integers. */
module TomlValues {
  import opened Wrappers
  import opened Text
  import opened TomlStrings
  import opened TomlLines

  datatype Value = Str(s: string) | Num(n: nat)

  function Digits(s: string): (digits: string)
    ensures digits <= s
  {
    if s != [] && '0' <= s[0] <= '9' then [s[0]] + Digits(s[1..]) else []
  }

  function Decimal(digits: string): nat {
    if digits == [] then 0
    else
      var last := digits[|digits| - 1];
      Decimal(digits[..|digits| - 1]) * 10 + if '0' <= last <= '9' then last as int - '0' as int else 0
  }

  /** A string, without anything behind it but blanks and a comment. */
  function Whole(p: Part): Option<Value> {
    if p.Part? && NothingBehind(p.rest) then Some(Str(p.name)) else None
  }

  function Integer(s: string): Option<Value> {
    var d := Digits(s);
    if d == [] || (|d| > 1 && d[0] == '0') || !NothingBehind(s[|d|..]) then None else Some(Num(Decimal(d)))
  }

  /** The value behind the equals sign; none of the kinds that are read here, or not on one line, gives None. */
  function ValueFrom(s: string): Option<Value> {
    if s == [] || Triple('"') <= s || Triple('\'') <= s then None
    else if s[0] == '"' then Whole(BasicString(s[1..]))
    else if s[0] == '\'' then Whole(LiteralString(s[1..]))
    else Integer(s)
  }

  /** The value of the key that a line sets. */
  function ValueOf(line: string): Option<Value> {
    var k := DottedKey(SkipBlanks(line));
    if k.Dotted? && k.rest != [] && k.rest[0] == '=' then ValueFrom(SkipBlanks(k.rest[1..])) else None
  }

  function ValuesOn(p: Place, line: string, path: Path): seq<Option<Value>> {
    if FullKey(p, line) == Some(path) then [ValueOf(line)] else []
  }

  /** The values that the lines give to the name, in order. */
  function ValuesAt(p: Place, lines: seq<string>, path: Path): seq<Option<Value>>
    decreases |lines|
  {
    if lines == [] then [] else ValuesOn(p, lines[0], path) + ValuesAt(Next(p, lines[0]), lines[1..], path)
  }

  /** The document gives that value to the name, and no other. */
  predicate Reads(lines: seq<string>, path: Path, value: Value) {
    ValuesAt(Root, lines, path) == [Some(value)]
  }

  lemma {:induction false} ValuesAppend(p: Place, a: seq<string>, b: seq<string>, path: Path)
    ensures ValuesAt(p, a + b, path) == ValuesAt(p, a, path) + ValuesAt(Last(p, a), b, path)
    decreases |a|
  {
    if a == [] {
      assert a + b == b;
    } else {
      assert (a + b)[1..] == a[1..] + b;
      ValuesAppend(Next(p, a[0]), a[1..], b, path);
    }
  }

  /** Where no line meets a name, none gives a value to it or to a name in it. */
  lemma {:induction false} NoneMetNoValue(p: Place, lines: seq<string>, name: Path, path: Path)
    requires Count(p, lines, Meets(name)) == 0 && name <= path
    ensures ValuesAt(p, lines, path) == []
    decreases |lines|
  {
    if lines != [] {
      assert !Hits(p, lines[0], Meets(name));
      NoneMetNoValue(Next(p, lines[0]), lines[1..], name, path);
    }
  }

  // --- Quotes. ---

  function Quotes(s: string): nat {
    if s == [] then 0 else One(s[0] == '"') + Quotes(s[1..])
  }

  lemma {:induction false} CountsQuotes(s: string)
    ensures Quotes(s) == 0 <==> '"' !in s
  {
    if s != [] {
      CountsQuotes(s[1..]);
    }
  }

  lemma {:induction false} QuotesConcat(a: string, b: string)
    ensures Quotes(a + b) == Quotes(a) + Quotes(b)
  {
    if a == [] {
      assert a + b == b;
    } else {
      assert (a + b)[1..] == a[1..] + b;
      QuotesConcat(a[1..], b);
    }
  }

  // --- How much text a string takes. ---

  predicate IsSpecial(c: char) {
    c == '"' || c == '\\' || IsControl(c)
  }

  /** The characters that cannot stand for themselves in a basic string. */
  function Specials(s: string): nat {
    if s == [] then 0 else One(IsSpecial(s[0])) + Specials(s[1..])
  }

  lemma {:induction false} SpecialsConcat(a: string, b: string)
    ensures Specials(a + b) == Specials(a) + Specials(b)
  {
    if a == [] {
      assert a + b == b;
    } else {
      assert (a + b)[1..] == a[1..] + b;
      SpecialsConcat(a[1..], b);
    }
  }

  lemma EscapeTakesTwo(s: string)
    requires Unescape(s).Part?
    ensures |Unescape(s).name| == 1 && |Unescape(s).rest| < |s|
    ensures Specials(Unescape(s).name) <= 1
  {
    var c := Unescape(s).name;
    assert c[1..] == [];
  }

  /** Each of them takes two characters at least. */
  lemma {:induction false} StringTakes(s: string)
    requires BasicString(s).Part?
    ensures var p := BasicString(s); |s| >= |p.rest| + 1 + |p.name| + Specials(p.name)
    decreases |s|
  {
    if s[0] != '"' {
      var first := if s[0] == '\\' then Unescape(s[1..]) else TomlLines.Part([s[0]], s[1..]);
      var more := BasicString(first.rest);
      StringTakes(first.rest);
      SpecialsConcat(first.name, more.name);
      if s[0] == '\\' {
        EscapeTakesTwo(s[1..]);
      } else {
        assert [s[0]][1..] == [];
      }
    }
  }
}
