/** Lines of a TOML 1.0.0 document: where a line stands, and which table or key it speaks of. */
module TomlLines {
  import opened Wrappers
  import opened Text
  import opened TomlSyntax
  import opened TomlStrings

  // --- Keys. ---

  /** A dotted name, quotes and escapes resolved. */
  type Path = seq<string>

  /** What was read, and what stands behind it. */
  datatype Part = NoPart | Part(name: string, rest: string)

  datatype Dotted = NoKey | Dotted(path: Path, rest: string)

  function SkipBlanks(s: string): (r: string)
    ensures |r| <= |s|
  {
    if s != [] && s[0] in {' ', '\t'} then SkipBlanks(s[1..]) else s
  }

  predicate IsBare(c: char) {
    'A' <= c <= 'Z' || 'a' <= c <= 'z' || '0' <= c <= '9' || c == '_' || c == '-'
  }

  predicate IsControl(c: char) {
    (c < ' ' && c != '\t') || c == '\U{007F}'
  }

  function BareName(s: string): (name: string)
    ensures name <= s
  {
    if s != [] && IsBare(s[0]) then [s[0]] + BareName(s[1..]) else []
  }

  function Digit(c: char): int {
    if '0' <= c <= '9' then c as int - '0' as int
    else if 'a' <= c <= 'f' then c as int - 'a' as int + 10
    else if 'A' <= c <= 'F' then c as int - 'A' as int + 10
    else -1
  }

  /** The value of hexadecimal digits, or -1. */
  function Hex(s: string): (n: int)
    ensures n >= -1
  {
    if s == [] then 0
    else
      var n, d := Hex(s[..|s| - 1]), Digit(s[|s| - 1]);
      if n < 0 || d < 0 then -1 else n * 16 + d
  }

  /** The character an escape of that many digits stands for. */
  function CodePoint(s: string, digits: nat): (r: Part)
    ensures r.Part? ==> |r.rest| <= |s|
  {
    if |s| < digits then NoPart
    else
      var n := Hex(s[..digits]);
      if 0 <= n < 0xD800 || 0xE000 <= n < 0x11_0000 then Part([n as char], s[digits..]) else NoPart
  }

  /** Behind a backslash. */
  function Unescape(s: string): (r: Part)
    ensures r.Part? ==> |r.rest| < |s|
  {
    if s == [] then NoPart
    else
      var rest := s[1..];
      match s[0]
      case 'b' => Part("\U{0008}", rest)
      case 't' => Part("\t", rest)
      case 'n' => Part("\n", rest)
      case 'f' => Part("\U{000C}", rest)
      case 'r' => Part("\r", rest)
      case '"' => Part("\"", rest)
      case '\\' => Part("\\", rest)
      case 'u' => CodePoint(rest, 4)
      case 'U' => CodePoint(rest, 8)
      case _ => NoPart
  }

  /** Behind the opening quote of a basic string. */
  function BasicString(s: string): (r: Part)
    ensures r.Part? ==> |r.rest| < |s|
    decreases |s|
  {
    if s == [] || IsControl(s[0]) then NoPart
    else if s[0] == '"' then Part("", s[1..])
    else
      var first := if s[0] == '\\' then Unescape(s[1..]) else Part([s[0]], s[1..]);
      if first.NoPart? then NoPart
      else
        var more := BasicString(first.rest);
        if more.NoPart? then NoPart else Part(first.name + more.name, more.rest)
  }

  /** Behind the opening quote of a literal string. */
  function LiteralString(s: string): (r: Part)
    ensures r.Part? ==> |r.rest| < |s|
  {
    if s == [] || IsControl(s[0]) then NoPart
    else if s[0] == '\'' then Part("", s[1..])
    else
      var more := LiteralString(s[1..]);
      if more.NoPart? then NoPart else Part([s[0]] + more.name, more.rest)
  }

  function SimpleKey(s: string): (r: Part)
    ensures r.Part? ==> |r.rest| < |s|
  {
    if s == [] then NoPart
    else if s[0] == '"' then BasicString(s[1..])
    else if s[0] == '\'' then LiteralString(s[1..])
    else if IsBare(s[0]) then Part(BareName(s), s[|BareName(s)|..])
    else NoPart
  }

  /** A key, bare, quoted or dotted, and what stands behind it and the blanks after it. */
  function DottedKey(s: string): (r: Dotted)
    ensures r.Dotted? ==> r.path != []
    decreases |s|
  {
    var first := SimpleKey(s);
    if first.NoPart? then NoKey
    else
      var rest := SkipBlanks(first.rest);
      if rest == [] || rest[0] != '.' then Dotted([first.name], rest)
      else
        var more := DottedKey(SkipBlanks(rest[1..]));
        if more.NoKey? then NoKey else Dotted([first.name] + more.path, more.rest)
  }

  /** The key that a line sets. */
  function KeyOf(line: string): Option<Path> {
    var k := DottedKey(SkipBlanks(line));
    if k.Dotted? && k.rest != [] && k.rest[0] == '=' then Some(k.path) else None
  }

  predicate NothingBehind(s: string) {
    var t := SkipBlanks(s);
    t == [] || t[0] == '#'
  }

  /** The table that a header between those brackets opens. */
  function TableBetween(s: string, open: string, close: string): Option<Path> {
    if open <= s then
      var k := DottedKey(SkipBlanks(s[|open|..]));
      if k.Dotted? && close <= k.rest && NothingBehind(k.rest[|close|..]) then Some(k.path) else None
    else None
  }

  /** The table that a header opens, arrays of tables included. */
  function HeaderPath(line: string): Option<Path> {
    var s := SkipBlanks(line);
    if "[[" <= s then TableBetween(s, "[[", "]]") else TableBetween(s, "[", "]")
  }

  // --- Where a line stands. ---

  /** Behind the last table header, in the string and at the depth of arrays that are open. */
  datatype Place = Place(header: Option<string>, delim: Delim, depth: nat)

  const Root := Place(None, NoDelim, 0)

  /** How many arrays are open behind the text; brackets count outside strings and comments only. */
  function Depth(m: Mode, depth: nat, s: string): nat
    decreases |s|
  {
    if s == [] then depth
    else
      var (to, n) := Token(m, s);
      Depth(to, if m != Bare then depth else Bracket(depth, s[0]), s[n..])
  }

  function Bracket(depth: nat, c: char): nat {
    if c == '[' then depth + 1 else if c == ']' && depth > 0 then depth - 1 else depth
  }

  /** A line starts an expression: no string and no array is open. */
  predicate Outside(p: Place) {
    p.delim == NoDelim && p.depth == 0
  }

  function Leads(p: Place, line: string): Place {
    Place(p.header, TomlAfter(p.delim, line), Depth(ModeOf(p.delim), p.depth, line))
  }

  /** A line that opens a table. */
  predicate IsTable(p: Place, line: string) {
    Outside(p) && "[" <= SkipBlanks(line) && Outside(Leads(p, line))
  }

  function Next(p: Place, line: string): Place {
    if IsTable(p, line) then Leads(p, line).(header := Some(line)) else Leads(p, line)
  }

  function Last(p: Place, lines: seq<string>): Place
    decreases |lines|
  {
    if lines == [] then p else Last(Next(p, lines[0]), lines[1..])
  }

  /** The table a line stands in; nothing, if its header cannot be read. */
  function TableAt(p: Place): Option<Path> {
    if p.header.None? then Some([]) else HeaderPath(p.header.value)
  }

  /** The full name of the key that a line sets. */
  function FullKey(p: Place, line: string): Option<Path> {
    if Outside(p) && !IsTable(p, line) && TableAt(p).Some? && KeyOf(line).Some?
    then Some(TableAt(p).value + KeyOf(line).value)
    else None
  }

  // --- Counting. ---

  /** What is counted: lines that define a name, part of it or something around it, and headers of
      exactly that table. */
  datatype Mark = Meets(path: Path) | HeaderOf(path: Path)

  /** A document can have a name once. It meets a name to open it or a table in it as a table, or to set
      it, something in it, or something it is in. */
  predicate Hits(p: Place, line: string, mark: Mark) {
    match mark
    case Meets(path) =>
      if IsTable(p, line) then HeaderPath(line).Some? && path <= HeaderPath(line).value
      else
        var full := FullKey(p, line);
        full.Some? && (path <= full.value || full.value <= path)
    case HeaderOf(path) => IsTable(p, line) && HeaderPath(line) == Some(path)
  }

  function Count(p: Place, lines: seq<string>, mark: Mark): nat
    decreases |lines|
  {
    if lines == [] then 0 else One(Hits(p, lines[0], mark)) + Count(Next(p, lines[0]), lines[1..], mark)
  }

  lemma {:induction false} CountAppend(p: Place, a: seq<string>, b: seq<string>, mark: Mark)
    ensures Count(p, a + b, mark) == Count(p, a, mark) + Count(Last(p, a), b, mark)
    ensures Last(p, a + b) == Last(Last(p, a), b)
    decreases |a|
  {
    if a == [] {
      assert a + b == b;
    } else {
      assert (a + b)[1..] == a[1..] + b;
      CountAppend(Next(p, a[0]), a[1..], b, mark);
    }
  }
}
