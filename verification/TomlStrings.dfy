/** Strings and comments as TOML 1.0.0 defines them, and when the tracker of the clean-up agrees. */
module TomlStrings {
  import opened Text
  import opened TomlSyntax

  const QUOTES := {'"', '\''}

  /** What the next character belongs to: nothing, a comment, a string of one line or of several. */
  datatype Mode = Bare | Comment | InString(quote: char) | InMulti(quote: char)

  function Triple(q: char): string {
    [q, q, q]
  }

  /** Up to two quotes may stand directly in front of the three that close. */
  function Further(q: char, s: string): (n: nat)
    ensures n <= |s|
  {
    if s == [] || s[0] != q then 0 else if |s| == 1 || s[1] != q then 1 else 2
  }

  /** The mode behind the next token, and how long it is. A backslash escapes in basic strings only. */
  function Token(m: Mode, s: string): (r: (Mode, nat))
    requires s != []
    ensures 1 <= r.1 <= |s|
  {
    match m
    case Bare =>
      if s[0] == '#' then (Comment, |s|)
      else if s[0] !in QUOTES then (Bare, 1)
      else if Triple(s[0]) <= s then (InMulti(s[0]), 3)
      else (InString(s[0]), 1)
    case Comment => (Comment, |s|)
    case InString(q) =>
      if q == '"' && s[0] == '\\' then (m, if |s| > 1 then 2 else 1)
      else if s[0] == q then (Bare, 1)
      else (m, 1)
    case InMulti(q) =>
      if q == '"' && s[0] == '\\' then (m, if |s| > 1 then 2 else 1)
      else if Triple(q) <= s then (Bare, 3 + Further(q, s[3..]))
      else (m, 1)
  }

  function Scan(m: Mode, s: string): Mode
    decreases |s|
  {
    if s == [] then m else Scan(Token(m, s).0, s[Token(m, s).1..])
  }

  /** No quote stands directly behind a string that has ended: no TOML file has one there. */
  predicate Sound(m: Mode, s: string)
    decreases |s|
  {
    s == [] ||
    var (to, n) := Token(m, s);
    (m.InString? || m.InMulti? ==> to == Bare ==> n == |s| || s[n] !in QUOTES) && Sound(to, s[n..])
  }

  function QuoteOf(d: Delim): char {
    if d == Basic then '"' else '\''
  }

  function ModeOf(d: Delim): Mode {
    if d == NoDelim then Bare else InMulti(QuoteOf(d))
  }

  function DelimOf(m: Mode): Delim {
    if m == InMulti('"') then Basic else if m == InMulti('\'') then Literal else NoDelim
  }

  /** The multi-line string that is open behind a line. Other strings and comments end with their line. */
  function TomlAfter(d: Delim, line: string): Delim {
    DelimOf(Scan(ModeOf(d), line))
  }

  lemma {:induction false} FindDrops(s: string, mark: string, n: nat)
    requires n <= |s| && mark != []
    ensures Find(s, mark) < 0 ==> Find(s[n..], mark) < 0
    ensures Find(s, mark) >= n ==> Find(s[n..], mark) == Find(s, mark) - n
  {
    if n == 0 {
      assert s[0..] == s;
    } else if !(mark <= s) {
      FindDrops(s[1..], mark, n - 1);
      DropDrop(s, 1, n - 1);
    }
  }

  /** Without its mark no multi-line string starts or ends. */
  lemma {:induction false} WithoutMark(m: Mode, s: string, q: char)
    requires Find(s, Triple(q)) < 0
    ensures Scan(m, s) == InMulti(q) <==> m == InMulti(q)
    decreases |s|
  {
    if s != [] {
      var (to, n) := Token(m, s);
      FindDrops(s, Triple(q), n);
      WithoutMark(to, s[n..], q);
    }
  }

  /** Where the quote is a character like any other, so are three of them. */
  lemma Passes(m: Mode, s: string, q: char)
    requires Triple(q) <= s && (m.InString? || m.InMulti?) && m.quote != q && q != '\\'
    ensures Scan(m, s) == Scan(m, s[3..])
  {
    assert s[0] == s[1] == s[2] == q;
    PassesOne(m, s, q);
    assert s[1..][0] == q && s[1..][1..] == s[2..];
    PassesOne(m, s[1..], q);
    assert s[2..][0] == q && s[2..][1..] == s[3..];
    PassesOne(m, s[2..], q);
  }

  lemma PassesOne(m: Mode, s: string, q: char)
    requires s != [] && s[0] == q && (m.InString? || m.InMulti?) && m.quote != q && q != '\\'
    ensures Scan(m, s) == Scan(m, s[1..])
  {
    assert Token(m, s) == (m, 1);
  }

  lemma ThreeAreThree(s: string, q: char, k: nat)
    requires Find(s, Triple(q)) == k
    ensures k + 3 <= |s| && s[k] == s[k + 1] == s[k + 2] == q
  {
    FoundAt(s, Triple(q));
    assert Triple(q)[0] == Triple(q)[1] == Triple(q)[2] == q;
  }

  /** A mark opens a multi-line string where nothing is open, and nowhere else. */
  lemma AtMark(m: Mode, s: string, q: char)
    requires q in QUOTES && m != InMulti(q) && Sound(m, s)
    requires Triple(q) <= s && Find(s[3..], Triple(q)) < 0
    ensures Scan(m, s) == InMulti(q) <==> m == Bare
  {
    assert s[0] == s[1] == q;
    if m == Bare {
      WithoutMark(InMulti(q), s[3..], q);
    } else if (m.InString? || m.InMulti?) && m.quote != q {
      Passes(m, s, q);
      WithoutMark(m, s[3..], q);
    }
  }

  lemma QuoteBehind(s: string, q: char)
    requires q in QUOTES && |s| > 1 && s[0] == s[1] == q
    ensures !Sound(InString(q), s)
  {
    assert Token(InString(q), s) == (Bare, 1);
  }

  lemma NotYet(m: Mode, s: string, q: char, k: nat)
    requires Find(s, Triple(q)) == k && k > 0 && m != InMulti(q)
    ensures Token(m, s).0 != InMulti(q)
  {
  }

  /** The same where the first quote is escaped: this opens nothing. */
  lemma AtEscape(m: Mode, s: string, q: char)
    requires q in QUOTES && m != InMulti(q) && Sound(m, s) && (m.InString? || m.InMulti?) && m.quote == '"'
    requires |s| > 3 && s[0] == '\\' && s[1] == s[2] == s[3] == q && Find(s[4..], Triple(q)) < 0
    ensures Scan(m, s) != InMulti(q)
  {
    assert Token(m, s) == (m, 2);
    assert s[2..][0] == q && s[2..][1] == q && s[2..][1..] == s[3..];
    if q == '"' {
      QuoteBehind(s[2..], q);
    } else {
      PassesOne(m, s[2..], q);
      assert s[3..][0] == q && s[3..][1..] == s[4..];
      PassesOne(m, s[3..], q);
      WithoutMark(m, s[4..], q);
    }
  }

  lemma TokenOfPrefix(m: Mode, s: string, k: nat)
    requires 0 < k <= |s| && Token(m, s).1 <= k && !(k < |s| && Token(m, s).0 == Comment)
    ensures Token(m, s[..k]) == Token(m, s)
  {
    var t := s[..k];
    assert t[0] == s[0];
    forall q | Triple(q) <= s && k >= 3 ensures Triple(q) <= t && t[3..] == s[3..][..k - 3] {
    }
  }

  lemma Shifted(s: string, n: nat, k: nat)
    requires n <= k <= |s| - 3
    ensures s[..k][n..] == s[n..][..k - n] && s[n..][k - n + 3..] == s[k + 3..]
  {
    DropDrop(s, n, k - n + 3);
  }

  /** A token in front of the mark can be left out. */
  lemma ScanPrefix(m: Mode, s: string, k: nat)
    requires 0 < k <= |s| - 3 && Token(m, s).1 <= k
    ensures Scan(m, s[..k]) == Scan(Token(m, s).0, s[Token(m, s).1..][..k - Token(m, s).1])
  {
    TokenOfPrefix(m, s, k);
    Shifted(s, Token(m, s).1, k);
  }

  lemma InComment(m: Mode, s: string, k: nat)
    requires 0 < k <= |s| && Token(m, s).0 == Comment
    ensures Scan(m, s) == Scan(m, s[..k]) == Comment
  {
    assert s[..k][0] == s[0];
    assert Token(m, s) == (Comment, |s|) && Token(m, s[..k]) == (Comment, k);
    assert s[|s|..] == [] && s[..k][k..] == [];
  }

  /** A token that reaches over the start of the mark is a comment or an escape. */
  lemma OverMark(m: Mode, s: string, q: char, k: nat)
    requires q in QUOTES && Find(s, Triple(q)) == k && 0 < k < Token(m, s).1
    ensures Token(m, s).0 == Comment || (k == 1 && s[0] == '\\' && (m.InString? || m.InMulti?) && m.quote == '"')
  {
    ThreeAreThree(s, q, k);
  }

  /** The mark is there once. */
  predicate OnlyAt(s: string, q: char, k: nat) {
    Find(s, Triple(q)) == k && Find(s[k + 3..], Triple(q)) < 0
  }

  predicate OpensIffBare(m: Mode, s: string, q: char, k: nat)
    requires k <= |s|
  {
    Scan(m, s) == InMulti(q) <==> Scan(m, s[..k]) == Bare
  }

  lemma OnlyAtRest(s: string, q: char, k: nat, n: nat)
    requires OnlyAt(s, q, k) && n <= k
    ensures OnlyAt(s[n..], q, k - n)
  {
    FindDrops(s, Triple(q), n);
    Shifted(s, n, k);
  }

  lemma OverTheMark(m: Mode, s: string, q: char, k: nat)
    requires q in QUOTES && m != InMulti(q) && Sound(m, s) && OnlyAt(s, q, k) && 0 < k < Token(m, s).1
    ensures OpensIffBare(m, s, q, k)
  {
    OverMark(m, s, q, k);
    if Token(m, s).0 == Comment {
      InComment(m, s, k);
    } else {
      ThreeAreThree(s, q, k);
      AtEscape(m, s, q);
      assert Token(m, s[..1]) == (m, 1);
    }
  }

  /** The only mark of its kind in a line opens a multi-line string exactly if what stands in front
      of it leaves neither a comment nor a string open. */
  lemma {:induction false} OneMark(m: Mode, s: string, q: char, k: nat)
    requires q in QUOTES && m != InMulti(q) && Sound(m, s) && OnlyAt(s, q, k)
    ensures OpensIffBare(m, s, q, k)
    decreases |s|
  {
    if k == 0 {
      AtMark(m, s, q);
    } else if Token(m, s).1 <= k {
      var (to, n) := Token(m, s);
      OnlyAtRest(s, q, k, n);
      NotYet(m, s, q, k);
      OneMark(to, s[n..], q, k - n);
      ScanPrefix(m, s, k);
    } else {
      OverTheMark(m, s, q, k);
    }
  }

  // --- The mark inside a multi-line string. ---

  /** How many backslashes stand directly in front. */
  function Backslashes(s: string, k: nat): nat
    requires k <= |s|
  {
    if k == 0 || s[k - 1] != '\\' then 0 else 1 + Backslashes(s, k - 1)
  }

  predicate Escaped(q: char, s: string, k: nat)
    requires k <= |s|
  {
    q == '"' && Backslashes(s, k) % 2 == 1
  }

  lemma {:induction false} BackslashesOfRest(s: string, n: nat, k: nat)
    requires n <= k <= |s| && n == if s != [] && s[0] == '\\' then 2 else 1
    ensures Backslashes(s[n..], k - n) % 2 == Backslashes(s, k) % 2
  {
    if k > n {
      assert s[n..][k - n - 1] == s[k - 1];
      BackslashesOfRest(s, n, k - 1);
    } else {
      assert Backslashes(s, 1) == if s[0] == '\\' then 1 else 0;
    }
  }

  lemma NoneBehind(s: string, q: char, n: nat)
    requires 1 <= n <= |s| && Find(s[1..], Triple(q)) < 0
    ensures Find(s[n..], Triple(q)) < 0
  {
    DropDrop(s, 1, n - 1);
    FindDrops(s[1..], Triple(q), n - 1);
  }

  /** The only mark of a multi-line string's kind closes it exactly if it is not escaped. */
  lemma {:induction false} ClosingMark(s: string, q: char, k: nat)
    requires q in QUOTES && Find(s, Triple(q)) == k && Find(s[k + 1..], Triple(q)) < 0
    ensures Scan(InMulti(q), s) == InMulti(q) <==> Escaped(q, s, k)
    decreases |s|
  {
    var m := InMulti(q);
    ThreeAreThree(s, q, k);
    var n := Token(m, s).1;
    if k == 0 {
      NoneBehind(s, q, n);
      WithoutMark(Bare, s[n..], q);
    } else if n <= k {
      FindDrops(s, Triple(q), n);
      DropDrop(s, n, k - n + 1);
      ClosingMark(s[n..], q, k - n);
      if q == '"' {
        BackslashesOfRest(s, n, k);
      }
    } else {
      assert s[0] == '\\' && Backslashes(s, 1) == 1;
      WithoutMark(m, s[2..], q);
    }
  }

  // --- The tracker. ---

  /** The tracker of the clean-up is where TOML is behind the line. */
  predicate Agrees(d: Delim, line: string) {
    Track(d, line).0 == TomlAfter(d, line)
  }

  lemma MarkIsTriple(d: Delim)
    requires d != NoDelim
    ensures d.Mark() == Triple(QuoteOf(d)) && QuoteOf(d) in QUOTES
  {
  }

  lemma OpenIs(d: Delim, m: Mode)
    ensures d != NoDelim ==> (DelimOf(m) == d <==> m == InMulti(QuoteOf(d)))
    ensures DelimOf(m) == NoDelim <==> m != InMulti('"') && m != InMulti('\'')
  {
  }

  /** On a line without a mark the tracker is right. */
  lemma UnmarkedAgrees(d: Delim, line: string)
    requires if d == NoDelim then MarkIn(line) == NoDelim else Find(line, d.Mark()) < 0
    ensures TomlAfter(d, line) == d && Agrees(d, line)
  {
    OpenIs(d, Scan(ModeOf(d), line));
    if d != Literal {
      MarkIsTriple(Basic);
      WithoutMark(ModeOf(d), line, '"');
    }
    if d != Basic {
      MarkIsTriple(Literal);
      WithoutMark(ModeOf(d), line, '\'');
    }
  }

  lemma OpensIff(line: string, d: Delim, k: nat)
    requires Sound(Bare, line) && d != NoDelim && OnlyAt(line, QuoteOf(d), k)
    ensures TomlAfter(NoDelim, line) == d <==> Scan(Bare, line[..k]) == Bare
  {
    MarkIsTriple(d);
    OpenIs(d, Scan(Bare, line));
    OneMark(Bare, line, QuoteOf(d), k);
  }

  /** On a line that opens a string, in the eyes of the tracker, it is right exactly if what stands
      in front of the mark leaves neither a comment nor a string open. */
  lemma OpeningAgreesIff(line: string)
    requires Sound(Bare, line) && MarkIn(line) != NoDelim && !ClosedInLine(line, MarkIn(line).Mark())
    ensures Agrees(NoDelim, line) <==> Scan(Bare, line[..Find(line, MarkIn(line).Mark())]) == Bare
  {
    var d := MarkIn(line);
    MarkIsTriple(d);
    OnlyMark(line, d.Mark(), QuoteOf(d));
    OpensIff(line, d, Find(line, d.Mark()));
  }

  lemma OnlyMark(line: string, mark: string, q: char)
    requires mark == Triple(q) && Find(line, mark) >= 0 && !ClosedInLine(line, mark)
    ensures OnlyAt(line, q, Find(line, mark))
  {
  }

  lemma ClosesIff(line: string, d: Delim, other: Delim, k: nat)
    requires d != NoDelim && other != NoDelim && d != other && Find(line, Triple(QuoteOf(other))) < 0
    requires Find(line, Triple(QuoteOf(d))) == k && Find(line[k + 1..], Triple(QuoteOf(d))) < 0
    ensures TomlAfter(d, line) == NoDelim <==> !Escaped(QuoteOf(d), line, k)
  {
    MarkIsTriple(d);
    OpenIs(d, Scan(ModeOf(d), line));
    ClosingMark(line, QuoteOf(d), k);
    WithoutMark(ModeOf(d), line, QuoteOf(other));
  }

  /** With one mark of the string that is open, and none of the other kind, the tracker is right
      exactly if the mark is not escaped: it takes an escaped one for the end. */
  lemma ClosingAgreesIff(d: Delim, line: string)
    requires d != NoDelim && Find(line, d.Mark()) >= 0 && Find(line[Find(line, d.Mark()) + 1..], d.Mark()) < 0
    requires Find(line, (if d == Basic then Literal else Basic).Mark()) < 0
    ensures Agrees(d, line) <==> !Escaped(QuoteOf(d), line, Find(line, d.Mark()))
  {
    var other := if d == Basic then Literal else Basic;
    MarkIsTriple(d);
    MarkIsTriple(other);
    ClosesIff(line, d, other, Find(line, d.Mark()));
  }

  // --- What stands in a line. ---

  predicate MarkAt(s: string, k: nat) {
    k + 3 <= |s| && s[k] in QUOTES && Triple(s[k]) <= s[k..]
  }

  /** A mark with no comment and no string open in front of it. */
  predicate OpensAt(m: Mode, s: string, k: nat) {
    MarkAt(s, k) && Scan(m, s[..k]) == Bare
  }

  /** A mark of the open string that is not escaped. */
  predicate ClosesAt(q: char, s: string, k: nat) {
    k + 3 <= |s| && Triple(q) <= s[k..] && !Escaped(q, s, k)
  }

  lemma MarkOfRest(s: string, n: nat, k: nat)
    requires n <= k <= |s|
    ensures MarkAt(s, k) <==> MarkAt(s[n..], k - n)
    ensures k < |s| ==> s[n..][k - n] == s[k]
    ensures forall q :: Triple(q) <= s[k..] <==> Triple(q) <= s[n..][k - n..]
  {
    assert s[n..][k - n..] == s[k..];
  }

  lemma EscapeAlone(m: Mode, s: string)
    requires m.InString? && s != [] && Token(m, s).1 == 2
    ensures Scan(m, s[..1]) == m
  {
    assert s[..1][0] == s[0] && s[..1][1..] == [];
    assert Token(m, s[..1]) == (m, 1) && Scan(m, []) == m;
  }

  /** Behind a token, what opens is what opened. */
  lemma OpensInRest(m: Mode, s: string, k: nat)
    requires s != [] && !m.InMulti? && k <= |s| && !Token(m, s).0.InMulti?
    ensures k < Token(m, s).1 ==> !OpensAt(m, s, k)
    ensures k >= Token(m, s).1 ==>
      (OpensAt(m, s, k) <==> OpensAt(Token(m, s).0, s[Token(m, s).1..], k - Token(m, s).1))
  {
    var (to, n) := Token(m, s);
    if k >= n {
      MarkOfRest(s, n, k);
      if k + 3 <= |s| {
        ScanPrefix(m, s, k);
      }
    } else if MarkAt(s, k) {
      if k == 0 {
        assert s[0..] == s;
      } else if to == Comment {
        InComment(m, s, k);
      } else {
        assert k == 1 && m.InString?;
        EscapeAlone(m, s);
      }
    }
  }

  lemma OpensHere(s: string)
    requires MarkAt(s, 0)
    ensures OpensAt(Bare, s, 0) && Scan(Bare, s) == Scan(InMulti(s[0]), s[3..])
  {
    assert s[..0] == [] && s[0..] == s;
  }

  lemma OpensNotHere(m: Mode, s: string)
    requires s != [] && !m.InMulti? && !(m == Bare && MarkAt(s, 0))
    ensures !Token(m, s).0.InMulti?
  {
    assert s[0..] == s;
  }

  ghost predicate OpensFirst(m: Mode, s: string, k: nat) {
    OpensAt(m, s, k) && forall j :: 0 <= j < k ==> !OpensAt(m, s, j)
  }

  lemma FirstInRest(m: Mode, s: string, k: nat)
    requires !m.InMulti? && OpensFirst(m, s, k) && !(m == Bare && MarkAt(s, 0))
    ensures var (to, n) := Token(m, s);
      !to.InMulti? && n <= k && OpensFirst(to, s[n..], k - n)
  {
    var (to, n) := Token(m, s);
    OpensNotHere(m, s);
    OpensInRest(m, s, k);
    forall j | 0 <= j < k - n ensures !OpensAt(to, s[n..], j) {
      OpensInRest(m, s, n + j);
    }
  }

  /** The first mark that opens does open a multi-line string. */
  lemma {:induction false} FirstOpens(m: Mode, s: string, k: nat)
    requires !m.InMulti? && OpensFirst(m, s, k)
    ensures Scan(m, s) == Scan(InMulti(s[k]), s[k + 3..])
    decreases |s|
  {
    if m == Bare && MarkAt(s, 0) {
      OpensHere(s);
    } else {
      var (to, n) := Token(m, s);
      FirstInRest(m, s, k);
      FirstOpens(to, s[n..], k - n);
      RestOfRest(s, n, k);
    }
  }

  lemma RestOfRest(s: string, n: nat, k: nat)
    requires n <= k && k + 3 <= |s|
    ensures s[n..][k - n] == s[k] && s[n..][k - n + 3..] == s[k + 3..]
  {
    DropDrop(s, n, k - n + 3);
  }

  /** If no mark opens, no multi-line string is open at the end. */
  lemma {:induction false} NoneOpens(m: Mode, s: string)
    requires !m.InMulti? && forall j :: 0 <= j < |s| ==> !OpensAt(m, s, j)
    ensures !Scan(m, s).InMulti?
    decreases |s|
  {
    if s != [] {
      var (to, n) := Token(m, s);
      assert s[..0] == [] && s[0..] == s;
      assert !OpensAt(m, s, 0);
      forall j | 0 <= j < |s[n..]| ensures !OpensAt(to, s[n..], j) {
        OpensInRest(m, s, n + j);
      }
      NoneOpens(to, s[n..]);
    }
  }

  lemma ClosesInRest(q: char, s: string, k: nat)
    requires q in QUOTES && s != [] && k <= |s| && Token(InMulti(q), s).0 == InMulti(q)
    ensures var n := Token(InMulti(q), s).1;
      (k < n ==> !ClosesAt(q, s, k)) && (k >= n ==> (ClosesAt(q, s, k) <==> ClosesAt(q, s[n..], k - n)))
  {
    var n := Token(InMulti(q), s).1;
    if k >= n {
      MarkOfRest(s, n, k);
      if q == '"' && (|s| > 1 || s[0] != '\\') {
        BackslashesOfRest(s, n, k);
      }
    } else if k == 0 {
      assert s[0..] == s;
    } else {
      assert Backslashes(s, 1) == 1;
    }
  }

  /** The first mark that is not escaped closes the string. */
  lemma {:induction false} FirstCloses(q: char, s: string, k: nat)
    requires q in QUOTES && ClosesAt(q, s, k) && forall j :: 0 <= j < k ==> !ClosesAt(q, s, j)
    ensures Scan(InMulti(q), s) == Scan(Bare, s[k + 3..][Further(q, s[k + 3..])..])
    decreases |s|
  {
    var (to, n) := Token(InMulti(q), s);
    if to == InMulti(q) {
      ClosesInRest(q, s, k);
      forall j | 0 <= j < k - n ensures !ClosesAt(q, s[n..], j) {
        ClosesInRest(q, s, n + j);
      }
      FirstCloses(q, s[n..], k - n);
      RestOfRest(s, n, k);
    } else {
      assert s[0..] == s && ClosesAt(q, s, 0);
      DropDrop(s, 3, Further(q, s[3..]));
    }
  }

  lemma {:induction false} NoneCloses(q: char, s: string)
    requires q in QUOTES && forall j :: 0 <= j < |s| ==> !ClosesAt(q, s, j)
    ensures Scan(InMulti(q), s) == InMulti(q)
    decreases |s|
  {
    if s != [] {
      var (to, n) := Token(InMulti(q), s);
      assert s[0..] == s && !ClosesAt(q, s, 0);
      forall j | 0 <= j < |s[n..]| ensures !ClosesAt(q, s[n..], j) {
        ClosesInRest(q, s, n + j);
      }
      NoneCloses(q, s[n..]);
    }
  }

  /** The first mark from there on that opens, or the end of the line. */
  function FirstOpener(s: string, from: nat): (k: nat)
    requires from <= |s|
    ensures from <= k <= |s| && (k < |s| ==> OpensAt(Bare, s, k))
    ensures forall j :: from <= j < k ==> !OpensAt(Bare, s, j)
    decreases |s| - from
  {
    if from == |s| || OpensAt(Bare, s, from) then from else FirstOpener(s, from + 1)
  }

  function FirstCloser(q: char, s: string, from: nat): (k: nat)
    requires from <= |s|
    ensures from <= k <= |s| && (k < |s| ==> ClosesAt(q, s, k))
    ensures forall j :: from <= j < k ==> !ClosesAt(q, s, j)
    decreases |s| - from
  {
    if from == |s| || ClosesAt(q, s, from) then from else FirstCloser(q, s, from + 1)
  }

  /** Every mark that opens is followed by one of its kind that is not escaped, and so on: from outside,
      no mark opens, or what the first one opens is closed; from inside, the first mark that is not
      escaped closes, and what stands behind it leaves nothing open. */
  predicate LeavesNothingOpen(d: Delim, s: string)
    decreases |s|
  {
    if d == NoDelim then
      var k := FirstOpener(s, 0);
      k == |s| || LeavesNothingOpen(if s[k] == '"' then Basic else Literal, s[k + 3..])
    else
      var k := FirstCloser(QuoteOf(d), s, 0);
      k < |s| && LeavesNothingOpen(NoDelim, s[k + 3..][Further(QuoteOf(d), s[k + 3..])..])
  }

  lemma {:induction false} OutsideIffNothingOpen(d: Delim, s: string)
    ensures TomlAfter(d, s) == NoDelim <==> LeavesNothingOpen(d, s)
    decreases |s|
  {
    if d == NoDelim {
      var k := FirstOpener(s, 0);
      if k == |s| {
        NoneOpens(Bare, s);
      } else {
        FirstOpens(Bare, s, k);
        OutsideIffNothingOpen(if s[k] == '"' then Basic else Literal, s[k + 3..]);
      }
    } else {
      var q := QuoteOf(d);
      var k := FirstCloser(q, s, 0);
      if k == |s| {
        NoneCloses(q, s);
      } else {
        FirstCloses(q, s, k);
        OutsideIffNothingOpen(NoDelim, s[k + 3..][Further(q, s[k + 3..])..]);
      }
    }
  }

  /** When the tracker is where TOML is behind a line. */
  lemma TrackerAgreesIff(d: Delim, line: string)
    requires Sound(ModeOf(d), line)
    ensures var m := if d == NoDelim then MarkIn(line) else d;
      Agrees(d, line) <==>
        || m == NoDelim
        || Find(line, m.Mark()) < 0
        || (if d == NoDelim && !ClosedInLine(line, m.Mark())
            then Scan(Bare, line[..Find(line, m.Mark())]) == Bare
            else LeavesNothingOpen(d, line))
  {
    OutsideIffNothingOpen(d, line);
    if d == NoDelim {
      if MarkIn(line) == NoDelim {
        UnmarkedAgrees(d, line);
      } else if !ClosedInLine(line, MarkIn(line).Mark()) {
        OpeningAgreesIff(line);
      }
    } else if Find(line, d.Mark()) < 0 {
      UnmarkedAgrees(d, line);
    }
  }

  /** Two marks of one kind, at k and j, that do not overlap, and none of the other. */
  predicate Pair(line: string, q: char, other: char, k: nat, j: nat) {
    && {q, other} == QUOTES && Find(line, Triple(other)) < 0
    && Find(line, Triple(q)) == k && k + 3 <= j
    && Find(line[k + 1..], Triple(q)) == j - k - 1 && Find(line[j + 1..], Triple(q)) < 0
  }

  lemma OnlyInPair(line: string, q: char, other: char, k: nat, j: nat, p: nat)
    requires Pair(line, q, other, k, j) && MarkAt(line, p)
    ensures p == k || p == j
  {
    if line[p] == other {
      FindIsFirst(line, Triple(other), p);
    } else {
      FindIsFirst(line, Triple(q), p);
      if k < p < j {
        DropDrop(line, k + 1, p - k - 1);
        FindIsFirst(line[k + 1..], Triple(q), p - k - 1);
      } else if p > j {
        DropDrop(line, j + 1, p - j - 1);
        FindIsFirst(line[j + 1..], Triple(q), p - j - 1);
      }
    }
  }

  lemma PairIsThere(line: string, q: char, other: char, k: nat, j: nat)
    requires Pair(line, q, other, k, j)
    ensures j + 3 <= |line| && MarkAt(line, k) && MarkAt(line, j) && line[k] == line[j] == q
  {
    FindIsThere(line, Triple(q));
    FindIsThere(line[k + 1..], Triple(q));
    DropDrop(line, k + 1, j - k - 1);
    assert line[k] == line[k..][0] && line[j] == line[j..][0];
  }

  lemma BehindFirst(line: string, q: char, other: char, k: nat, j: nat, rest: string, i: nat)
    requires Pair(line, q, other, k, j) && j + 3 <= |line| && rest == line[k + 3..] && i == j - k - 3
    ensures Find(rest, Triple(q)) == i
  {
    FoundFurther(line, Triple(q), k + 1, rest);
  }

  lemma NoThird(line: string, q: char, other: char, k: nat, j: nat, rest: string, i: nat)
    requires Pair(line, q, other, k, j) && j + 3 <= |line| && rest == line[k + 3..] && i == j - k - 3
    ensures i + 1 <= |rest| && Find(rest[i + 1..], Triple(q)) < 0
  {
    SameRest(line, k + 3, i + 1, j + 1, rest);
  }

  lemma NoOther(line: string, other: char, k: nat, rest: string)
    requires Find(line, Triple(other)) < 0 && k + 3 <= |line| && rest == line[k + 3..]
    ensures Find(rest, Triple(other)) < 0
  {
    FindDrops(line, Triple(other), k + 3);
  }

  lemma FoundFurther(line: string, mark: string, a: nat, rest: string)
    requires mark != [] && a + 2 <= |line| && rest == line[a + 2..] && Find(line[a..], mark) >= 2
    ensures Find(rest, mark) == Find(line[a..], mark) - 2
  {
    FindDrops(line[a..], mark, 2);
    DropDrop(line, a, 2);
  }

  lemma SameRest(line: string, a: nat, b: nat, c: nat, rest: string)
    requires a + b == c <= |line| && rest == line[a..]
    ensures rest[b..] == line[c..]
  {
  }

  lemma FirstOfPair(line: string, q: char, other: char, k: nat, j: nat, rest: string, i: nat)
    requires Pair(line, q, other, k, j) && j + 3 <= |line| && rest == line[k + 3..] && i == j - k - 3
    requires OpensAt(Bare, line, k) && line[k] == q
    ensures TomlAfter(NoDelim, line) == NoDelim <==> !Escaped(q, rest, i)
  {
    forall p | 0 <= p < k ensures !OpensAt(Bare, line, p) {
      if MarkAt(line, p) {
        OnlyInPair(line, q, other, k, j, p);
      }
    }
    FirstOpens(Bare, line, k);
    BehindFirst(line, q, other, k, j, rest, i);
    NoThird(line, q, other, k, j, rest, i);
    NoOther(line, other, k, rest);
    ClosingMark(rest, q, i);
    WithoutMark(InMulti(q), rest, other);
    OpenIs(NoDelim, Scan(Bare, line));
  }

  lemma SecondOfPair(line: string, q: char, other: char, k: nat, j: nat)
    requires Pair(line, q, other, k, j) && !OpensAt(Bare, line, k) && OpensAt(Bare, line, j) && line[j] == q
    ensures TomlAfter(NoDelim, line) != NoDelim
  {
    forall p | 0 <= p < j ensures !OpensAt(Bare, line, p) {
      if MarkAt(line, p) {
        OnlyInPair(line, q, other, k, j, p);
      }
    }
    FirstOpens(Bare, line, j);
    FindDrops(line[j + 1..], Triple(q), 2);
    DropDrop(line, j + 1, 2);
    WithoutMark(InMulti(q), line[j + 3..], q);
    OpenIs(NoDelim, Scan(Bare, line));
  }

  lemma NeitherOfPair(line: string, q: char, other: char, k: nat, j: nat)
    requires Pair(line, q, other, k, j) && !OpensAt(Bare, line, k) && !OpensAt(Bare, line, j)
    ensures TomlAfter(NoDelim, line) == NoDelim
  {
    forall p | 0 <= p < |line| ensures !OpensAt(Bare, line, p) {
      if MarkAt(line, p) {
        OnlyInPair(line, q, other, k, j, p);
      }
    }
    NoneOpens(Bare, line);
    OpenIs(NoDelim, Scan(Bare, line));
  }

  /** On a line outside strings with such a pair of marks the tracker takes the string for closed. It is
      right exactly if TOML is bare in front of the first and the second is not escaped, or bare in front
      of neither. */
  lemma TwoMarksAgreeIff(line: string, q: char, other: char, k: nat, j: nat)
    requires Pair(line, q, other, k, j)
    ensures j + 3 <= |line|
    ensures Agrees(NoDelim, line)
       <==> if Scan(Bare, line[..k]) == Bare
            then !Escaped(q, line[k + 3..], j - k - 3)
            else Scan(Bare, line[..j]) != Bare
  {
    PairIsThere(line, q, other, k, j);
    PairIsClosed(line, q, other, k, j);
    if Scan(Bare, line[..k]) == Bare {
      FirstOfPair(line, q, other, k, j, line[k + 3..], j - k - 3);
    } else if Scan(Bare, line[..j]) == Bare {
      SecondOfPair(line, q, other, k, j);
    } else {
      NeitherOfPair(line, q, other, k, j);
    }
  }

  lemma PairIsClosed(line: string, q: char, other: char, k: nat, j: nat)
    requires Pair(line, q, other, k, j) && j + 3 <= |line|
    ensures Track(NoDelim, line) == (NoDelim, false)
  {
    MarkIsTriple(Basic);
    MarkIsTriple(Literal);
    BehindFirst(line, q, other, k, j, line[k + 3..], j - k - 3);
    var d := if q == '"' then Basic else Literal;
    assert MarkIn(line) == d && d.Mark() == Triple(q);
    assert ClosedInLine(line, d.Mark());
  }

  /** A mark in a comment opens a string for the tracker, and none for TOML. */
  lemma CommentMisleads(before: string, d: Delim)
    requires '"' !in before && '\'' !in before && '#' in before && d != NoDelim
    ensures TomlAfter(NoDelim, before + d.Mark()) == NoDelim && Track(NoDelim, before + d.Mark()) == (d, true)
  {
    CommentStays(before, d.Mark());
    EndsInMark(before, d);
  }

  /** A comment with a mark at its end. */
  function CommentWith(text: string, d: Delim): string {
    "#" + text + d.Mark()
  }

  lemma CommentFacts(text: string, d: Delim)
    requires '"' !in text && '\'' !in text && d != NoDelim
    ensures var line := CommentWith(text, d);
      && Track(NoDelim, line) == (d, true) && Track(d, line) == (NoDelim, true) && TomlAfter(NoDelim, line) == NoDelim
  {
    CommentMisleads("#" + text, d);
    FoundAtEnd("#" + text, d.Mark());
  }

  lemma {:induction false} CommentStays(before: string, rest: string)
    requires '"' !in before && '\'' !in before && '#' in before
    ensures Scan(Bare, before + rest) == Comment
  {
    var s := before + rest;
    assert s[0] == before[0] && before[0] in before;
    if before[0] == '#' {
      assert s[|s|..] == [];
    } else {
      assert Token(Bare, s) == (Bare, 1) && s[1..] == before[1..] + rest;
      assert forall c :: c in before[1..] ==> c in before;
      CommentStays(before[1..], rest);
    }
  }
}
