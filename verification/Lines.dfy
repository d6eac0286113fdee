/** Files as lines. */
module Lines {
  import opened Text

  /** Every \r\n becomes \n. */
  function StripReturns(s: string): string {
    if |s| >= 2 && s[0] == '\r' && s[1] == '\n' then ['\n'] + StripReturns(s[2..])
    else if s == [] then []
    else [s[0]] + StripReturns(s[1..])
  }

  function Split(s: string): (lines: seq<string>)
    ensures lines != []
  {
    if s == [] then [""]
    else
      var rest := Split(s[1..]);
      if s[0] == '\n' then [""] + rest else [[s[0]] + rest[0]] + rest[1..]
  }

  function SplitLines(s: string): seq<string> {
    var t := StripReturns(s);
    if t == "" then [] else Split(t)
  }

  /** A line has no line break. */
  predicate IsLine(line: string) {
    '\n' !in line
  }

  predicate EndsInReturn(line: string) {
    line != [] && line[|line| - 1] == '\r'
  }

  function Chomp(line: string): string {
    if EndsInReturn(line) then line[..|line| - 1] else line
  }

  /** A return at the end of a line is lost, unless the line is the last. */
  function Chomped(lines: seq<string>): seq<string> {
    if |lines| <= 1 then lines else [Chomp(lines[0])] + Chomped(lines[1..])
  }

  lemma {:induction false} StripsNothing(line: string)
    requires IsLine(line)
    ensures StripReturns(line) == line && Split(line) == [line]
    decreases |line|
  {
    if line != [] {
      assert line[0] in line && (|line| > 1 ==> line[1] in line);
      assert forall c :: c in line[1..] ==> c in line;
      StripsNothing(line[1..]);
      assert [line[0]] + line[1..] == line;
    }
  }

  lemma Assoc3(c: char, a: string, b: string)
    ensures [c] + (a + b) == ([c] + a) + b
  {
  }

  lemma ChompRest(line: string)
    requires line != [] && line != "\r"
    ensures Chomp(line) == [line[0]] + Chomp(line[1..])
  {
  }

  lemma StripStep(w: string)
    requires w != [] && !(|w| >= 2 && w[0] == '\r' && w[1] == '\n')
    ensures StripReturns(w) == [w[0]] + StripReturns(w[1..])
  {
  }

  lemma {:induction false} StripLine(line: string, rest: string)
    requires IsLine(line)
    ensures StripReturns(line + ("\n" + rest)) == Chomp(line) + ("\n" + StripReturns(rest))
    decreases |line|
  {
    var whole := line + ("\n" + rest);
    if line == [] {
      assert whole[1..] == rest;
      StripStep(whole);
    } else if line == "\r" {
      assert whole[2..] == rest;
      assert Chomp(line) == [];
    } else {
      assert line[0] in line && whole[0] == line[0];
      assert |line| > 1 ==> line[1] in line && whole[1] == line[1];
      assert whole[1..] == line[1..] + ("\n" + rest);
      assert forall c :: c in line[1..] ==> c in line;
      StripStep(whole);
      StripLine(line[1..], rest);
      ChompRest(line);
      Assoc3(line[0], Chomp(line[1..]), "\n" + StripReturns(rest));
    }
  }

  lemma {:induction false} SplitLine(line: string, rest: string)
    requires IsLine(line)
    ensures Split(line + ("\n" + rest)) == [line] + Split(rest)
    decreases |line|
  {
    var whole := line + ("\n" + rest);
    if line == [] {
      assert whole[1..] == rest;
    } else {
      assert whole[1..] == line[1..] + ("\n" + rest);
      assert forall c :: c in line[1..] ==> c in line;
      SplitLine(line[1..], rest);
      assert line[0] in line;
      assert [line[0]] + line[1..] == line;
    }
  }

  lemma {:induction false} SplitIsLines(s: string)
    ensures forall i :: 0 <= i < |Split(s)| ==> IsLine(Split(s)[i])
  {
    if s != [] {
      SplitIsLines(s[1..]);
    }
  }

  lemma {:induction false} SplitOfJoin(lines: seq<string>)
    requires lines != [] && forall i :: 0 <= i < |lines| ==> IsLine(lines[i])
    ensures Split(Join(lines, "\n")) == lines
  {
    if |lines| == 1 {
      StripsNothing(lines[0]);
    } else {
      assert Join(lines, "\n") == lines[0] + ("\n" + Join(lines[1..], "\n"));
      SplitLine(lines[0], Join(lines[1..], "\n"));
      SplitOfJoin(lines[1..]);
    }
  }

  lemma {:induction false} SplitOfStripped(lines: seq<string>)
    requires lines != [] && forall i :: 0 <= i < |lines| ==> IsLine(lines[i])
    ensures Split(StripReturns(Join(lines, "\n"))) == Chomped(lines)
  {
    if |lines| == 1 {
      StripsNothing(lines[0]);
    } else {
      var rest := Join(lines[1..], "\n");
      assert Join(lines, "\n") == lines[0] + ("\n" + rest);
      StripLine(lines[0], rest);
      assert IsLine(Chomp(lines[0]));
      SplitLine(Chomp(lines[0]), StripReturns(rest));
      SplitOfStripped(lines[1..]);
    }
  }

  predicate NoReturns(lines: seq<string>) {
    forall i :: 0 <= i < |lines| - 1 ==> !EndsInReturn(lines[i])
  }

  lemma {:induction false} ChompedIffReturns(lines: seq<string>)
    ensures Chomped(lines) == lines <==> NoReturns(lines)
  {
    if |lines| > 1 {
      ChompedIffReturns(lines[1..]);
      assert Chomped(lines)[1..] == Chomped(lines[1..]);
      assert NoReturns(lines) ==> NoReturns(lines[1..]) by {
        assert forall i :: 0 <= i < |lines| - 2 ==> lines[1..][i] == lines[i + 1];
      }
      if NoReturns(lines[1..]) && !EndsInReturn(lines[0]) {
        forall i | 0 <= i < |lines| - 1 ensures !EndsInReturn(lines[i]) {
          if i > 0 { assert lines[i] == lines[1..][i - 1]; }
        }
      }
    }
  }

  /** Lines written and read again come back exactly if none but the last ends in a return. */
  lemma SplitJoinIffNoReturns(lines: seq<string>)
    requires |lines| > 1 && forall i :: 0 <= i < |lines| ==> IsLine(lines[i])
    ensures SplitLines(Join(lines, "\n")) == lines <==> NoReturns(lines)
  {
    SplitOfStripped(lines);
    ChompedIffReturns(lines);
    assert Split("") == [""];
  }
}
