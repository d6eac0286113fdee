/** The clean-up of a Codex configuration before the managed blocks are written. */
module CodexConfig {
  import opened TomlSyntax

  datatype Section = Head | Tail | Memories

  datatype Fate = Dropped | Kept(section: Section)

  datatype State = State(
    inProvider: bool,
    inMemories: bool,
    seenTable: bool,
    dropRootKeys: bool,
    delim: Delim
  )

  const Begin := State(false, false, false, true, NoDelim)

  function Where(st: State): Section {
    if st.inMemories then Memories else if st.seenTable then Tail else Head
  }

  predicate KeyDropped(st: State, line: string) {
    (st.inMemories && IsMemoryModelKey(line)) || (st.dropRootKeys && IsRootModelKey(line))
  }

  /** A line outside multi-line strings and not inside a managed provider table. */
  function Plain(st: State, line: string): (State, Fate) {
    if IsProviderHeader(line) || IsLegacyHeader(line) then
      (st.(inProvider := true, seenTable := true), Dropped)
    else if IsMemoriesHeader(line) then
      (st.(inMemories := true, dropRootKeys := false, seenTable := true), Dropped)
    else
      var to := if IsTableHeader(line)
                then st.(inMemories := false, dropRootKeys := !IsProfilesHeader(line), seenTable := true)
                else st;
      (to, if KeyDropped(to, line) then Dropped else Kept(Where(to)))
  }

  /** What becomes of a line, and of the flags. */
  function Decide(st: State, line: string, inside: bool): (State, Fate) {
    if st.inProvider && !IsTableHeader(line) then (st, Dropped)
    else
      var out := st.(inProvider := false);
      if inside then (out, Kept(Where(out))) else Plain(out, line)
  }

  function Step(st: State, line: string): (State, Fate) {
    var (delim, inside) := Track(st.delim, line);
    Decide(st.(delim := delim), line, inside)
  }

  /** The lines a section keeps. */
  function KeptLines(st: State, lines: seq<string>, section: Section): seq<string>
    decreases |lines|
  {
    if lines == [] then []
    else
      var (to, fate) := Step(st, lines[0]);
      var rest := KeptLines(to, lines[1..], section);
      if fate == Kept(section) then [lines[0]] + rest else rest
  }

  function After(st: State, lines: seq<string>): State
    decreases |lines|
  {
    if lines == [] then st else After(Step(st, lines[0]).0, lines[1..])
  }

  lemma Assoc(line: string, a: seq<string>, b: seq<string>)
    ensures [line] + a + b == [line] + (a + b)
  {
  }

  lemma {:induction false} KeptAppend(st: State, lines: seq<string>, line: string, section: Section)
    ensures After(st, lines + [line]) == Step(After(st, lines), line).0
    ensures KeptLines(st, lines + [line], section)
         == KeptLines(st, lines, section) + if Step(After(st, lines), line).1 == Kept(section) then [line] else []
    decreases |lines|
  {
    if lines == [] {
      assert (lines + [line])[1..] == [];
    } else {
      var (to, fate) := Step(st, lines[0]);
      assert (lines + [line])[1..] == lines[1..] + [line];
      KeptAppend(to, lines[1..], line, section);
      var last := if Step(After(st, lines), line).1 == Kept(section) then [line] else [];
      Assoc(lines[0], KeptLines(to, lines[1..], section), last);
    }
  }

  lemma OneMore(lines: seq<string>, i: nat)
    requires i < |lines|
    ensures lines[..i + 1] == lines[..i] + [lines[i]]
  {
  }

  class CleanResult {
    var head: seq<string>
    var tail: seq<string>
    var memories: seq<string>

    /** The sections are those of the lines so far. */
    ghost predicate Holds(lines: seq<string>)
      reads this
    {
      && head == KeptLines(Begin, lines, Head)
      && tail == KeptLines(Begin, lines, Tail)
      && memories == KeptLines(Begin, lines, Memories)
    }

    constructor ()
      ensures head == [] && tail == [] && memories == []
    {
      head, tail, memories := [], [], [];
    }

    method Append(line: string, inMemories: bool, seenTable: bool)
      modifies this
      ensures head == old(head) + if !inMemories && !seenTable then [line] else []
      ensures tail == old(tail) + if !inMemories && seenTable then [line] else []
      ensures memories == old(memories) + if inMemories then [line] else []
    {
      if inMemories {
        memories := memories + [line];
      } else if seenTable {
        tail := tail + [line];
      } else {
        head := head + [line];
      }
    }
  }

  /** The body of the line loop, up to the append. */
  method DecideLine(st: State, line: string, inLiteral: bool) returns (to: State, keep: bool)
    ensures to.delim == st.delim
    ensures (to, if keep then Kept(Where(to)) else Dropped) == Decide(st, line, inLiteral)
  {
    to := st;
    if to.inProvider {
      if !IsTableHeader(line) {
        return to, false;
      }
      to := to.(inProvider := false);
    }
    if !inLiteral {
      if IsProviderHeader(line) || IsLegacyHeader(line) {
        to := to.(inProvider := true, seenTable := true);
        return to, false;
      } else if IsMemoriesHeader(line) {
        to := to.(inMemories := true, dropRootKeys := false, seenTable := true);
        return to, false;
      } else if IsTableHeader(line) {
        to := to.(inMemories := false, dropRootKeys := !IsProfilesHeader(line), seenTable := true);
      }
      if to.inMemories && IsMemoryModelKey(line) {
        return to, false;
      }
      if to.dropRootKeys && IsRootModelKey(line) {
        return to, false;
      }
    }
    return to, true;
  }

  /** The line loop of the clean-up. */
  method CleanCodexConfig(lines: seq<string>) returns (result: CleanResult)
    ensures fresh(result)
    ensures result.Holds(lines)
  {
    result := new CleanResult();
    var st := Begin;
    var literal := new TomlMultiline();
    for i := 0 to |lines|
      invariant fresh(result) && fresh(literal) && literal.delim == st.delim
      invariant After(Begin, lines[..i]) == st && result.Holds(lines[..i])
    {
      var line := lines[i];
      OneMore(lines, i);
      KeptAppend(Begin, lines[..i], line, Head);
      KeptAppend(Begin, lines[..i], line, Tail);
      KeptAppend(Begin, lines[..i], line, Memories);
      var inLiteral := literal.Advance(line);
      var keep;
      st, keep := DecideLine(st.(delim := literal.delim), line, inLiteral);
      if keep {
        result.Append(line, st.inMemories, st.seenTable);
      }
    }
    assert lines[..|lines|] == lines;
  }
}
