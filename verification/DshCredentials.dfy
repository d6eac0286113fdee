/** The secret that an export keeps in the refs block of the DSH credentials file. */
module DshCredentials {
  import opened Wrappers
  import opened Text
  import opened Lines

  const HEADER := "refs:"
  const INDENT := "  "

  /** How the line of a reference begins. */
  function Name(ref: string): string {
    INDENT + ref + ":"
  }

  /** The line of a reference; the secret is given as a YAML scalar. */
  function Entry(ref: string, scalar: string): string {
    Name(ref) + " " + scalar
  }

  function HeaderFrom(lines: seq<string>, from: nat): (i: nat)
    requires from <= |lines|
    ensures from <= i <= |lines|
    ensures i < |lines| ==> HEADER <= lines[i]
    ensures forall k :: from <= k < i ==> !(HEADER <= lines[k])
    decreases |lines| - from
  {
    if from == |lines| || HEADER <= lines[from] then from else HeaderFrom(lines, from + 1)
  }

  /** The first line of the refs block, or the number of lines. */
  function RefsAt(lines: seq<string>): (i: nat)
    ensures i <= |lines|
  {
    HeaderFrom(lines, 0)
  }

  predicate IsTopLevel(line: string) {
    line != "" && line[0] != ' '
  }

  /** The first line behind the block that starts at from. */
  function BlockEnd(lines: seq<string>, from: nat): (i: nat)
    requires from <= |lines|
    ensures from <= i <= |lines|
    ensures i < |lines| ==> IsTopLevel(lines[i])
    ensures forall k :: from <= k < i ==> !IsTopLevel(lines[k])
    decreases |lines| - from
  {
    if from == |lines| || IsTopLevel(lines[from]) then from else BlockEnd(lines, from + 1)
  }

  /** The first line with that name, or the end. */
  function NameAt(lines: seq<string>, name: string, from: nat, end: nat): (i: nat)
    requires from <= end <= |lines|
    ensures from <= i <= end
    ensures i < end ==> name <= lines[i]
    ensures forall k :: from <= k < i ==> !(name <= lines[k])
    decreases end - from
  {
    if from == end || name <= lines[from] then from else NameAt(lines, name, from + 1, end)
  }

  /** In front of the empty lines at the end of the block. */
  function InsertAt(lines: seq<string>, first: nat, end: nat): (i: nat)
    requires first <= end <= |lines|
    ensures first <= i <= end && (i == first || lines[i - 1] != "")
    ensures forall k :: i <= k < end ==> lines[k] == ""
  {
    if end > first && lines[end - 1] == "" then InsertAt(lines, first, end - 1) else end
  }

  function UpsertLines(lines: seq<string>, ref: string, scalar: string): seq<string> {
    Before(lines, ref) + [Entry(ref, scalar)] + Behind(lines, ref)
  }

  /** The lines with a plain header of the block, which is added if it is missing. */
  function Prepared(lines: seq<string>): (l: seq<string>)
    ensures RefsAt(lines) < |l|
  {
    var r := RefsAt(lines);
    if r == |lines| then lines + [HEADER] else lines[r := HEADER]
  }

  /** Where the entry goes in the prepared lines, and whether it takes the place of a line. */
  function Slot(lines: seq<string>, ref: string): (slot: (nat, bool))
    ensures RefsAt(lines) < slot.0 <= |Prepared(lines)| && (slot.1 ==> slot.0 < |Prepared(lines)|)
  {
    var r := RefsAt(lines);
    var l := Prepared(lines);
    var end := BlockEnd(l, r + 1);
    var at := NameAt(l, Name(ref), r + 1, end);
    if at < end then (at, true) else (InsertAt(l, r + 1, end), false)
  }

  function Before(lines: seq<string>, ref: string): (front: seq<string>)
    ensures RefsAt(lines) < |front|
  {
    Prepared(lines)[..Slot(lines, ref).0]
  }

  function Behind(lines: seq<string>, ref: string): seq<string> {
    var (at, taken) := Slot(lines, ref);
    Prepared(lines)[if taken then at + 1 else at..]
  }

  function TrimBreaks(s: string): string {
    if s != [] && s[|s| - 1] == '\n' then TrimBreaks(s[..|s| - 1]) else s
  }

  function ReadLines(content: string): seq<string> {
    Split(TrimBreaks(content))
  }

  function WriteLines(lines: seq<string>): string {
    Join(lines, "\n") + "\n"
  }

  function Upsert(content: string, ref: string, scalar: string): string {
    WriteLines(UpsertLines(ReadLines(content), ref, scalar))
  }

  method UpsertYAMLRef(content: string, ref: string, scalar: string) returns (updated: string)
    ensures updated == Upsert(content, ref, scalar)
  {
    var merged := UpsertInto(ReadLines(content), ref, scalar);
    return WriteLines(merged);
  }

  method UpsertInto(original: seq<string>, ref: string, scalar: string) returns (lines: seq<string>)
    ensures lines == UpsertLines(original, ref, scalar)
  {
    var entry := Entry(ref, scalar);
    lines := original;
    var refsAt := FindRefs(lines);
    if refsAt < 0 {
      AddedAtEnd(original, ref, scalar);
      return lines + [HEADER, entry];
    }
    lines := lines[refsAt := HEADER];
    var end := FindBlockEnd(lines, refsAt + 1);
    var at := FindName(lines, Name(ref), refsAt + 1, end);
    if at >= 0 {
      UpsertNamed(original, ref, scalar);
      return lines[at := entry];
    }
    UpsertUnnamed(original, ref, scalar);
    var insertAt := FindInsert(lines, refsAt + 1, end);
    return lines[..insertAt] + [entry] + lines[insertAt..];
  }

  lemma UpsertNamed(lines: seq<string>, ref: string, scalar: string)
    requires Slot(lines, ref).1
    ensures UpsertLines(lines, ref, scalar) == Prepared(lines)[Slot(lines, ref).0 := Entry(ref, scalar)]
  {
    Replaced(Prepared(lines), Slot(lines, ref).0, Entry(ref, scalar));
  }

  lemma UpsertUnnamed(lines: seq<string>, ref: string, scalar: string)
    requires !Slot(lines, ref).1
    ensures var (i, _) := Slot(lines, ref);
      UpsertLines(lines, ref, scalar) == Prepared(lines)[..i] + [Entry(ref, scalar)] + Prepared(lines)[i..]
  {
  }

  method FindInsert(lines: seq<string>, first: nat, end: nat) returns (insertAt: nat)
    requires first <= end <= |lines|
    ensures insertAt == InsertAt(lines, first, end)
  {
    insertAt := end;
    while insertAt > first && lines[insertAt - 1] == ""
      invariant first <= insertAt <= end
      invariant InsertAt(lines, first, insertAt) == InsertAt(lines, first, end)
    {
      insertAt := insertAt - 1;
    }
  }

  lemma Replaced(lines: seq<string>, i: nat, line: string)
    requires i < |lines|
    ensures lines[i := line] == lines[..i] + [line] + lines[i + 1..]
  {
  }

  lemma AddedAtEnd(lines: seq<string>, ref: string, scalar: string)
    requires RefsAt(lines) == |lines|
    ensures UpsertLines(lines, ref, scalar) == lines + [HEADER, Entry(ref, scalar)]
  {
  }

  method FindName(lines: seq<string>, name: string, from: nat, end: nat) returns (at: int)
    requires from <= end <= |lines|
    ensures at == if NameAt(lines, name, from, end) < end then NameAt(lines, name, from, end) else -1
  {
    for i := from to end
      invariant NameAt(lines, name, from, end) >= i
    {
      if name <= lines[i] {
        return i;
      }
    }
    return -1;
  }

  method FindRefs(lines: seq<string>) returns (refsAt: int)
    ensures refsAt == if RefsAt(lines) < |lines| then RefsAt(lines) else -1
  {
    for i := 0 to |lines|
      invariant RefsAt(lines) >= i
    {
      if HEADER <= lines[i] {
        return i;
      }
    }
    return -1;
  }

  method FindBlockEnd(lines: seq<string>, from: nat) returns (end: nat)
    requires from <= |lines|
    ensures end == BlockEnd(lines, from)
  {
    for i := from to |lines|
      invariant BlockEnd(lines, from) >= i
    {
      if IsTopLevel(lines[i]) {
        return i;
      }
    }
    return |lines|;
  }

  // --- On lines. ---

  /** The lines of the block. */
  function Block(lines: seq<string>): seq<string> {
    var r := RefsAt(lines);
    if r == |lines| then [] else lines[r + 1..BlockEnd(lines, r + 1)]
  }

  function FirstNamed(block: seq<string>, name: string): Option<string> {
    if block == [] then None else if name <= block[0] then Some(block[0]) else FirstNamed(block[1..], name)
  }

  /** The line of a reference. */
  function Get(lines: seq<string>, ref: string): Option<string> {
    FirstNamed(Block(lines), Name(ref))
  }

  lemma EntryShape(ref: string, scalar: string)
    ensures Name(ref) <= Entry(ref, scalar) && !IsTopLevel(Entry(ref, scalar)) && !(HEADER <= Entry(ref, scalar))
  {
    var e := Entry(ref, scalar);
    assert e[..|Name(ref)|] == Name(ref);
    assert e[0] == Name(ref)[0] == ' ';
  }

  /** What is in front of an entry: the header, and lines of the block that do not have its name. */
  predicate IsFront(front: seq<string>, r: nat, name: string) {
    && r < |front| && front[r] == HEADER && RefsAt(front) == r
    && forall k :: r < k < |front| ==> !IsTopLevel(front[k]) && !(name <= front[k])
  }

  lemma FrontOf(lines: seq<string>, ref: string)
    ensures IsFront(Before(lines, ref), RefsAt(lines), Name(ref))
  {
    var r := RefsAt(lines);
    var f := Before(lines, ref);
    assert forall k :: 0 <= k < |f| ==> f[k] == Prepared(lines)[k];
    assert forall k :: 0 <= k < r ==> f[k] == lines[k];
    FirstHeader(f, r);
  }

  lemma FirstHeader(lines: seq<string>, r: nat)
    requires r < |lines| && HEADER <= lines[r] && forall k :: 0 <= k < r ==> !(HEADER <= lines[k])
    ensures RefsAt(lines) == r
  {
    FirstHeaderFrom(lines, 0, r);
  }

  lemma {:induction false} FirstHeaderFrom(lines: seq<string>, from: nat, r: nat)
    requires from <= r < |lines| && HEADER <= lines[r] && forall k :: from <= k < r ==> !(HEADER <= lines[k])
    ensures HeaderFrom(lines, from) == r
    decreases r - from
  {
    if from < r {
      FirstHeaderFrom(lines, from + 1, r);
    }
  }

  lemma {:induction false} FirstName(lines: seq<string>, name: string, from: nat, at: nat, end: nat)
    requires from <= at < end <= |lines| && name <= lines[at]
    requires forall k :: from <= k < at ==> !(name <= lines[k])
    ensures NameAt(lines, name, from, end) == at
    decreases at - from
  {
    if from < at {
      FirstName(lines, name, from + 1, at, end);
    }
  }

  lemma {:induction false} EndNotBefore(lines: seq<string>, from: nat, n: nat)
    requires from <= n <= |lines| && forall k :: from <= k < n ==> !IsTopLevel(lines[k])
    ensures BlockEnd(lines, from) >= n
    decreases n - from
  {
    if from < n {
      EndNotBefore(lines, from + 1, n);
    }
  }

  /** Behind a front, a line of the block and anything, the place of the line is the slot. */
  lemma SlotOf(front: seq<string>, r: nat, ref: string, scalar: string, behind: seq<string>)
    requires IsFront(front, r, Name(ref))
    ensures var u := front + [Entry(ref, scalar)] + behind;
      Before(u, ref) == front && Behind(u, ref) == behind
  {
    SlotIs(front, r, ref, scalar, behind);
    Around(front, Entry(ref, scalar), behind);
  }

  lemma Around(front: seq<string>, e: string, behind: seq<string>)
    ensures var u := front + [e] + behind; u[..|front|] == front && u[|front| + 1..] == behind
  {
  }

  lemma PlainInFront(front: seq<string>, r: nat, name: string, rest: seq<string>, u: seq<string>)
    requires IsFront(front, r, name) && u == front + rest
    ensures RefsAt(u) == r && Prepared(u) == u
  {
    InFront(front, r, rest);
    assert u[r := HEADER] == u;
  }

  lemma SlotIs(front: seq<string>, r: nat, ref: string, scalar: string, behind: seq<string>)
    requires IsFront(front, r, Name(ref))
    ensures var u := front + [Entry(ref, scalar)] + behind;
      Prepared(u) == u && Slot(u, ref) == (|front|, true)
  {
    var e := Entry(ref, scalar);
    var u := front + [e] + behind;
    EntryShape(ref, scalar);
    PlainInFront(front, r, Name(ref), [e] + behind, u);
    var end := BlockEnd(u, r + 1);
    var n := |front|;
    assert forall k :: 0 <= k < n ==> u[k] == front[k];
    assert u[n] == e;
    EndNotBefore(u, r + 1, n + 1);
    FirstName(u, Name(ref), r + 1, n, end);
  }

  lemma InFront(front: seq<string>, r: nat, behind: seq<string>)
    requires r < |front| && RefsAt(front) == r
    ensures RefsAt(front + behind) == r
  {
    FirstHeader(front + behind, r);
  }

  /** A second update takes the place of the first. */
  lemma UpsertOverwrites(lines: seq<string>, ref: string, first: string, second: string)
    ensures UpsertLines(UpsertLines(lines, ref, first), ref, second) == UpsertLines(lines, ref, second)
  {
    FrontOf(lines, ref);
    SlotOf(Before(lines, ref), RefsAt(lines), ref, first, Behind(lines, ref));
  }

  // --- The block after an update. ---

  /** The lines up to the first that ends a block. */
  function Head(lines: seq<string>): seq<string> {
    lines[..BlockEnd(lines, 0)]
  }

  lemma {:induction false} EndShifts(a: seq<string>, b: seq<string>, i: nat)
    requires i <= |b|
    ensures BlockEnd(a + b, |a| + i) == |a| + BlockEnd(b, i)
    decreases |b| - i
  {
    if i < |b| && !IsTopLevel(b[i]) {
      EndShifts(a, b, i + 1);
    }
  }

  lemma {:induction false} EndBehind(a: seq<string>, b: seq<string>, from: nat)
    requires from <= |a| && forall k :: from <= k < |a| ==> !IsTopLevel(a[k])
    ensures BlockEnd(a + b, from) == |a| + BlockEnd(b, 0)
    decreases |a| - from
  {
    if from == |a| {
      EndShifts(a, b, 0);
    } else {
      EndBehind(a, b, from + 1);
    }
  }

  lemma Slice(a: seq<string>, b: seq<string>, c: seq<string>, from: nat, m: nat)
    requires from <= |a| && m <= |c|
    ensures (a + b + c)[from..|a| + |b| + m] == a[from..] + b + c[..m]
  {
  }

  lemma BlockOf(front: seq<string>, r: nat, middle: seq<string>, behind: seq<string>)
    requires r < |front| && RefsAt(front) == r
    requires forall k :: r < k < |front| ==> !IsTopLevel(front[k])
    requires forall k :: 0 <= k < |middle| ==> !IsTopLevel(middle[k])
    ensures Block(front + middle + behind) == front[r + 1..] + middle + Head(behind)
  {
    InFront(front, r, middle);
    InFront(front + middle, r, behind);
    EndBehind(front + middle, behind, r + 1);
    var l := front + middle + behind;
    var m := BlockEnd(behind, 0);
    Slice(front, middle, behind, r + 1, m);
    assert Block(l) == l[r + 1..|front| + |middle| + m];
  }

  /** The lines of the block before an update, around the slot. */
  lemma BlockAround(lines: seq<string>, ref: string) returns (middle: seq<string>)
    ensures Block(lines) == Before(lines, ref)[RefsAt(lines) + 1..] + middle + Head(Behind(lines, ref))
    ensures |middle| <= 1 && forall k :: 0 <= k < |middle| ==> Name(ref) <= middle[k]
  {
    var r := RefsAt(lines);
    var l := Prepared(lines);
    var (at, taken) := Slot(lines, ref);
    var front, behind := Before(lines, ref), Behind(lines, ref);
    FrontOf(lines, ref);
    middle := if taken then [l[at]] else [];
    assert l == front + middle + behind;
    BlockOf(front, r, middle, behind);
    if r < |lines| {
      PlainHeader(lines);
    } else {
      assert Block(l) == [];
    }
  }

  lemma PlainHeader(lines: seq<string>)
    requires RefsAt(lines) < |lines|
    ensures Block(Prepared(lines)) == Block(lines)
  {
    var r := RefsAt(lines);
    var l := Prepared(lines);
    var before, rest := lines[..r], lines[r + 1..];
    SameHeader(before, HEADER, rest);
    SameHeader(before, lines[r], rest);
    Replaced(lines, r, HEADER);
    Replaced(lines, r, lines[r]);
    assert lines[r := lines[r]] == lines;
  }

  lemma SameHeader(before: seq<string>, header: string, rest: seq<string>)
    requires HEADER <= header && forall k :: 0 <= k < |before| ==> !(HEADER <= before[k])
    ensures Block(before + [header] + rest) == Head(rest)
  {
    var front := before + [header];
    FirstHeader(front, |before|);
    assert front + [] + rest == front + rest;
    BlockOf(front, |before|, [], rest);
    assert front[|before| + 1..] + [] == [];
  }

  lemma {:induction false} FirstOfThree(a: seq<string>, b: seq<string>, c: seq<string>, name: string)
    requires forall k :: 0 <= k < |b| ==> !(name <= b[k])
    requires |b| <= 1
    ensures FirstNamed(a + b + c, name) == FirstNamed(a + c, name)
  {
    if a == [] {
      assert a + b + c == b + c && a + c == c;
      if b != [] { assert (b + c)[1..] == c; }
    } else {
      assert (a + b + c)[1..] == a[1..] + b + c && (a + c)[1..] == a[1..] + c;
      FirstOfThree(a[1..], b, c, name);
    }
  }

  lemma {:induction false} FirstIsEntry(a: seq<string>, e: string, c: seq<string>, name: string)
    requires name <= e && forall k :: 0 <= k < |a| ==> !(name <= a[k])
    ensures FirstNamed(a + [e] + c, name) == Some(e)
  {
    if a != [] {
      assert (a + [e] + c)[1..] == a[1..] + [e] + c;
      FirstIsEntry(a[1..], e, c, name);
    }
  }

  lemma BlockOfUpsert(lines: seq<string>, ref: string, scalar: string)
    ensures Block(UpsertLines(lines, ref, scalar))
         == Before(lines, ref)[RefsAt(lines) + 1..] + [Entry(ref, scalar)] + Head(Behind(lines, ref))
  {
    FrontOf(lines, ref);
    EntryShape(ref, scalar);
    BlockOf(Before(lines, ref), RefsAt(lines), [Entry(ref, scalar)], Behind(lines, ref));
  }

  /** An update is read back. */
  lemma GetOfUpsert(lines: seq<string>, ref: string, scalar: string)
    ensures Get(UpsertLines(lines, ref, scalar), ref) == Some(Entry(ref, scalar))
  {
    FrontOf(lines, ref);
    BlockOfUpsert(lines, ref, scalar);
    EntryShape(ref, scalar);
    FirstIsEntry(Before(lines, ref)[RefsAt(lines) + 1..], Entry(ref, scalar), Head(Behind(lines, ref)), Name(ref));
  }

  // --- Reading a scalar. ---

  /** What stands behind the reference, its colon and a space, on the first line of a block that names it. */
  function ScalarInBlock(lines: seq<string>, ref: string): Option<string> {
    if lines == [] || (lines[0] != "" && lines[0][0] != ' ') then None
    else if "  " + ref + ":" <= lines[0] then
      var rest := lines[0][|ref| + 3..];
      Some(if " " <= rest then rest[1..] else rest)
    else ScalarInBlock(lines[1..], ref)
  }

  /** The scalar that a file has for a reference in its refs block. */
  function ScalarOf(lines: seq<string>, ref: string): Option<string> {
    if lines == [] then None
    else if "refs:" <= lines[0] then ScalarInBlock(lines[1..], ref)
    else ScalarOf(lines[1..], ref)
  }

  function ScalarOn(line: Option<string>, n: nat): Option<string> {
    if line.None? || |line.value| < n then None
    else Some(if " " <= line.value[n..] then line.value[n..][1..] else line.value[n..])
  }

  lemma {:induction false} HeadStep(lines: seq<string>)
    ensures Head(lines) == if lines == [] || IsTopLevel(lines[0]) then [] else [lines[0]] + Head(lines[1..])
  {
    if lines != [] && !IsTopLevel(lines[0]) {
      EndShifts([lines[0]], lines[1..], 0);
      assert [lines[0]] + lines[1..] == lines;
    }
  }

  lemma {:induction false} ScalarInHead(lines: seq<string>, ref: string)
    ensures ScalarInBlock(lines, ref) == ScalarOn(FirstNamed(Head(lines), Name(ref)), |ref| + 3)
    decreases |lines|
  {
    HeadStep(lines);
    if lines != [] && !IsTopLevel(lines[0]) {
      ScalarInHead(lines[1..], ref);
      assert ([lines[0]] + Head(lines[1..]))[1..] == Head(lines[1..]);
    }
  }

  lemma {:induction false} ScalarBehind(before: seq<string>, rest: seq<string>, ref: string)
    requires forall k :: 0 <= k < |before| ==> !(HEADER <= before[k])
    ensures ScalarOf(before + rest, ref) == ScalarOf(rest, ref)
  {
    if before == [] {
      assert before + rest == rest;
    } else {
      assert (before + rest)[1..] == before[1..] + rest;
      ScalarBehind(before[1..], rest, ref);
    }
  }

  lemma ScalarIsOnItsLine(lines: seq<string>, ref: string)
    ensures ScalarOf(lines, ref) == ScalarOn(Get(lines, ref), |ref| + 3)
  {
    var r := RefsAt(lines);
    var before := lines[..r];
    if r == |lines| {
      assert before + [] == lines;
      ScalarBehind(before, [], ref);
    } else {
      var rest := lines[r + 1..];
      Replaced(lines, r, lines[r]);
      assert lines[r := lines[r]] == lines && ([lines[r]] + rest)[1..] == rest;
      assert before + [lines[r]] + rest == before + ([lines[r]] + rest);
      SameHeader(before, lines[r], rest);
      ScalarBehind(before, [lines[r]] + rest, ref);
      ScalarInHead(rest, ref);
    }
  }

  lemma ScalarOnEntry(ref: string, scalar: string)
    ensures ScalarOn(Some(Entry(ref, scalar)), |ref| + 3) == Some(scalar)
  {
    var e := Entry(ref, scalar);
    assert e[|ref| + 3..] == " " + scalar && (" " + scalar)[1..] == scalar;
  }

  /** An update is what is read afterwards, and other references are read as before. */
  lemma ScalarOfUpsert(lines: seq<string>, ref: string, scalar: string)
    ensures ScalarOf(UpsertLines(lines, ref, scalar), ref) == Some(scalar)
    ensures forall other :: ':' !in ref && ':' !in other && ref != other ==>
      ScalarOf(UpsertLines(lines, ref, scalar), other) == ScalarOf(lines, other)
  {
    var u := UpsertLines(lines, ref, scalar);
    GetOfUpsert(lines, ref, scalar);
    ScalarIsOnItsLine(u, ref);
    ScalarOnEntry(ref, scalar);
    forall other | ':' !in ref && ':' !in other && ref != other ensures ScalarOf(u, other) == ScalarOf(lines, other) {
      GetOther(lines, ref, scalar, other);
      ScalarIsOnItsLine(u, other);
      ScalarIsOnItsLine(lines, other);
    }
  }

  /** No line has two names. */
  lemma OneName(line: string, ref: string, other: string)
    requires ':' !in ref && ':' !in other && Name(ref) <= line && Name(other) <= line
    ensures ref == other
  {
    var n, m := |ref| + 2, |other| + 2;
    assert line[n] == Name(ref)[n] == ':' && line[m] == Name(other)[m] == ':';
    assert forall i :: 2 <= i < m ==> line[i] == Name(other)[i] == other[i - 2] && other[i - 2] in other;
    assert forall i :: 2 <= i < n ==> line[i] == Name(ref)[i] == ref[i - 2] && ref[i - 2] in ref;
    assert n == m;
    assert Name(ref) == line[..n + 1] == Name(other);
    assert Name(ref)[2..n] == ref && Name(other)[2..n] == other;
  }

  lemma NoneIsOther(lines: seq<string>, ref: string, other: string)
    requires ':' !in ref && ':' !in other && ref != other
    requires forall k :: 0 <= k < |lines| ==> Name(ref) <= lines[k]
    ensures forall k :: 0 <= k < |lines| ==> !(Name(other) <= lines[k])
  {
    forall k | 0 <= k < |lines| ensures !(Name(other) <= lines[k]) {
      if Name(other) <= lines[k] {
        OneName(lines[k], ref, other);
      }
    }
  }

  /** Other references keep their lines. */
  lemma GetOther(lines: seq<string>, ref: string, scalar: string, other: string)
    requires ':' !in ref && ':' !in other && ref != other
    ensures Get(UpsertLines(lines, ref, scalar), other) == Get(lines, other)
  {
    var a, c := Before(lines, ref)[RefsAt(lines) + 1..], Head(Behind(lines, ref));
    var e := Entry(ref, scalar);
    BlockOfUpsert(lines, ref, scalar);
    var middle := BlockAround(lines, ref);
    EntryShape(ref, scalar);
    if Name(other) <= e {
      OneName(e, ref, other);
    }
    NoneIsOther(middle, ref, other);
    FirstOfThree(a, [e], c, Name(other));
    FirstOfThree(a, middle, c, Name(other));
  }

  // --- The lines that are not the entry's. ---

  function Without(lines: seq<string>, i: nat): seq<string>
    requires i < |lines|
  {
    lines[..i] + lines[i + 1..]
  }

  /** The lines around the entry, less the header of the block. */
  function Others(lines: seq<string>, ref: string): seq<string> {
    Without(Before(lines, ref), RefsAt(lines)) + Behind(lines, ref)
  }

  lemma RemoveTwo(lines: seq<string>, r: nat, at: nat, h: string)
    requires r < at < |lines|
    ensures var l := lines[r := h];
      Without(Without(lines, at), r) == Without(l[..at], r) + l[at + 1..]
  {
  }

  lemma RemoveOne(lines: seq<string>, r: nat, at: nat, h: string)
    requires r < at <= |lines|
    ensures var l := lines[r := h];
      Without(lines, r) == Without(l[..at], r) + l[at..]
  {
  }

  lemma GetIfTaken(lines: seq<string>, ref: string)
    requires RefsAt(lines) < |lines| && Slot(lines, ref).1
    ensures Get(lines, ref) == Some(lines[Slot(lines, ref).0])
  {
    BlockIfTaken(lines, ref);
    FrontOf(lines, ref);
    var front, behind := Before(lines, ref)[RefsAt(lines) + 1..], Head(Behind(lines, ref));
    FirstIsEntry(front, lines[Slot(lines, ref).0], behind, Name(ref));
  }

  lemma BlockIfTaken(lines: seq<string>, ref: string)
    requires RefsAt(lines) < |lines| && Slot(lines, ref).1
    ensures Block(lines)
         == Before(lines, ref)[RefsAt(lines) + 1..] + [lines[Slot(lines, ref).0]] + Head(Behind(lines, ref))
  {
    var l := Prepared(lines);
    var at := Slot(lines, ref).0;
    PlainHeader(lines);
    FrontOf(lines, ref);
    Replaced(l, at, l[at]);
    assert l[at := l[at]] == l;
    BlockOf(Before(lines, ref), RefsAt(lines), [l[at]], Behind(lines, ref));
  }

  lemma GetIfNotTaken(lines: seq<string>, ref: string)
    requires RefsAt(lines) < |lines| && !Slot(lines, ref).1
    ensures Get(lines, ref) == None
  {
    PlainHeader(lines);
    FrontHeader(lines);
    NoneNamed(Block(Prepared(lines)), Name(ref));
  }

  lemma OthersIfNamed(lines: seq<string>, ref: string) returns (at: nat)
    requires RefsAt(lines) < |lines| && Slot(lines, ref).1
    ensures RefsAt(lines) < at < |lines| && Get(lines, ref) == Some(lines[at])
    ensures Others(lines, ref) == Without(Without(lines, at), RefsAt(lines))
  {
    at := Slot(lines, ref).0;
    GetIfTaken(lines, ref);
    OthersIfTaken(lines, ref, RefsAt(lines), at);
    RemoveTwo(lines, RefsAt(lines), at, HEADER);
  }

  lemma OthersIfTaken(lines: seq<string>, ref: string, r: nat, at: nat)
    requires r == RefsAt(lines) < |lines| && Slot(lines, ref) == (at, true)
    ensures r < at < |lines|
    ensures var l := lines[r := HEADER]; Others(lines, ref) == Without(l[..at], r) + l[at + 1..]
  {
  }

  lemma OthersIfUnnamed(lines: seq<string>, ref: string)
    requires RefsAt(lines) < |lines| && !Slot(lines, ref).1
    ensures Get(lines, ref) == None && Others(lines, ref) == Without(lines, RefsAt(lines))
  {
    GetIfNotTaken(lines, ref);
    RemoveOne(lines, RefsAt(lines), Slot(lines, ref).0, HEADER);
  }

  /** They are the lines of the file less the header and the first line of that name. */
  lemma OthersAre(lines: seq<string>, ref: string)
    ensures RefsAt(lines) == |lines| ==> Get(lines, ref) == None && Others(lines, ref) == lines
    ensures RefsAt(lines) < |lines| && Get(lines, ref) == None ==> Others(lines, ref) == Without(lines, RefsAt(lines))
    ensures Get(lines, ref) != None ==>
      exists at :: RefsAt(lines) < at < |lines| && Get(lines, ref) == Some(lines[at]) &&
        Others(lines, ref) == Without(Without(lines, at), RefsAt(lines))
  {
    if RefsAt(lines) == |lines| {
      OthersIfMissing(lines, ref);
    } else if Slot(lines, ref).1 {
      var at := OthersIfNamed(lines, ref);
    } else {
      OthersIfUnnamed(lines, ref);
    }
  }

  lemma OthersIfMissing(lines: seq<string>, ref: string)
    requires RefsAt(lines) == |lines|
    ensures Others(lines, ref) == lines
  {
    var l := lines + [HEADER];
    assert Before(lines, ref) == l && Behind(lines, ref) == [];
  }

  lemma FrontHeader(lines: seq<string>)
    ensures RefsAt(Prepared(lines)) == RefsAt(lines) && Prepared(lines)[RefsAt(lines)] == HEADER
  {
    var r := RefsAt(lines);
    var l := Prepared(lines);
    assert forall k :: 0 <= k < r ==> l[k] == lines[k];
    FirstHeader(l, r);
  }

  lemma {:induction false} NoneNamed(block: seq<string>, name: string)
    requires forall k :: 0 <= k < |block| ==> !(name <= block[k])
    ensures FirstNamed(block, name) == None
  {
    if block != [] {
      NoneNamed(block[1..], name);
    }
  }

  /** An update leaves all other lines as they are, in order. */
  lemma OthersStay(lines: seq<string>, ref: string, scalar: string)
    ensures Others(UpsertLines(lines, ref, scalar), ref) == Others(lines, ref)
  {
    var front, behind := Before(lines, ref), Behind(lines, ref);
    FrontOf(lines, ref);
    SlotOf(front, RefsAt(lines), ref, scalar, behind);
    InFront(front, RefsAt(lines), [Entry(ref, scalar)]);
    InFront(front + [Entry(ref, scalar)], RefsAt(lines), behind);
  }

  // --- What an update does, in place. ---

  /** Without a refs block the update adds one at the end. */
  lemma AddsABlock(lines: seq<string>, ref: string, scalar: string)
    requires forall k :: 0 <= k < |lines| ==> !("refs:" <= lines[k])
    ensures UpsertLines(lines, ref, scalar) == lines + ["refs:", "  " + ref + ": " + scalar]
  {
    AddedAtEnd(lines, ref, scalar);
    EntryText(ref, scalar);
  }

  lemma EntryText(ref: string, scalar: string)
    ensures Entry(ref, scalar) == "  " + ref + ": " + scalar
  {
    assert (INDENT + ref + ":") + " " == INDENT + ref + ": ";
  }

  /** The block has its header at r, the first in the file, and runs to end. */
  predicate IsBlock(lines: seq<string>, r: nat, end: nat) {
    && r < end <= |lines| && "refs:" <= lines[r] && (forall k :: 0 <= k < r ==> !("refs:" <= lines[k]))
    && (forall k :: r < k < end ==> lines[k] == "" || lines[k][0] == ' ')
    && (end < |lines| ==> lines[end] != "" && lines[end][0] != ' ')
  }

  lemma BlockIs(lines: seq<string>, r: nat, end: nat)
    requires IsBlock(lines, r, end)
    ensures RefsAt(lines) == r && Prepared(lines) == lines[r := HEADER] && BlockEnd(Prepared(lines), r + 1) == end
  {
    FirstHeader(lines, r);
    EndNotBefore(lines[r := HEADER], r + 1, end);
    assert end < |lines| ==> IsTopLevel(lines[r := HEADER][end]);
  }

  /** A line of the block that has the name is replaced, the first one. */
  lemma ReplacesTheLine(lines: seq<string>, ref: string, scalar: string, r: nat, end: nat, at: nat)
    requires IsBlock(lines, r, end) && r < at < end && "  " + ref + ":" <= lines[at]
    requires forall k :: r < k < at ==> !("  " + ref + ":" <= lines[k])
    ensures UpsertLines(lines, ref, scalar) == lines[r := "refs:"][at := "  " + ref + ": " + scalar]
  {
    BlockIs(lines, r, end);
    FirstName(lines[r := HEADER], Name(ref), r + 1, at, end);
    UpsertNamed(lines, ref, scalar);
    EntryText(ref, scalar);
  }

  /** If there is none, the line is added behind the last line of the block that is not empty. */
  lemma AddsALine(lines: seq<string>, ref: string, scalar: string, r: nat, end: nat, at: nat)
    requires IsBlock(lines, r, end) && r < at <= end && forall k :: r < k < end ==> !("  " + ref + ":" <= lines[k])
    requires (at == r + 1 || lines[at - 1] != "") && forall k :: at <= k < end ==> lines[k] == ""
    ensures UpsertLines(lines, ref, scalar)
         == lines[r := "refs:"][..at] + ["  " + ref + ": " + scalar] + lines[r := "refs:"][at..]
  {
    BlockIs(lines, r, end);
    var l := lines[r := HEADER];
    var n := NameAt(l, Name(ref), r + 1, end);
    InsertIs(l, r + 1, end, at);
    UpsertUnnamed(lines, ref, scalar);
    EntryText(ref, scalar);
  }

  lemma InsertIs(lines: seq<string>, first: nat, end: nat, at: nat)
    requires first <= at <= end <= |lines| && (at == first || lines[at - 1] != "")
    requires forall k :: at <= k < end ==> lines[k] == ""
    ensures InsertAt(lines, first, end) == at
  {
  }

  // --- On contents. ---

  lemma {:induction false} JoinEnds(lines: seq<string>)
    requires lines != [] && lines[|lines| - 1] != ""
    ensures Join(lines, "\n") != ""
    ensures Join(lines, "\n")[|Join(lines, "\n")| - 1] == lines[|lines| - 1][|lines[|lines| - 1]| - 1]
  {
    if |lines| > 1 {
      JoinEnds(lines[1..]);
      assert lines[1..][|lines| - 2] == lines[|lines| - 1];
    }
  }

  /** Lines that do not end in an empty one are read as they were written. */
  lemma ReadOfWrite(lines: seq<string>)
    requires lines != [] && lines[|lines| - 1] != "" && forall i :: 0 <= i < |lines| ==> IsLine(lines[i])
    ensures ReadLines(WriteLines(lines)) == lines
  {
    var t, last := Join(lines, "\n"), lines[|lines| - 1];
    JoinEnds(lines);
    SplitOfJoin(lines);
    assert last[|last| - 1] in last;
    assert (t + "\n")[..|t|] == t;
    assert TrimBreaks(t) == t;
  }

  lemma {:induction false} TrimmedEnd(s: string)
    ensures TrimBreaks(s) != "" ==> TrimBreaks(s)[|TrimBreaks(s)| - 1] != '\n'
  {
    if s != "" && s[|s| - 1] == '\n' {
      TrimmedEnd(s[..|s| - 1]);
    }
  }

  lemma {:induction false} SplitEnd(s: string)
    ensures var last := Split(s)[|Split(s)| - 1];
      last == "" <==> s == "" || s[|s| - 1] == '\n'
  {
    if |s| > 1 {
      SplitEnd(s[1..]);
      assert s[1..][|s| - 2] == s[|s| - 1];
    } else if |s| == 1 {
      assert s[1..] == "";
    }
  }

  /** A file that is read ends in a line that is not empty, or has none. */
  lemma ReadEnds(content: string)
    ensures var lines := ReadLines(content);
      lines == [""] || lines[|lines| - 1] != ""
  {
    var t := TrimBreaks(content);
    TrimmedEnd(content);
    SplitEnd(t);
    if t == "" {
      assert Split(t) == [""];
    }
  }

  predicate AllLines(lines: seq<string>) {
    forall i :: 0 <= i < |lines| ==> IsLine(lines[i])
  }

  lemma PreparedAreLines(lines: seq<string>)
    requires AllLines(lines) && (lines == [""] || (lines != [] && lines[|lines| - 1] != ""))
    ensures AllLines(Prepared(lines)) && Prepared(lines)[|Prepared(lines)| - 1] != ""
  {
    FrontHeader(lines);
  }

  lemma AroundAreLines(l: seq<string>, i: nat, j: nat, e: string)
    requires AllLines(l) && l != [] && l[|l| - 1] != "" && i <= j <= |l| && IsLine(e) && e != ""
    ensures var u := l[..i] + [e] + l[j..]; AllLines(u) && u[|u| - 1] != ""
  {
    if j < |l| {
      var u := l[..i] + [e] + l[j..];
      assert u[|u| - 1] == l[|l| - 1];
    }
  }

  lemma UpsertedLines(lines: seq<string>, ref: string, scalar: string)
    requires lines == [""] || (lines != [] && lines[|lines| - 1] != "")
    requires IsLine(ref) && IsLine(scalar) && AllLines(lines)
    ensures var u := UpsertLines(lines, ref, scalar); u[|u| - 1] != "" && AllLines(u)
  {
    PreparedAreLines(lines);
    EntryIsLine(ref, scalar);
    var l, at, j := PreparedParts(lines, ref, scalar);
    AroundAreLines(l, at, j, Entry(ref, scalar));
  }

  lemma PreparedParts(lines: seq<string>, ref: string, scalar: string) returns (l: seq<string>, at: nat, j: nat)
    ensures l == Prepared(lines) && at <= j <= |l|
    ensures UpsertLines(lines, ref, scalar) == l[..at] + [Entry(ref, scalar)] + l[j..]
  {
    l, at := Prepared(lines), Slot(lines, ref).0;
    j := if Slot(lines, ref).1 then at + 1 else at;
    assert Before(lines, ref) == l[..at] && Behind(lines, ref) == l[j..];
  }

  lemma EntryIsLine(ref: string, scalar: string)
    requires IsLine(ref) && IsLine(scalar)
    ensures IsLine(Entry(ref, scalar)) && Entry(ref, scalar) != ""
  {
  }

  // --- A file with more empty lines at its end reads alike. ---

  lemma {:induction false} EmptyLineInBlock(lines: seq<string>, ref: string)
    ensures ScalarInBlock(lines + [""], ref) == ScalarInBlock(lines, ref)
  {
    if lines == [] {
      assert [] + [""] == [""] && [""][1..] == [];
    } else {
      assert (lines + [""])[1..] == lines[1..] + [""];
      EmptyLineInBlock(lines[1..], ref);
    }
  }

  lemma {:induction false} EmptyLineAtEnd(lines: seq<string>, ref: string)
    ensures ScalarOf(lines + [""], ref) == ScalarOf(lines, ref)
  {
    if lines == [] {
      assert [] + [""] == [""] && [""][1..] == [];
    } else {
      assert (lines + [""])[1..] == lines[1..] + [""];
      EmptyLineAtEnd(lines[1..], ref);
      EmptyLineInBlock(lines[1..], ref);
    }
  }

  lemma {:induction false} SplitBreak(s: string)
    ensures Split(s + "\n") == Split(s) + [""]
  {
    if s == "" {
      assert ("" + "\n")[1..] == "";
    } else {
      assert (s + "\n")[1..] == s[1..] + "\n";
      SplitBreak(s[1..]);
    }
  }

  lemma {:induction false} ScalarInText(content: string, ref: string)
    ensures ScalarOf(Split(content), ref) == ScalarOf(ReadLines(content), ref)
  {
    if content != "" && content[|content| - 1] == '\n' {
      var s := content[..|content| - 1];
      assert content == s + "\n";
      SplitBreak(s);
      EmptyLineAtEnd(Split(s), ref);
      ScalarInText(s, ref);
    }
  }

  predicate EndsInOneBreak(s: string) {
    |s| > 1 && s[|s| - 1] == '\n' && s[|s| - 2] != '\n'
  }

  lemma WrittenEnds(lines: seq<string>)
    requires lines != [] && lines[|lines| - 1] != "" && IsLine(lines[|lines| - 1])
    ensures EndsInOneBreak(WriteLines(lines))
  {
    var last := lines[|lines| - 1];
    JoinEnds(lines);
    assert last[|last| - 1] in last;
  }

  /** The laws of the updates, on the text of the files: the first is overwritten, its scalar is what
      is read, other references are read as before and other lines stay. */
  lemma UpsertLaws(content: string, ref: string, first: string, second: string, other: string)
    requires IsLine(ref) && IsLine(first) && ':' !in ref && ':' !in other && ref != other
    ensures var once := Upsert(content, ref, first);
      && EndsInOneBreak(once) && Upsert(once, ref, second) == Upsert(content, ref, second)
      && ScalarOf(Split(once), ref) == Some(first)
      && ScalarOf(Split(once), other) == ScalarOf(Split(content), other)
      && Others(ReadLines(once), ref) == Others(ReadLines(content), ref)
  {
    var lines := ReadLines(content);
    SplitIsLines(TrimBreaks(content));
    ReadEnds(content);
    UpsertedLines(lines, ref, first);
    ReadOfWrite(UpsertLines(lines, ref, first));
    WrittenEnds(UpsertLines(lines, ref, first));
    UpsertOverwrites(lines, ref, first, second);
    ScalarOfUpsert(lines, ref, first);
    ScalarInText(Upsert(content, ref, first), ref);
    ScalarInText(Upsert(content, ref, first), other);
    ScalarInText(content, other);
    OthersStay(lines, ref, first);
  }
}
