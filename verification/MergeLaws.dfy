/** What the merge of consecutive assistant messages keeps, and how it splits. */
module MergeLaws {
  import opened Wrappers
  import Text
  import opened Messages

  // --- Shape, order and conservation. ---

  /** No two assistant messages in a row, and none that is empty. */
  ghost predicate Normal(msgs: seq<Msg>) {
    && (forall i :: 0 <= i < |msgs| ==> !IsEmptyAssistant(msgs[i]))
    && (forall i :: 0 < i < |msgs| ==> msgs[i - 1].role != Assistant || msgs[i].role != Assistant)
  }

  function Others(msgs: seq<Msg>): seq<Msg> {
    if msgs == [] then []
    else (if msgs[0].role != Assistant then [msgs[0]] else []) + Others(msgs[1..])
  }

  function ToolCalls(msgs: seq<Msg>): seq<ToolCall> {
    if msgs == [] then [] else msgs[0].toolCalls + ToolCalls(msgs[1..])
  }

  ghost predicate PendingOk(pending: Option<Msg>) {
    pending.Some? ==> pending.value.role == Assistant
  }

  lemma {:induction false} OutputIsNormal(pending: Option<Msg>, msgs: seq<Msg>)
    requires PendingOk(pending)
    ensures Normal(MergeFrom(pending, msgs))
    decreases msgs
  {
    if msgs != [] {
      if msgs[0].role != Assistant {
        OutputIsNormal(None, msgs[1..]);
        var rest := MergeFrom(None, msgs[1..]);
        var out := Flush(pending) + [msgs[0]] + rest;
        var k := |Flush(pending)|;
        forall i | 0 < i < |out| ensures out[i - 1].role != Assistant || out[i].role != Assistant {
          if i > k + 1 {
            assert out[i - 1] == rest[i - k - 2] && out[i] == rest[i - k - 1];
          }
        }
      } else {
        OutputIsNormal(Plus(pending, msgs[0]), msgs[1..]);
      }
    }
  }

  lemma {:induction false} NormalIsFixed(msgs: seq<Msg>)
    requires Normal(msgs)
    ensures Merge(msgs) == msgs
    decreases msgs
  {
    if msgs != [] {
      assert msgs == [msgs[0]] + msgs[1..];
      if msgs[0].role != Assistant {
        NormalIsFixed(msgs[1..]);
      } else if |msgs| > 1 {
        var rest := msgs[1..];
        assert msgs[1].role != Assistant && rest[0] == msgs[1] && rest == [rest[0]] + rest[1..];
        assert forall i :: 0 <= i < |rest[1..]| ==> rest[1..][i] == msgs[i + 2];
        NormalIsFixed(rest[1..]);
        assert Merge(msgs) == MergeFrom(Some(msgs[0]), rest) == [msgs[0]] + [rest[0]] + Merge(rest[1..]);
      } else {
        assert msgs[1..] == [] && Merge(msgs) == MergeFrom(Some(msgs[0]), []);
      }
    }
  }

  /** The output alternates and holds no empty assistant, and merging it again changes nothing. */
  lemma MergeNormalizes(msgs: seq<Msg>)
    ensures Normal(Merge(msgs)) && Merge(Merge(msgs)) == Merge(msgs)
  {
    OutputIsNormal(None, msgs);
    NormalIsFixed(Merge(msgs));
  }

  lemma {:induction false} OthersConcat(a: seq<Msg>, b: seq<Msg>)
    ensures Others(a + b) == Others(a) + Others(b) && ToolCalls(a + b) == ToolCalls(a) + ToolCalls(b)
    decreases a
  {
    if a == [] {
      assert a + b == b;
    } else {
      assert (a + b)[1..] == a[1..] + b;
      OthersConcat(a[1..], b);
    }
  }

  function HeldCalls(pending: Option<Msg>): seq<ToolCall> {
    if pending.Some? then pending.value.toolCalls else []
  }

  /** Other messages come through unchanged and in order. */
  lemma {:induction false} MergeKeepsOthers(pending: Option<Msg>, msgs: seq<Msg>)
    requires PendingOk(pending)
    ensures Others(MergeFrom(pending, msgs)) == Others(msgs)
    decreases msgs
  {
    if msgs != [] {
      if msgs[0].role != Assistant {
        var rest := MergeFrom(None, msgs[1..]);
        MergeKeepsOthers(None, msgs[1..]);
        OthersConcat(Flush(pending) + [msgs[0]], rest);
        OthersConcat(Flush(pending), [msgs[0]]);
      } else {
        MergeKeepsOthers(Plus(pending, msgs[0]), msgs[1..]);
      }
    }
  }

  lemma ToolCallsOfOther(f: seq<Msg>, m: Msg, rest: seq<Msg>)
    ensures ToolCalls(f + [m] + rest) == ToolCalls(f) + (m.toolCalls + ToolCalls(rest))
  {
    OthersConcat(f, [m]);
    OthersConcat(f + [m], rest);
    assert ToolCalls([m]) == m.toolCalls;
  }

  /** The sequence of all tool calls comes through. */
  lemma {:induction false} MergeKeepsToolCalls(pending: Option<Msg>, msgs: seq<Msg>)
    requires PendingOk(pending)
    ensures ToolCalls(MergeFrom(pending, msgs)) == HeldCalls(pending) + ToolCalls(msgs)
    decreases msgs
  {
    if msgs != [] {
      if msgs[0].role != Assistant {
        MergeKeepsToolCalls(None, msgs[1..]);
        ToolCallsOfOther(Flush(pending), msgs[0], MergeFrom(None, msgs[1..]));
      } else {
        MergeKeepsToolCalls(Plus(pending, msgs[0]), msgs[1..]);
      }
    }
  }

  /** Merging conserves the other messages and the tool calls. */
  lemma MergeConserves(msgs: seq<Msg>)
    ensures Others(Merge(msgs)) == Others(msgs) && ToolCalls(Merge(msgs)) == ToolCalls(msgs)
  {
    MergeKeepsOthers(None, msgs);
    MergeKeepsToolCalls(None, msgs);
  }

  // --- Reasoning is conserved; content need not be. ---

  /** The lines of reasoning of all assistant messages, in order. */
  function Reasoning(msgs: seq<Msg>): string {
    if msgs == [] then ""
    else Lines(if msgs[0].role == Assistant then msgs[0].reasoning else "", Reasoning(msgs[1..]))
  }

  lemma {:induction false} ReasoningConcat(a: seq<Msg>, b: seq<Msg>)
    ensures Reasoning(a + b) == Lines(Reasoning(a), Reasoning(b))
    decreases a
  {
    if a == [] {
      assert a + b == b;
    } else {
      assert (a + b)[1..] == a[1..] + b;
      ReasoningConcat(a[1..], b);
      LinesAssociate(if a[0].role == Assistant then a[0].reasoning else "", Reasoning(a[1..]), Reasoning(b));
    }
  }

  function HeldReasoning(pending: Option<Msg>): string {
    if pending.Some? then pending.value.reasoning else ""
  }

  lemma {:induction false} MergeFromKeepsReasoning(pending: Option<Msg>, msgs: seq<Msg>)
    requires PendingOk(pending)
    ensures Reasoning(MergeFrom(pending, msgs)) == Lines(HeldReasoning(pending), Reasoning(msgs))
    decreases msgs
  {
    FlushReasoning(pending);
    if msgs != [] {
      if msgs[0].role != Assistant {
        MergeFromKeepsReasoning(None, msgs[1..]);
        var f, rest := Flush(pending), MergeFrom(None, msgs[1..]);
        ReasoningConcat(f + [msgs[0]], rest);
        ReasoningConcat(f, [msgs[0]]);
        assert Reasoning([msgs[0]]) == "";
      } else {
        MergeFromKeepsReasoning(Plus(pending, msgs[0]), msgs[1..]);
        LinesAssociate(HeldReasoning(pending), msgs[0].reasoning, Reasoning(msgs[1..]));
      }
    }
  }

  lemma FlushReasoning(pending: Option<Msg>)
    requires PendingOk(pending)
    ensures Reasoning(Flush(pending)) == HeldReasoning(pending)
  {
  }

  /** What the assistant messages that have reasoning give as theirs, in order. */
  function Thoughts(msgs: seq<Msg>): (thoughts: seq<string>)
    ensures forall t :: t in thoughts ==> t != ""
  {
    if msgs == [] then []
    else if msgs[0].role == Assistant && msgs[0].reasoning != "" then [msgs[0].reasoning] + Thoughts(msgs[1..])
    else Thoughts(msgs[1..])
  }

  lemma JoinOneMore(t: string, more: seq<string>)
    ensures Text.Join([t] + more, "\n") == if more == [] then t else t + "\n" + Text.Join(more, "\n")
  {
    assert ([t] + more)[1..] == more;
  }

  lemma {:induction false} JoinHasText(texts: seq<string>)
    requires forall t :: t in texts ==> t != ""
    ensures Text.Join(texts, "\n") == "" <==> texts == []
  {
    assert texts != [] ==> texts[0] in texts;
  }

  lemma {:induction false} ReasoningIsJoined(msgs: seq<Msg>)
    ensures Reasoning(msgs) == Text.Join(Thoughts(msgs), "\n")
  {
    if msgs != [] {
      ReasoningIsJoined(msgs[1..]);
      JoinHasText(Thoughts(msgs[1..]));
      if msgs[0].role == Assistant && msgs[0].reasoning != "" {
        JoinOneMore(msgs[0].reasoning, Thoughts(msgs[1..]));
      }
    }
  }

  /** No line of reasoning is lost or moved: what is given as reasoning, one to a line, stays. */
  lemma MergeKeepsReasoning(msgs: seq<Msg>)
    ensures Text.Join(Thoughts(Merge(msgs)), "\n") == Text.Join(Thoughts(msgs), "\n")
  {
    MergeFromKeepsReasoning(None, msgs);
    ReasoningIsJoined(msgs);
    ReasoningIsJoined(Merge(msgs));
  }

  // --- One run of assistant messages. ---

  predicate HasContent(m: Msg) {
    m.content.Some? && (m.content.value.text != "" || m.content.value.parts != [])
  }

  predicate HasNothing(m: Msg) {
    m.toolCalls == [] && m.reasoning == "" && m.refusal == "" && !HasContent(m)
  }

  /** m has the content and the refusal of the first message of the run with any, all tool calls in
      order, and all reasoning, one to a line. */
  ghost predicate IsMergeOf(m: Msg, run: seq<Msg>) {
    && m.role == Assistant && run != [] && m.toolCallID == run[0].toolCallID
    && m.toolCalls == ToolCalls(run) && m.reasoning == Text.Join(Thoughts(run), "\n")
    && (HasContent(m) ==> exists i :: IsFirstContent(run, i) && m.content == run[i].content)
    && (!HasContent(m) ==> forall i :: 0 <= i < |run| ==> !HasContent(run[i]))
    && (m.refusal != "" ==> exists i :: IsFirstRefusal(run, i) && m.refusal == run[i].refusal)
    && (m.refusal == "" ==> forall i :: 0 <= i < |run| ==> run[i].refusal == "")
  }

  ghost predicate IsFirstContent(run: seq<Msg>, i: int) {
    0 <= i < |run| && HasContent(run[i]) && forall j :: 0 <= j < i ==> !HasContent(run[j])
  }

  ghost predicate IsFirstRefusal(run: seq<Msg>, i: int) {
    0 <= i < |run| && run[i].refusal != "" && forall j :: 0 <= j < i ==> run[j].refusal == ""
  }

  ghost predicate AllAssistant(run: seq<Msg>) {
    forall i :: 0 <= i < |run| ==> run[i].role == Assistant
  }

  lemma OneIsItsMerge(m: Msg)
    requires m.role == Assistant
    ensures IsMergeOf(m, [m])
  {
    assert [m][1..] == [];
    assert HasContent(m) ==> IsFirstContent([m], 0);
    assert m.refusal != "" ==> IsFirstRefusal([m], 0);
  }

  lemma ReasoningOfMore(run: seq<Msg>, m: Msg)
    requires m.role == Assistant
    ensures Text.Join(Thoughts(run + [m]), "\n") == Lines(Text.Join(Thoughts(run), "\n"), m.reasoning)
    ensures ToolCalls(run + [m]) == ToolCalls(run) + m.toolCalls
  {
    ReasoningIsJoined(run);
    ReasoningIsJoined(run + [m]);
    ReasoningConcat(run, [m]);
    OthersConcat(run, [m]);
    assert [m][1..] == [];
  }

  lemma MergeOneMore(x: Msg, run: seq<Msg>, m: Msg)
    requires IsMergeOf(x, run) && m.role == Assistant
    ensures IsMergeOf(Merged(x, m), run + [m])
  {
    var more, n, y := run + [m], |run|, Merged(x, m);
    ReasoningOfMore(run, m);
    ContentOfMore(x, run, m);
    RefusalOfMore(x, run, m);
  }

  lemma ContentOfMore(x: Msg, run: seq<Msg>, m: Msg)
    requires IsMergeOf(x, run)
    ensures var y, more := Merged(x, m), run + [m];
      && (HasContent(y) ==> exists i :: IsFirstContent(more, i) && y.content == more[i].content)
      && (!HasContent(y) ==> forall i :: 0 <= i < |more| ==> !HasContent(more[i]))
  {
    var y, more := Merged(x, m), run + [m];
    if HasContent(x) {
      var i :| IsFirstContent(run, i) && x.content == run[i].content;
      assert IsFirstContent(more, i);
    } else if HasContent(m) {
      assert IsFirstContent(more, |run|);
    }
  }

  lemma RefusalOfMore(x: Msg, run: seq<Msg>, m: Msg)
    requires IsMergeOf(x, run)
    ensures var y, more := Merged(x, m), run + [m];
      && (y.refusal != "" ==> exists i :: IsFirstRefusal(more, i) && y.refusal == more[i].refusal)
      && (y.refusal == "" ==> forall i :: 0 <= i < |more| ==> more[i].refusal == "")
  {
    var y, more := Merged(x, m), run + [m];
    if x.refusal != "" {
      var i :| IsFirstRefusal(run, i) && x.refusal == run[i].refusal;
      assert IsFirstRefusal(more, i);
    } else if m.refusal != "" {
      assert IsFirstRefusal(more, |run|);
    }
  }

  lemma {:induction false} MergeFromRun(x: Msg, done: seq<Msg>, run: seq<Msg>, rest: seq<Msg>) returns (m: Msg)
    requires IsMergeOf(x, done) && AllAssistant(run) && (rest != [] ==> rest[0].role != Assistant)
    ensures IsMergeOf(m, done + run) && MergeFrom(Some(x), run + rest) == Flush(Some(m)) + Merge(rest)
    decreases |run|
  {
    if run == [] {
      m := x;
      assert done + run == done && run + rest == rest;
      if rest != [] {
        FlushInFront(Some(x), rest);
      }
    } else {
      MergeOneMore(x, done, run[0]);
      m := MergeFromRun(Merged(x, run[0]), done + [run[0]], run[1..], rest);
      assert done + [run[0]] + run[1..] == done + run;
      TakeFirst(x, run, rest);
    }
  }

  lemma TakeFirst(x: Msg, run: seq<Msg>, rest: seq<Msg>)
    requires run != [] && run[0].role == Assistant
    ensures MergeFrom(Some(x), run + rest) == MergeFrom(Some(Merged(x, run[0])), run[1..] + rest)
  {
    assert (run + rest)[1..] == run[1..] + rest;
  }

  lemma FlushInFront(p: Option<Msg>, rest: seq<Msg>)
    requires rest != [] && rest[0].role != Assistant
    ensures MergeFrom(p, rest) == Flush(p) + Merge(rest)
  {
    var f, m, more := Flush(p), [rest[0]], MergeFrom(None, rest[1..]);
    assert f + m + more == f + (m + more) && Flush(None) + m == m;
  }

  /** A run of assistant messages becomes one message, or none if nothing is in them. */
  lemma MergeOfRun(run: seq<Msg>, rest: seq<Msg>) returns (m: Msg)
    requires run != [] && AllAssistant(run) && (rest != [] ==> rest[0].role != Assistant)
    ensures IsMergeOf(m, run)
    ensures Merge(run + rest) == (if HasNothing(m) then [] else [m]) + Merge(rest)
  {
    OneIsItsMerge(run[0]);
    m := MergeFromRun(run[0], [run[0]], run[1..], rest);
    assert [run[0]] + run[1..] == run && (run + rest)[1..] == run[1..] + rest;
  }

  /** The contents of the assistant messages that have any, in order. */
  function Contents(msgs: seq<Msg>): seq<Content> {
    if msgs == [] then [] else ContentOf(msgs[0]) + Contents(msgs[1..])
  }

  function ContentOf(m: Msg): seq<Content> {
    if m.role == Assistant && !Blank(m.content) then [m.content.value] else []
  }

  function HeldContent(pending: Option<Msg>): seq<Content> {
    if pending.Some? then ContentOf(pending.value) else []
  }

  lemma {:induction false} ContentsConcat(a: seq<Msg>, b: seq<Msg>)
    ensures Contents(a + b) == Contents(a) + Contents(b)
    decreases a
  {
    if a == [] {
      assert a + b == b;
    } else {
      assert (a + b)[1..] == a[1..] + b;
      ContentsConcat(a[1..], b);
    }
  }

  /** In no run of assistant messages do two have content; held says that one before has. */
  predicate OneContentEach(held: bool, msgs: seq<Msg>)
    decreases msgs
  {
    msgs == [] ||
    if msgs[0].role != Assistant then OneContentEach(false, msgs[1..])
    else !(held && !Blank(msgs[0].content)) && OneContentEach(held || !Blank(msgs[0].content), msgs[1..])
  }

  lemma FlushContents(pending: Option<Msg>)
    requires PendingOk(pending)
    ensures Contents(Flush(pending)) == HeldContent(pending)
  {
  }

  lemma ContentsAround(f: seq<Msg>, m: Msg, rest: seq<Msg>)
    requires m.role != Assistant
    ensures Contents(f + [m] + rest) == Contents(f) + Contents(rest)
  {
    ContentsConcat(f + [m], rest);
    ContentsConcat(f, [m]);
    NoContents(m);
    NothingBehind(Contents(f));
  }

  lemma NoContents(m: Msg)
    requires m.role != Assistant
    ensures Contents([m]) == []
  {
    assert [m][1..] == [];
  }

  lemma NothingBehind(a: seq<Content>)
    ensures a + [] == a && [] + a == a
  {
  }

  lemma ContentsOfOther(msgs: seq<Msg>)
    requires msgs != [] && msgs[0].role != Assistant
    ensures Contents(msgs) == Contents(msgs[1..])
  {
    NothingBehind(Contents(msgs[1..]));
  }

  /** The first content is held. */
  lemma HeldOfPlus(pending: Option<Msg>, m: Msg)
    requires PendingOk(pending) && m.role == Assistant
    ensures HeldContent(Plus(pending, m)) == if HeldContent(pending) == [] then ContentOf(m) else HeldContent(pending)
  {
  }

  lemma {:induction false} ContentsFrom(pending: Option<Msg>, msgs: seq<Msg>)
    requires PendingOk(pending)
    ensures var out, all := Contents(MergeFrom(pending, msgs)), HeldContent(pending) + Contents(msgs);
      if OneContentEach(HeldContent(pending) != [], msgs) then out == all else |out| < |all|
    decreases msgs
  {
    FlushContents(pending);
    if msgs != [] {
      if msgs[0].role != Assistant {
        var f, rest := Flush(pending), MergeFrom(None, msgs[1..]);
        ContentsFrom(None, msgs[1..]);
        ContentsAround(f, msgs[0], rest);
        ContentsOfOther(msgs);
        NothingBehind(Contents(msgs));
      } else {
        ContentsFrom(Plus(pending, msgs[0]), msgs[1..]);
        HeldOfPlus(pending, msgs[0]);
        NothingBehind(Contents(msgs[1..]));
        if HeldContent(pending) != [] && !Blank(msgs[0].content) {
          ContentsShrink(Plus(pending, msgs[0]), msgs[1..]);
        }
      }
    }
  }

  lemma ContentsShrink(pending: Option<Msg>, msgs: seq<Msg>)
    requires PendingOk(pending)
    requires var out, all := Contents(MergeFrom(pending, msgs)), HeldContent(pending) + Contents(msgs);
      if OneContentEach(HeldContent(pending) != [], msgs) then out == all else |out| < |all|
    ensures |Contents(MergeFrom(pending, msgs))| <= |HeldContent(pending)| + |Contents(msgs)|
  {
  }

  /** The contents come through exactly if no two of consecutive assistant messages have any: all but
      the first of a run are lost. */
  lemma ContentsKeptIff(msgs: seq<Msg>)
    ensures Contents(Merge(msgs)) == Contents(msgs) <==> OneContentEach(false, msgs)
  {
    ContentsFrom(None, msgs);
    assert HeldContent(None) + Contents(msgs) == Contents(msgs);
  }

  // --- Splitting, up to missing or empty content. ---

  /** Missing and empty content are the same. */
  function NormMsg(m: Msg): Msg {
    m.(content := if Blank(m.content) then None else m.content)
  }

  function Norm(msgs: seq<Msg>): (n: seq<Msg>)
    ensures |n| == |msgs| && forall i :: 0 <= i < |n| ==> n[i] == NormMsg(msgs[i])
  {
    seq(|msgs|, i requires 0 <= i < |msgs| => NormMsg(msgs[i]))
  }

  lemma NormConcat(a: seq<Msg>, b: seq<Msg>)
    ensures Norm(a + b) == Norm(a) + Norm(b)
  {
  }

  /** Only tool results carry a tool call id. */
  ghost predicate Plain(m: Msg) {
    m.role == Assistant ==> m.toolCallID == ""
  }

  ghost predicate AllPlain(msgs: seq<Msg>) {
    forall m :: m in msgs ==> Plain(m)
  }

  ghost predicate PlainPending(p: Option<Msg>) {
    p.Some? ==> p.value.role == Assistant && Plain(p.value)
  }

  /** Two collections in progress that no one can tell apart: both empty, or equal up to empty content. */
  ghost predicate Alike(p: Option<Msg>, q: Option<Msg>) {
    || (Flush(p) == [] && Flush(q) == [])
    || (p.Some? && q.Some? && NormMsg(p.value) == NormMsg(q.value))
  }

  lemma LinesAssociate(a: string, b: string, c: string)
    ensures Lines(Lines(a, b), c) == Lines(a, Lines(b, c))
  {
    if a != "" && b != "" && c != "" {
      assert a + "\n" + b + "\n" + c == a + "\n" + (b + "\n" + c);
    }
  }

  lemma MergedAssociates(x: Msg, y: Msg, z: Msg)
    ensures Merged(Merged(x, y), z) == Merged(x, Merged(y, z))
  {
    LinesAssociate(x.reasoning, y.reasoning, z.reasoning);
    assert x.toolCalls + y.toolCalls + z.toolCalls == x.toolCalls + (y.toolCalls + z.toolCalls);
  }

  lemma PlusAlike(p: Option<Msg>, q: Option<Msg>, m: Msg)
    requires Alike(p, q) && PlainPending(p) && PlainPending(q) && m.role == Assistant && Plain(m)
    ensures Alike(Plus(p, m), Plus(q, m)) && PlainPending(Plus(p, m))
  {
  }

  lemma FlushAlike(p: Option<Msg>, q: Option<Msg>)
    requires Alike(p, q)
    ensures Norm(Flush(p)) == Norm(Flush(q))
  {
  }

  lemma {:induction false} MergeFromAlike(p: Option<Msg>, q: Option<Msg>, msgs: seq<Msg>)
    requires Alike(p, q) && PlainPending(p) && PlainPending(q) && AllPlain(msgs)
    ensures Norm(MergeFrom(p, msgs)) == Norm(MergeFrom(q, msgs))
    decreases msgs
  {
    if msgs == [] {
      FlushAlike(p, q);
    } else if msgs[0].role != Assistant {
      FlushAlike(p, q);
      var rest := [msgs[0]] + MergeFrom(None, msgs[1..]);
      NormConcat(Flush(p), rest);
      NormConcat(Flush(q), rest);
      assert Flush(p) + [msgs[0]] + MergeFrom(None, msgs[1..]) == Flush(p) + rest;
      assert Flush(q) + [msgs[0]] + MergeFrom(None, msgs[1..]) == Flush(q) + rest;
    } else {
      PlusAlike(p, q, msgs[0]);
      PlusAlike(q, p, msgs[0]);
      MergeFromAlike(Plus(p, msgs[0]), Plus(q, msgs[0]), msgs[1..]);
    }
  }

  function Both(q: Option<Msg>, p: Option<Msg>): Option<Msg> {
    if p.None? then q else Plus(q, p.value)
  }

  lemma FlushAbsorbed(q: Option<Msg>, p: Option<Msg>, c: seq<Msg>)
    requires PlainPending(q) && PlainPending(p) && AllPlain(c)
    ensures Norm(MergeFrom(q, Flush(p) + c)) == Norm(MergeFrom(Both(q, p), c))
  {
    if Flush(p) == [] {
      assert Flush(p) + c == c;
      if p.Some? {
        MergeFromAlike(q, Both(q, p), c);
      }
    } else {
      assert (Flush(p) + c)[0] == p.value && (Flush(p) + c)[1..] == c;
    }
  }

  /** Merging what a merge has emitted, and going on with c, is going on with c at once. */
  lemma {:induction false} Absorb(q: Option<Msg>, p: Option<Msg>, a: seq<Msg>, c: seq<Msg>)
    requires PlainPending(q) && PlainPending(p) && AllPlain(a) && AllPlain(c)
    ensures Norm(MergeFrom(q, MergeFrom(p, a) + c)) == Norm(MergeFrom(Both(q, p), a + c))
    decreases a
  {
    if a == [] {
      assert a + c == c;
      FlushAbsorbed(q, p, c);
    } else {
      var m := a[0];
      assert (a + c)[1..] == a[1..] + c && (a + c)[0] == m;
      if m.role == Assistant {
        Absorb(q, Plus(p, m), a[1..], c);
        PlusAssociates(q, p, m);
      } else {
        Absorb(None, None, a[1..], c);
        AbsorbOther(q, p, a, c);
      }
    }
  }

  lemma PlusAssociates(q: Option<Msg>, p: Option<Msg>, m: Msg)
    ensures Both(q, Plus(p, m)) == Plus(Both(q, p), m)
  {
    if q.Some? && p.Some? {
      MergedAssociates(q.value, p.value, m);
    }
  }

  lemma AbsorbOther(q: Option<Msg>, p: Option<Msg>, a: seq<Msg>, c: seq<Msg>)
    requires PlainPending(q) && PlainPending(p) && AllPlain(a) && AllPlain(c) && a != [] && a[0].role != Assistant
    requires Norm(MergeFrom(None, MergeFrom(None, a[1..]) + c)) == Norm(MergeFrom(None, a[1..] + c))
    ensures Norm(MergeFrom(q, MergeFrom(p, a) + c)) == Norm(MergeFrom(Both(q, p), a + c))
  {
    var m, rest := a[0], MergeFrom(None, a[1..]) + c;
    MergeOther(p, a, c);
    PlainRest(a, c);
    FlushAbsorbed(q, p, [m] + rest);
    BehindOther(Both(q, p), m, rest, a[1..] + c);
  }

  lemma MergeOther(p: Option<Msg>, a: seq<Msg>, c: seq<Msg>)
    requires a != [] && a[0].role != Assistant
    ensures a + c == [a[0]] + (a[1..] + c)
    ensures MergeFrom(p, a) + c == Flush(p) + ([a[0]] + (MergeFrom(None, a[1..]) + c))
  {
    var f, m, rest := Flush(p), [a[0]], MergeFrom(None, a[1..]);
    assert m + a[1..] == a && m + a[1..] + c == m + (a[1..] + c);
    assert MergeFrom(p, a) == f + m + rest;
    Regroup4(f, m, rest, c);
  }

  lemma Regroup4(f: seq<Msg>, m: seq<Msg>, rest: seq<Msg>, c: seq<Msg>)
    ensures f + m + rest + c == f + (m + (rest + c))
  {
  }

  lemma PlainRest(a: seq<Msg>, c: seq<Msg>)
    requires a != [] && AllPlain(a) && AllPlain(c)
    ensures AllPlain([a[0]] + (MergeFrom(None, a[1..]) + c))
  {
    MergeKeepsPlain(None, a[1..]);
  }

  lemma {:induction false} MergeKeepsPlain(p: Option<Msg>, msgs: seq<Msg>)
    requires PlainPending(p) && AllPlain(msgs)
    ensures AllPlain(MergeFrom(p, msgs))
    decreases msgs
  {
    if msgs != [] {
      assert Plain(msgs[0]);
      if msgs[0].role != Assistant {
        MergeKeepsPlain(None, msgs[1..]);
      } else {
        MergeKeepsPlain(Plus(p, msgs[0]), msgs[1..]);
      }
    }
  }

  /** Behind a message that is not an assistant's, merging starts afresh. */
  lemma BehindOther(p: Option<Msg>, m: Msg, x: seq<Msg>, y: seq<Msg>)
    requires m.role != Assistant && Norm(Merge(x)) == Norm(Merge(y))
    ensures Norm(MergeFrom(p, [m] + x)) == Norm(MergeFrom(p, [m] + y))
  {
    assert ([m] + x)[1..] == x && ([m] + y)[1..] == y;
    NormConcat(Flush(p) + [m], Merge(x));
    NormConcat(Flush(p) + [m], Merge(y));
  }

  lemma {:induction false} TailMerged(p: Option<Msg>, a: seq<Msg>, b: seq<Msg>)
    requires PlainPending(p) && AllPlain(a) && AllPlain(b)
    ensures Norm(MergeFrom(p, a + Merge(b))) == Norm(MergeFrom(p, a + b))
    decreases a
  {
    if a == [] {
      assert a + Merge(b) == Merge(b) + [] && a + b == b + [];
      Absorb(p, None, b, []);
    } else {
      var x, y := a[1..] + Merge(b), a[1..] + b;
      assert a + Merge(b) == [a[0]] + x && a + b == [a[0]] + y;
      assert Plain(a[0]);
      if a[0].role != Assistant {
        TailMerged(None, a[1..], b);
        BehindOther(p, a[0], x, y);
      } else {
        TailMerged(Plus(p, a[0]), a[1..], b);
        assert ([a[0]] + x)[1..] == x && ([a[0]] + y)[1..] == y;
      }
    }
  }

  /** Merging a conversation is merging its parts and then merging the results, however it is cut. */
  lemma MergeSplits(a: seq<Msg>, b: seq<Msg>)
    requires AllPlain(a) && AllPlain(b)
    ensures Norm(Merge(a + b)) == Norm(Merge(Merge(a) + Merge(b)))
  {
    MergeKeepsPlain(None, b);
    Absorb(None, None, a, Merge(b));
    TailMerged(None, a, b);
  }
}
