/** Messages in the unified format and the merge of consecutive assistant messages. */
module Messages {
  import opened Wrappers

  datatype Role = Assistant | System | Developer | Tool | User | Custom(name: string)

  datatype Part =
    | TextPart(text: string)
    | ImagePart(url: string, detail: string)
    | FilePart(data: string, id: string, filename: string)

  datatype Content = Content(text: string, parts: seq<Part>)

  datatype ToolCall = ToolCall(id: string, name: string, arguments: string)

  datatype Msg = Msg(
    role: Role,
    content: Option<Content>,
    reasoning: string,
    toolCalls: seq<ToolCall>,
    toolCallID: string,
    refusal: string)

  predicate Blank(c: Option<Content>) {
    c.None? || (c.value.text == "" && c.value.parts == [])
  }

  /** Lines of reasoning put together; empty ones leave no line. */
  function Lines(a: string, b: string): string {
    if b == "" then a else if a == "" then b else a + "\n" + b
  }

  /** dst after taking up src. */
  function Merged(dst: Msg, src: Msg): Msg {
    Msg(dst.role,
        if Blank(dst.content) then src.content else dst.content,
        Lines(dst.reasoning, src.reasoning),
        dst.toolCalls + src.toolCalls,
        dst.toolCallID,
        if src.refusal != "" && dst.refusal == "" then src.refusal else dst.refusal)
  }

  predicate IsEmptyAssistant(m: Msg) {
    m.role == Assistant && m.toolCalls == [] && m.reasoning == "" && m.refusal == "" && Blank(m.content)
  }

  function Flush(pending: Option<Msg>): seq<Msg> {
    if pending.Some? && !IsEmptyAssistant(pending.value) then [pending.value] else []
  }

  function Plus(pending: Option<Msg>, m: Msg): Option<Msg> {
    if pending.None? then Some(m) else Some(Merged(pending.value, m))
  }

  /** What is emitted from here on, given the assistant message being collected. */
  function MergeFrom(pending: Option<Msg>, msgs: seq<Msg>): seq<Msg>
    decreases msgs
  {
    if msgs == [] then Flush(pending)
    else if msgs[0].role != Assistant then Flush(pending) + [msgs[0]] + MergeFrom(None, msgs[1..])
    else MergeFrom(Plus(pending, msgs[0]), msgs[1..])
  }

  function Merge(msgs: seq<Msg>): seq<Msg> {
    MergeFrom(None, msgs)
  }

  // --- In place. ---

  class UnifiedMessage {
    const role: Role
    var content: Option<Content>
    var reasoning: string
    var toolCalls: seq<ToolCall>
    var refusal: string
    const toolCallID: string

    constructor (m: Msg)
      ensures View() == m
    {
      role, content, reasoning := m.role, m.content, m.reasoning;
      toolCalls, refusal, toolCallID := m.toolCalls, m.refusal, m.toolCallID;
    }

    function View(): Msg
      reads this
    {
      Msg(role, content, reasoning, toolCalls, toolCallID, refusal)
    }

    method MergeAssistantInto(src: UnifiedMessage)
      requires src != this
      modifies this
      ensures View() == Merged(old(View()), src.View())
    {
      if content.None? || (content.value.text == "" && |content.value.parts| == 0) {
        content := src.content;
      }
      toolCalls := toolCalls + src.toolCalls;
      if src.reasoning != "" {
        if reasoning == "" {
          reasoning := src.reasoning;
        } else {
          reasoning := reasoning + "\n" + src.reasoning;
        }
      }
      if src.refusal != "" && refusal == "" {
        refusal := src.refusal;
      }
    }
  }

  ghost function Views(msgs: seq<UnifiedMessage>): (views: seq<Msg>)
    reads msgs
    ensures |views| == |msgs| && forall i :: 0 <= i < |msgs| ==> views[i] == msgs[i].View()
  {
    seq(|msgs|, i requires 0 <= i < |msgs| reads msgs => msgs[i].View())
  }

  ghost function PendingView(pending: UnifiedMessage?): Option<Msg>
    reads pending
  {
    if pending == null then None else Some(pending.View())
  }

  method FlushPending(merged: seq<UnifiedMessage>, pending: UnifiedMessage?) returns (r: seq<UnifiedMessage>)
    ensures forall m :: m in r ==> m in merged || m == pending
    ensures Views(r) == Views(merged) + Flush(PendingView(pending))
  {
    r := merged;
    if pending != null && !IsEmptyAssistant(pending.View()) {
      r := merged + [pending];
    }
  }

  method AppendOther(merged: seq<UnifiedMessage>, pending: UnifiedMessage?, msg: UnifiedMessage)
    returns (r: seq<UnifiedMessage>)
    ensures forall m :: m in r ==> m in merged || m == pending || m == msg
    ensures Views(r) == Views(merged) + Flush(PendingView(pending)) + [msg.View()]
  {
    var flushed := FlushPending(merged, pending);
    r := flushed + [msg];
    assert Views(r) == Views(flushed) + [msg.View()];
  }

  lemma MergeStep(out: seq<Msg>, pending: Option<Msg>, views: seq<Msg>, i: nat)
    requires i < |views|
    ensures out + MergeFrom(pending, views[i..]) ==
            if views[i].role != Assistant then out + Flush(pending) + [views[i]] + MergeFrom(None, views[i + 1..])
            else out + MergeFrom(Plus(pending, views[i]), views[i + 1..])
  {
    assert views[i..][0] == views[i] && views[i..][1..] == views[i + 1..];
  }

  /** Merges in place: the first message of each group of assistant messages collects the others. */
  method MergeConsecutiveAssistantMessages(msgs: seq<UnifiedMessage>) returns (merged: seq<UnifiedMessage>)
    requires forall i, j :: 0 <= i < j < |msgs| ==> msgs[i] != msgs[j]
    modifies msgs
    ensures Views(merged) == Merge(old(Views(msgs)))
  {
    ghost var views := Views(msgs);
    ghost var out: seq<Msg>, seen: set<UnifiedMessage> := [], {};
    merged := [];
    var pending: UnifiedMessage? := null;
    for i := 0 to |msgs|
      invariant forall m :: m in merged ==> m in seen && m != pending
      invariant pending == null || (pending in seen && pending in msgs)
      invariant forall k :: i <= k < |msgs| ==> msgs[k] !in seen
      invariant forall k :: i <= k < |msgs| ==> msgs[k].View() == views[k]
      invariant Views(merged) == out
      invariant out + MergeFrom(PendingView(pending), views[i..]) == Merge(views)
    {
      MergeStep(out, PendingView(pending), views, i);
      var msg := msgs[i];
      seen := seen + {msg};
      if msg.role != Assistant {
        out := out + Flush(PendingView(pending)) + [views[i]];
        merged := AppendOther(merged, pending, msg);
        pending := null;
      } else if pending == null {
        pending := msg;
      } else {
        pending.MergeAssistantInto(msg);
        assert forall k :: 0 <= k < |merged| ==> merged[k].View() == out[k];
      }
    }
    merged := FlushPending(merged, pending);
  }
}
