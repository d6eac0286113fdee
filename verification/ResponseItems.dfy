/** The two conversions of a flat list of Response API items into unified messages: requests turn
    reasoning into messages of its own before merging, responses hold it back for the next
    assistant message. */
module ResponseItems {
  import opened Wrappers
  import opened Messages

  datatype Result<+T> = Ok(value: T) | Err(item: nat)

  datatype ItemType =
    | Message
    | FunctionCall
    | CustomToolCall
    | FunctionCallOutput
    | CustomToolCallOutput
    | Reasoning
    | Other

  datatype ItemPart =
    | InputText(text: string) | OutputText(text: string)
    | Refusal(text: string)
    | InputImage(url: string, detail: string)
    | InputFile(data: string, id: string, filename: string)
    | SummaryText(text: string) | ReasoningText(text: string)
    | Unsupported

  datatype ItemContent = ItemContent(text: string, parts: seq<Option<ItemPart>>)

  datatype Output = FunctionOutput(text: string, parts: seq<Option<ItemPart>>) | PlainOutput(text: string) | NoOutput

  /** Absent strings are empty; an item without a type is a message. */
  datatype Item = Item(
    itemType: ItemType,
    role: string,
    content: Option<ItemContent>,
    callID: string,
    name: string,
    arguments: string,
    input: string,
    output: Output,
    summary: seq<string>,
    reasoning: seq<string>)

  function ResolveRole(role: string): Role {
    if role == "assistant" then Assistant
    else if role == "system" then System
    else if role == "developer" then Developer
    else if role == "tool" then Tool
    else if role in {"user", ""} then User
    else Custom(role)
  }

  /** Content, refusal and reasoning gathered from the parts of a message; None if one is unsupported. */
  datatype Gathered = Gathered(parts: seq<Part>, refusal: string, reasoning: string)

  /** Refusals and reasoning blocks go on a line each, empty blocks after the first line included. */
  function Append(a: string, b: string): string {
    if a == "" then b else a + "\n" + b
  }

  function Gather(g: Gathered, parts: seq<Option<ItemPart>>): Option<Gathered>
    decreases parts
  {
    if parts == [] then Some(g)
    else match parts[0]
      case None => Gather(g, parts[1..])
      case Some(InputText(t)) => Gather(g.(parts := g.parts + [TextPart(t)]), parts[1..])
      case Some(OutputText(t)) => Gather(g.(parts := g.parts + [TextPart(t)]), parts[1..])
      case Some(Refusal(t)) => Gather(g.(refusal := Append(g.refusal, t)), parts[1..])
      case Some(InputImage(u, d)) => Gather(g.(parts := g.parts + [ImagePart(u, d)]), parts[1..])
      case Some(InputFile(d, i, n)) => Gather(g.(parts := g.parts + [FilePart(d, i, n)]), parts[1..])
      case Some(SummaryText(t)) => Gather(g.(reasoning := Append(g.reasoning, t)), parts[1..])
      case Some(ReasoningText(t)) => Gather(g.(reasoning := Append(g.reasoning, t)), parts[1..])
      case Some(Unsupported) => None
  }

  /** The message of a message item, or None if a part cannot be converted. */
  function FromMessage(item: Item): Option<Msg> {
    var um := Msg(ResolveRole(item.role), None, "", [], "", "");
    if item.content.None? then Some(um)
    else if item.content.value.parts == [] then Some(um.(content := Some(Content(item.content.value.text, []))))
    else
      match Gather(Gathered([], "", ""), item.content.value.parts)
      case None => None
      case Some(g) =>
        Some(um.(content := if g.parts == [] then None else Some(Content("", g.parts)), reasoning := g.reasoning))
  }

  function FromFunctionCall(item: Item): Msg {
    var args := if item.arguments == "" then item.input else item.arguments;
    Msg(Assistant, None, "", [ToolCall(item.callID, item.name, args)], "", "")
  }

  function TextParts(parts: seq<Option<ItemPart>>): seq<Part> {
    if parts == [] then []
    else
      (if parts[0].Some? && (parts[0].value.InputText? || parts[0].value.OutputText?)
       then [TextPart(parts[0].value.text)] else []) + TextParts(parts[1..])
  }

  function FromFunctionCallOutput(item: Item): Msg {
    var um := Msg(Tool, None, "", [], item.callID, "");
    match item.output
    case NoOutput => um
    case FunctionOutput(text, parts) =>
      var texts := TextParts(parts);
      um.(content := Some(if texts != [] then Content("", texts) else Content(text, [])))
    case PlainOutput(text) => if text != "" then um.(content := Some(Content(text, []))) else um
  }

  function NonEmpty(texts: seq<string>): seq<string> {
    if texts == [] then [] else (if texts[0] == "" then [] else [texts[0]]) + NonEmpty(texts[1..])
  }

  function JoinLines(texts: seq<string>): string {
    if texts == [] then "" else if |texts| == 1 then texts[0] else texts[0] + "\n" + JoinLines(texts[1..])
  }

  function CollectReasoningText(item: Item): string {
    JoinLines(NonEmpty(item.summary) + NonEmpty(item.reasoning))
  }

  function ReasoningMsg(text: string): Msg {
    Msg(Assistant, None, text, [], "", "")
  }

  /** One item: a message, nothing (an unsupported type), or an error. */
  datatype Converted = Converted(msg: Msg) | Skipped | Failed

  function FromItem(item: Item): Converted {
    match item.itemType
    case Message => (match FromMessage(item) case None => Failed case Some(m) => Converted(m))
    case FunctionCall => Converted(FromFunctionCall(item))
    case CustomToolCall => Converted(FromFunctionCall(item))
    case FunctionCallOutput => Converted(FromFunctionCallOutput(item))
    case CustomToolCallOutput => Converted(FromFunctionCallOutput(item))
    case Reasoning => Converted(ReasoningMsg(CollectReasoningText(item)))
    case Other => Skipped
  }

  /** Refusal blocks are gathered and then not used: a converted message carries the refusal of its
      item exactly if there is none. */
  lemma RefusalKeptIffNone(item: Item)
    requires item.itemType == Message && item.content.Some? && item.content.value.parts != []
    requires Gather(Gathered([], "", ""), item.content.value.parts).Some?
    ensures FromItem(item).Converted?
    ensures FromItem(item).msg.refusal == Gather(Gathered([], "", ""), item.content.value.parts).value.refusal
            <==> Gather(Gathered([], "", ""), item.content.value.parts).value.refusal == ""
  {
  }

  // --- Requests. ---

  /** The first item that cannot be converted. */
  function FirstFailure(items: seq<Option<Item>>): Option<nat> {
    if items == [] then None
    else if items[0].Some? && FromItem(items[0].value).Failed? then Some(0)
    else match FirstFailure(items[1..])
      case None => None
      case Some(i) => Some(i + 1)
  }

  function OneIn(item: Option<Item>): seq<Msg> {
    if item.Some? && FromItem(item.value).Converted? then [FromItem(item.value).msg] else []
  }

  /** The messages of a request before merging. */
  function In(items: seq<Option<Item>>): seq<Msg> {
    if items == [] then []
    else
      OneIn(items[0]) + In(items[1..])
  }

  /** The messages of a response before merging, with pending the reasoning held back. */
  function Out(items: seq<Option<Item>>, pending: string): seq<Msg>
    decreases items
  {
    if items == [] then if pending != "" then [ReasoningMsg(pending)] else []
    else if items[0].None? then Out(items[1..], pending)
    else if items[0].value.itemType == Reasoning then
      Out(items[1..], Lines(pending, CollectReasoningText(items[0].value)))
    else match FromItem(items[0].value)
      case Converted(m) =>
        if m.role == Assistant && pending != ""
        then [m.(reasoning := pending)] + Out(items[1..], "")
        else [m] + Out(items[1..], pending)
      case Skipped => Out(items[1..], pending)
      case Failed => Out(items[1..], pending)
  }

  lemma FailureStep(items: seq<Option<Item>>, i: nat)
    requires i < |items| && FirstFailure(items[..i]).None?
    ensures items[i].Some? && FromItem(items[i].value).Failed? ==> FirstFailure(items) == Some(i)
    ensures !(items[i].Some? && FromItem(items[i].value).Failed?) ==> FirstFailure(items[..i + 1]).None?
  {
    if i > 0 {
      assert items[..i][0] == items[0] && items[..i + 1][0] == items[0];
      assert items[..i][1..] == items[1..][..i - 1] && items[..i + 1][1..] == items[1..][..i];
      FailureStep(items[1..], i - 1);
    } else {
      assert items[..1][1..] == [];
    }
  }

  lemma {:induction false} InStepOne(items: seq<Option<Item>>, i: nat)
    requires i < |items|
    ensures In(items[..i + 1]) ==
            In(items[..i]) + OneIn(items[i])
    decreases i
  {
    if i > 0 {
      assert items[..i][0] == items[0] && items[..i + 1][0] == items[0];
      assert items[..i][1..] == items[1..][..i - 1] && items[..i + 1][1..] == items[1..][..i];
      InStepOne(items[1..], i - 1);
    } else {
      assert items[..1][1..] == [] && items[..0] == [];
    }
  }

  method FromResponseAPIInputItems(items: seq<Option<Item>>) returns (r: Result<seq<Msg>>)
    ensures r == if FirstFailure(items).Some? then Err(FirstFailure(items).value) else Ok(Merge(In(items)))
  {
    var msgs: seq<Msg> := [];
    for i := 0 to |items|
      invariant FirstFailure(items[..i]).None? && msgs == In(items[..i])
    {
      FailureStep(items, i);
      InStepOne(items, i);
      if items[i].Some? {
        match FromItem(items[i].value) {
          case Failed => return Err(i);
          case Converted(m) => msgs := msgs + [m];
          case Skipped =>
        }
      }
    }
    assert items[..|items|] == items;
    return Ok(Merge(msgs));
  }

  // --- Responses. ---

  /** The messages and the reasoning after one more item. */
  function OutOne(msgs: seq<Msg>, item: Option<Item>, held: string): (seq<Msg>, string) {
    if item.None? then (msgs, held)
    else if item.value.itemType == Reasoning then (msgs, Lines(held, CollectReasoningText(item.value)))
    else match FromItem(item.value)
      case Converted(m) =>
        if m.role == Assistant && held != "" then (msgs + [m.(reasoning := held)], "") else (msgs + [m], held)
      case Skipped => (msgs, held)
      case Failed => (msgs, held)
  }

  lemma OutStep(msgs: seq<Msg>, items: seq<Option<Item>>, i: nat, held: string)
    requires i < |items|
    ensures var (next, pending) := OutOne(msgs, items[i], held);
      msgs + Out(items[i..], held) == next + Out(items[i + 1..], pending)
  {
    assert items[i..][0] == items[i] && items[i..][1..] == items[i + 1..];
  }

  lemma OutEnds(msgs: seq<Msg>, items: seq<Option<Item>>, pending: string)
    ensures msgs + Out(items[|items|..], pending) == if pending != "" then msgs + [ReasoningMsg(pending)] else msgs
  {
    assert items[|items|..] == [];
  }

  method FromResponseAPIOutputItems(items: seq<Option<Item>>) returns (r: Result<seq<Msg>>)
    ensures r == if FirstFailure(items).Some? then Err(FirstFailure(items).value) else Ok(Merge(Out(items, "")))
  {
    var msgs: seq<Msg> := [];
    var pending := "";
    for i := 0 to |items|
      invariant FirstFailure(items[..i]).None? && msgs + Out(items[i..], pending) == Out(items, "")
    {
      FailureStep(items, i);
      OutStep(msgs, items, i, pending);
      if items[i].None? {
        continue;
      }
      var item := items[i].value;
      if item.itemType == Reasoning {
        ghost var held := pending;
        var text := CollectReasoningText(item);
        if text != "" {
          if pending != "" {
            pending := pending + "\n";
          }
          pending := pending + text;
        }
        assert pending == Lines(held, text);
        continue;
      }
      match FromItem(item) {
        case Failed => return Err(i);
        case Skipped =>
        case Converted(m) =>
          if m.role == Assistant && pending != "" {
            msgs, pending := msgs + [m.(reasoning := pending)], "";
          } else {
            msgs := msgs + [m];
          }
      }
    }
    assert items[..|items|] == items;
    OutEnds(msgs, items, pending);
    if pending != "" {
      msgs := msgs + [ReasoningMsg(pending)];
    }
    return Ok(Merge(msgs));
  }
}
