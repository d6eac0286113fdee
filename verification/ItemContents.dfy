/** What of the items comes through the two conversions, in terms of the items alone. */
module ItemContents {
  import opened Wrappers
  import Text
  import opened Messages
  import opened MergeLaws
  import opened ResponseItems

  // --- One item and its message. ---

  predicate IsCall(item: Item) {
    item.itemType == FunctionCall || item.itemType == CustomToolCall
  }

  predicate IsOutput(item: Item) {
    item.itemType == FunctionCallOutput || item.itemType == CustomToolCallOutput
  }

  predicate HasRole(name: string, role: Role) {
    match role
    case Assistant => name == "assistant"
    case System => name == "system"
    case Developer => name == "developer"
    case Tool => name == "tool"
    case User => name == "user" || name == ""
    case Custom(n) => n == name && name !in {"assistant", "system", "developer", "tool", "user", ""}
  }

  predicate IsShown(p: Option<ItemPart>) {
    p.Some? && (p.value.InputText? || p.value.OutputText? || p.value.InputImage? || p.value.InputFile?)
  }

  /** The texts, images and files, in order. */
  function Shown(parts: seq<Option<ItemPart>>): seq<ItemPart> {
    if parts == [] then [] else (if IsShown(parts[0]) then [parts[0].value] else []) + Shown(parts[1..])
  }

  predicate Shows(p: ItemPart, q: Part) {
    match p
    case InputText(t) => q == TextPart(t)
    case OutputText(t) => q == TextPart(t)
    case InputImage(url, detail) => q == ImagePart(url, detail)
    case InputFile(data, id, filename) => q == FilePart(data, id, filename)
    case _ => false
  }

  predicate ShowAll(ps: seq<ItemPart>, qs: seq<Part>) {
    |qs| == |ps| && forall i :: 0 <= i < |ps| ==> Shows(ps[i], qs[i])
  }

  /** The blocks of reasoning, in order. */
  function Blocks(parts: seq<Option<ItemPart>>): seq<string> {
    if parts == [] then []
    else if parts[0].Some? && (parts[0].value.SummaryText? || parts[0].value.ReasoningText?)
    then [parts[0].value.text] + Blocks(parts[1..])
    else Blocks(parts[1..])
  }

  /** Without the empty ones in front. */
  function FromFirst(texts: seq<string>): seq<string> {
    if texts != [] && texts[0] == "" then FromFirst(texts[1..]) else texts
  }

  predicate IsUnsupported(item: Item) {
    item.itemType == Message && item.content.Some? && Some(Unsupported) in item.content.value.parts
  }

  predicate ShowsContent(c: Option<ItemContent>, m: Msg) {
    match c
    case None => m.content == None && m.reasoning == ""
    case Some(ItemContent(text, parts)) =>
      if parts == [] then m.content == Some(Content(text, [])) && m.reasoning == ""
      else
        && (if Shown(parts) == [] then m.content == None
            else m.content.Some? && m.content.value.text == "" && ShowAll(Shown(parts), m.content.value.parts))
        && m.reasoning == Text.Join(FromFirst(Blocks(parts)), "\n")
  }

  predicate IsText(p: Option<ItemPart>) {
    p.Some? && (p.value.InputText? || p.value.OutputText?)
  }

  /** The texts of an output, in order. */
  function Texts(parts: seq<Option<ItemPart>>): seq<ItemPart> {
    if parts == [] then [] else (if IsText(parts[0]) then [parts[0].value] else []) + Texts(parts[1..])
  }

  predicate ShowsOutput(o: Output, content: Option<Content>) {
    match o
    case NoOutput => content == None
    case PlainOutput(text) => content == if text == "" then None else Some(Content(text, []))
    case FunctionOutput(text, parts) =>
      if Texts(parts) == [] then content == Some(Content(text, []))
      else content.Some? && content.value.text == "" && ShowAll(Texts(parts), content.value.parts)
  }

  /** The tool call of a call item: its call id, its name, and its arguments or else its input. */
  predicate IsCallOf(item: Item, call: ToolCall) {
    && call.id == item.callID && call.name == item.name
    && call.arguments == if item.arguments != "" then item.arguments else item.input
  }

  /** m is the message of the item. */
  predicate IsMessageOf(item: Item, m: Msg) {
    && m.refusal == "" && (m.toolCallID == if IsOutput(item) then item.callID else "")
    && (if IsCall(item) then |m.toolCalls| == 1 && IsCallOf(item, m.toolCalls[0]) else m.toolCalls == [])
    && match item.itemType
       case Message => HasRole(item.role, m.role) && ShowsContent(item.content, m)
       case FunctionCall => m.role == Assistant && m.content == None && m.reasoning == ""
       case CustomToolCall => m.role == Assistant && m.content == None && m.reasoning == ""
       case FunctionCallOutput => m.role == Tool && ShowsOutput(item.output, m.content) && m.reasoning == ""
       case CustomToolCallOutput => m.role == Tool && ShowsOutput(item.output, m.content) && m.reasoning == ""
       case Reasoning => m.role == Assistant && m.content == None && m.reasoning == Text.Join(Texted(item), "\n")
       case Other => false
  }

  function Filled(texts: seq<string>): seq<string> {
    if texts == [] then [] else if texts[0] == "" then Filled(texts[1..]) else [texts[0]] + Filled(texts[1..])
  }

  /** The summaries and then the texts of a reasoning item, but for empty ones. */
  function Texted(item: Item): seq<string> {
    Filled(item.summary) + Filled(item.reasoning)
  }

  lemma {:induction false} JoinLinesIsJoin(texts: seq<string>)
    ensures JoinLines(texts) == Text.Join(texts, "\n")
  {
    if |texts| > 1 {
      JoinLinesIsJoin(texts[1..]);
    }
  }

  lemma {:induction false} NonEmptyIsFilled(texts: seq<string>)
    ensures NonEmpty(texts) == Filled(texts)
  {
    if texts != [] {
      NonEmptyIsFilled(texts[1..]);
    }
  }

  lemma ReasoningShows(item: Item)
    ensures CollectReasoningText(item) == Text.Join(Texted(item), "\n")
  {
    NonEmptyIsFilled(item.summary);
    NonEmptyIsFilled(item.reasoning);
    JoinLinesIsJoin(Texted(item));
  }

  function AppendAll(a: string, blocks: seq<string>): string
    decreases blocks
  {
    if blocks == [] then a else AppendAll(ResponseItems.Append(a, blocks[0]), blocks[1..])
  }

  lemma {:induction false} AppendIsJoin(a: string, blocks: seq<string>)
    ensures a != "" ==> AppendAll(a, blocks) == Text.Join([a] + blocks, "\n")
    ensures AppendAll("", blocks) == Text.Join(FromFirst(blocks), "\n")
    decreases |blocks|
  {
    if blocks != [] {
      var b, rest := blocks[0], blocks[1..];
      AppendIsJoin(a + "\n" + b, rest);
      AppendIsJoin(b, rest);
      assert blocks == [b] + rest;
      JoinOneMore(a, blocks);
      JoinHead(a, b, rest);
    }
  }

  lemma JoinHead(a: string, b: string, rest: seq<string>)
    ensures Text.Join([a + "\n" + b] + rest, "\n") == a + "\n" + Text.Join([b] + rest, "\n")
  {
    JoinOneMore(a + "\n" + b, rest);
    JoinOneMore(b, rest);
  }

  /** What is gathered from one part. */
  function Taken(g: Gathered, p: Option<ItemPart>): Gathered {
    match p
    case Some(InputText(t)) => g.(parts := g.parts + [TextPart(t)])
    case Some(OutputText(t)) => g.(parts := g.parts + [TextPart(t)])
    case Some(Refusal(t)) => g.(refusal := ResponseItems.Append(g.refusal, t))
    case Some(InputImage(u, d)) => g.(parts := g.parts + [ImagePart(u, d)])
    case Some(InputFile(d, i, n)) => g.(parts := g.parts + [FilePart(d, i, n)])
    case Some(SummaryText(t)) => g.(reasoning := ResponseItems.Append(g.reasoning, t))
    case Some(ReasoningText(t)) => g.(reasoning := ResponseItems.Append(g.reasoning, t))
    case _ => g
  }

  lemma TakenShows(g: Gathered, p: Option<ItemPart>)
    ensures g.parts <= Taken(g, p).parts
    ensures ShowAll(if IsShown(p) then [p.value] else [], Taken(g, p).parts[|g.parts|..])
    ensures Taken(g, p).reasoning == AppendAll(g.reasoning, Blocks([p]))
  {
    assert [p][1..] == [];
  }

  lemma ShowMore(a: seq<ItemPart>, b: seq<ItemPart>, x: seq<Part>, y: seq<Part>, z: seq<Part>)
    requires x <= y <= z && ShowAll(a, y[|x|..]) && ShowAll(b, z[|y|..])
    ensures x <= z && ShowAll(a + b, z[|x|..])
  {
    assert z[|x|..] == y[|x|..] + z[|y|..];
  }

  lemma {:induction false} GatherShows(g: Gathered, parts: seq<Option<ItemPart>>)
    ensures Gather(g, parts).None? <==> Some(Unsupported) in parts
    ensures Gather(g, parts).Some? ==>
      var r := Gather(g, parts).value;
      && g.parts <= r.parts && ShowAll(Shown(parts), r.parts[|g.parts|..])
      && r.reasoning == AppendAll(g.reasoning, Blocks(parts))
    decreases parts
  {
    if parts != [] && parts[0] != Some(Unsupported) {
      var t := Taken(g, parts[0]);
      GatherShows(t, parts[1..]);
      TakenShows(g, parts[0]);
      if Gather(g, parts).Some? {
        var all := Gather(g, parts).value.parts;
        ShowMore(if IsShown(parts[0]) then [parts[0].value] else [], Shown(parts[1..]), g.parts, t.parts, all);
      }
    }
  }

  lemma {:induction false} TextsShow(parts: seq<Option<ItemPart>>)
    ensures ShowAll(Texts(parts), TextParts(parts))
  {
    if parts != [] {
      TextsShow(parts[1..]);
    }
  }

  lemma RoleShows(name: string)
    ensures HasRole(name, ResolveRole(name))
    ensures ResolveRole(name) == Assistant <==> name == "assistant"
  {
  }

  lemma MessageShows(item: Item)
    requires item.itemType == Message
    ensures FromMessage(item).None? <==> IsUnsupported(item)
    ensures FromMessage(item).Some? ==> IsMessageOf(item, FromMessage(item).value)
  {
    RoleShows(item.role);
    if item.content.Some? && item.content.value.parts != [] {
      var parts := item.content.value.parts;
      GatherShows(Gathered([], "", ""), parts);
      AppendIsJoin("", Blocks(parts));
      if Gather(Gathered([], "", ""), parts).Some? {
        var r := Gather(Gathered([], "", ""), parts).value;
        assert r.parts[0..] == r.parts;
      }
    }
  }

  /** The conversion of one item: an error for a part that is not supported, nothing for an item of
      another kind, and else the message of the item. */
  lemma ItemShows(item: Item)
    ensures FromItem(item).Failed? <==> IsUnsupported(item)
    ensures FromItem(item).Skipped? <==> item.itemType == Other
    ensures FromItem(item).Converted? ==> IsMessageOf(item, FromItem(item).msg)
  {
    match item.itemType {
      case Message => MessageShows(item);
      case Reasoning => ReasoningShows(item);
      case FunctionCallOutput => OutputShows(item);
      case CustomToolCallOutput => OutputShows(item);
      case _ =>
    }
  }

  lemma OutputShows(item: Item)
    requires IsOutput(item)
    ensures IsMessageOf(item, FromFunctionCallOutput(item))
  {
    match item.output {
      case FunctionOutput(_, parts) => TextsShow(parts);
      case _ =>
    }
  }

  // --- All items. ---

  predicate IsSpoken(item: Option<Item>) {
    item.Some? && item.value.itemType != Other && !IsUnsupported(item.value)
  }

  /** The items that have a message. */
  function OneSpoken(item: Option<Item>): seq<Item> {
    if IsSpoken(item) then [item.value] else []
  }

  function Spoken(items: seq<Option<Item>>): seq<Item> {
    if items == [] then [] else OneSpoken(items[0]) + Spoken(items[1..])
  }

  ghost predicate AreMessagesOf(items: seq<Item>, msgs: seq<Msg>) {
    |msgs| == |items| && forall i :: 0 <= i < |items| ==> IsMessageOf(items[i], msgs[i])
  }

  /** A request has, before merging, the messages of its items in order. */
  lemma {:induction false} InShows(items: seq<Option<Item>>)
    ensures AreMessagesOf(Spoken(items), In(items))
  {
    if items != [] {
      InShows(items[1..]);
      SpokenOne(items[0]);
      MoreMessages(OneSpoken(items[0]), Spoken(items[1..]), OneIn(items[0]), In(items[1..]));
    }
  }

  lemma SpokenOne(item: Option<Item>)
    ensures AreMessagesOf(OneSpoken(item), OneIn(item))
  {
    if item.Some? {
      ItemShows(item.value);
    }
  }

  lemma MoreMessages(a: seq<Item>, b: seq<Item>, x: seq<Msg>, y: seq<Msg>)
    requires AreMessagesOf(a, x) && AreMessagesOf(b, y)
    ensures AreMessagesOf(a + b, x + y)
  {
  }

  lemma MoreCalls(a: seq<Item>, b: seq<Item>, x: seq<ToolCall>, y: seq<ToolCall>)
    requires AreCallsOf(a, x) && AreCallsOf(b, y)
    ensures AreCallsOf(a + b, x + y)
  {
  }

  /** The tool calls of all call items, in order. */
  ghost predicate AreCallsOf(items: seq<Item>, calls: seq<ToolCall>) {
    |calls| == |items| && forall i :: 0 <= i < |items| ==> IsCallOf(items[i], calls[i])
  }

  function OneCall(item: Option<Item>): seq<Item> {
    if item.Some? && IsCall(item.value) then [item.value] else []
  }

  function Calls(items: seq<Option<Item>>): seq<Item> {
    if items == [] then [] else OneCall(items[0]) + Calls(items[1..])
  }

  lemma {:induction false} CallsOfIn(items: seq<Option<Item>>)
    ensures AreCallsOf(Calls(items), ToolCalls(In(items)))
  {
    if items != [] {
      CallsOfIn(items[1..]);
      OthersConcat(OneIn(items[0]), In(items[1..]));
      CallsOfOne(items[0]);
      MoreCalls(OneCall(items[0]), Calls(items[1..]), ToolCalls(OneIn(items[0])), ToolCalls(In(items[1..])));
    }
  }

  lemma CallsOfOne(item: Option<Item>)
    ensures AreCallsOf(OneCall(item), ToolCalls(OneIn(item)))
  {
    if item.Some? {
      ItemShows(item.value);
      if FromItem(item.value).Converted? {
        var m := FromItem(item.value).msg;
        assert [m][1..] == [] && ToolCalls([m]) == m.toolCalls + ToolCalls([]);
      }
    }
  }

  lemma {:induction false} CallsOfOut(items: seq<Option<Item>>, held: string)
    ensures AreCallsOf(Calls(items), ToolCalls(Out(items, held)))
    decreases items
  {
    if items == [] {
      assert ToolCalls([ReasoningMsg(held)]) == [];
    } else {
      CallsOfOne(items[0]);
      var next := OutOne([], items[0], held);
      CallsOfOut(items[1..], next.1);
      OutStarts(items, held);
      OthersConcat(next.0, Out(items[1..], next.1));
      SameCalls(items[0], held);
      MoreCalls(OneCall(items[0]), Calls(items[1..]), ToolCalls(OneIn(items[0])), ToolCalls(Out(items[1..], next.1)));
    }
  }

  /** Held-back reasoning changes no tool calls. */
  lemma SameCalls(item: Option<Item>, held: string)
    ensures ToolCalls(OutOne([], item, held).0) == ToolCalls(OneIn(item))
  {
    if item.Some? && item.value.itemType == Reasoning {
      assert ToolCalls(OneIn(item)) == [];
    }
  }

  // --- The messages of other roles. ---

  /** Outputs, and messages whose role is not the assistant's. */
  predicate IsAside(item: Option<Item>) {
    IsSpoken(item) && (IsOutput(item.value) || (item.value.itemType == Message && item.value.role != "assistant"))
  }

  function OneAside(item: Option<Item>): seq<Item> {
    if IsAside(item) then [item.value] else []
  }

  function Asides(items: seq<Option<Item>>): seq<Item> {
    if items == [] then [] else OneAside(items[0]) + Asides(items[1..])
  }

  lemma AsideOfOne(item: Option<Item>, held: string)
    ensures AreMessagesOf(OneAside(item), Others(OneIn(item)))
    ensures Others(OutOne([], item, held).0) == Others(OneIn(item))
  {
    if item.Some? {
      ItemShows(item.value);
      RoleShows(item.value.role);
      if FromItem(item.value).Converted? {
        OthersOfOne(FromItem(item.value).msg);
        OthersOfOne(FromItem(item.value).msg.(reasoning := held));
      }
    }
  }

  lemma OthersOfOne(m: Msg)
    ensures Others([m]) == if m.role == Assistant then [] else [m]
  {
    assert [m][1..] == [];
  }

  lemma {:induction false} AsidesOfIn(items: seq<Option<Item>>)
    ensures AreMessagesOf(Asides(items), Others(In(items)))
  {
    if items != [] {
      AsidesOfIn(items[1..]);
      OthersConcat(OneIn(items[0]), In(items[1..]));
      AsideOfOne(items[0], "");
      MoreMessages(OneAside(items[0]), Asides(items[1..]), Others(OneIn(items[0])), Others(In(items[1..])));
    }
  }

  lemma {:induction false} AsidesOfOut(items: seq<Option<Item>>, held: string)
    ensures AreMessagesOf(Asides(items), Others(Out(items, held)))
    decreases items
  {
    if items == [] {
      OthersOfOne(ReasoningMsg(held));
    } else {
      var next := OutOne([], items[0], held);
      AsideOfOne(items[0], held);
      AsidesOfOut(items[1..], next.1);
      OutStarts(items, held);
      OthersConcat(next.0, Out(items[1..], next.1));
      MoreMessages(OneAside(items[0]), Asides(items[1..]), Others(OneIn(items[0])), Others(Out(items[1..], next.1)));
    }
  }

  // --- Contents and reasoning. ---

  lemma {:induction false} ContentsOfOut(items: seq<Option<Item>>, held: string)
    ensures Contents(Out(items, held)) == Contents(In(items))
    decreases items
  {
    if items == [] {
      ContentsOfOne(ReasoningMsg(held));
    } else {
      var next := OutOne([], items[0], held);
      SameContents(items[0], held);
      ContentsOfOut(items[1..], next.1);
      OutStarts(items, held);
      ContentsConcat(next.0, Out(items[1..], next.1));
      ContentsConcat(OneIn(items[0]), In(items[1..]));
    }
  }

  lemma ContentsOfOne(m: Msg)
    ensures Contents([m]) == ContentOf(m)
  {
    assert [m][1..] == [];
  }

  lemma SameContents(item: Option<Item>, held: string)
    ensures Contents(OutOne([], item, held).0) == Contents(OneIn(item))
  {
    if item.Some? && FromItem(item.value).Converted? {
      ContentsOfOne(FromItem(item.value).msg);
      ContentsOfOne(FromItem(item.value).msg.(reasoning := held));
    }
  }

  /** What an item has as reasoning of the assistant. */
  function ThoughtOf(item: Item): string {
    if item.itemType == Reasoning then Text.Join(Texted(item), "\n")
    else if item.itemType == Message && item.role == "assistant" && item.content.Some?
    then Text.Join(FromFirst(Blocks(item.content.value.parts)), "\n")
    else ""
  }

  function OneThought(item: Option<Item>): seq<string> {
    if IsSpoken(item) && ThoughtOf(item.value) != "" then [ThoughtOf(item.value)] else []
  }

  function InThoughts(items: seq<Option<Item>>): (thoughts: seq<string>)
    ensures forall t :: t in thoughts ==> t != ""
  {
    if items == [] then [] else OneThought(items[0]) + InThoughts(items[1..])
  }

  /** The item is a call or an assistant's message. */
  predicate IsAssistants(item: Option<Item>) {
    IsSpoken(item) && (IsCall(item.value) || (item.value.itemType == Message && item.value.role == "assistant"))
  }

  /** Reasoning items hold reasoning for the next of these, and one with reasoning of its own then loses it. */
  function OutThoughts(items: seq<Option<Item>>, held: bool): (thoughts: seq<string>)
    ensures forall t :: t in thoughts ==> t != ""
    decreases items
  {
    if items == [] then []
    else if IsAssistants(items[0]) then
      (if held then [] else OneThought(items[0])) + OutThoughts(items[1..], false)
    else OneThought(items[0]) + OutThoughts(items[1..], held || OneThought(items[0]) != [])
  }

  lemma ThoughtShows(item: Item)
    requires IsSpoken(Some(item))
    ensures FromItem(item).Converted?
    ensures FromItem(item).msg.role == Assistant ==> FromItem(item).msg.reasoning == ThoughtOf(item)
    ensures FromItem(item).msg.role != Assistant ==> ThoughtOf(item) == ""
    ensures FromItem(item).msg.role == Assistant <==> item.itemType == Reasoning || IsAssistants(Some(item))
  {
    ItemShows(item);
    RoleShows(item.role);
  }

  lemma ReasoningOfOne(m: Msg, rest: seq<Msg>)
    ensures MergeLaws.Reasoning([m] + rest)
         == Lines(if m.role == Assistant then m.reasoning else "", MergeLaws.Reasoning(rest))
  {
    assert ([m] + rest)[1..] == rest;
  }

  lemma JoinOfOne(item: Option<Item>, more: seq<string>)
    requires forall t :: t in more ==> t != ""
    ensures Text.Join(OneThought(item) + more, "\n")
         == Lines(if IsSpoken(item) then ThoughtOf(item.value) else "", Text.Join(more, "\n"))
  {
    assert [] + more == more;
    JoinHasText(more);
    if OneThought(item) != [] {
      JoinOneMore(ThoughtOf(item.value), more);
    }
  }

  lemma {:induction false} ReasoningOfIn(items: seq<Option<Item>>)
    ensures MergeLaws.Reasoning(In(items)) == Text.Join(InThoughts(items), "\n")
  {
    if items != [] {
      ReasoningOfIn(items[1..]);
      JoinOfOne(items[0], InThoughts(items[1..]));
      if IsSpoken(items[0]) {
        ThoughtShows(items[0].value);
        ReasoningOfOne(FromItem(items[0].value).msg, In(items[1..]));
      } else {
        SilentIsNothing(items[0], "");
        assert [] + In(items[1..]) == In(items[1..]);
      }
    }
  }

  lemma SilentIsNothing(item: Option<Item>, held: string)
    requires !IsSpoken(item)
    ensures OneIn(item) == [] && OutOne([], item, held) == ([], held)
  {
    if item.Some? {
      ItemShows(item.value);
    }
  }

  lemma OutStarts(items: seq<Option<Item>>, held: string)
    requires items != []
    ensures var (now, next) := OutOne([], items[0], held); Out(items, held) == now + Out(items[1..], next)
  {
    OutStep([], items, 0, held);
    assert items[0..] == items && [] + Out(items, held) == Out(items, held);
  }

  lemma {:induction false} ReasoningOfOut(items: seq<Option<Item>>, held: string)
    ensures MergeLaws.Reasoning(Out(items, held)) == Lines(held, Text.Join(OutThoughts(items, held != ""), "\n"))
    decreases items
  {
    if items == [] {
      ReasoningOfOne(ReasoningMsg(held), []);
      assert [ReasoningMsg(held)] + [] == [ReasoningMsg(held)];
    } else {
      var (now, next) := OutOne([], items[0], held);
      OutStarts(items, held);
      ReasoningOfOut(items[1..], next);
      HeldBehind(items[0], held);
      ReasoningOfStep(items[0], held, OutThoughts(items[1..], next != ""), Out(items[1..], next));
    }
  }

  lemma ReasoningOfStep(item: Option<Item>, held: string, more: seq<string>, rest: seq<Msg>)
    requires MergeLaws.Reasoning(rest) == Lines(OutOne([], item, held).1, Text.Join(more, "\n"))
    requires forall t :: t in more ==> t != ""
    ensures MergeLaws.Reasoning(OutOne([], item, held).0 + rest)
         == Lines(held, Text.Join((if IsAssistants(item) && held != "" then [] else OneThought(item)) + more, "\n"))
  {
    JoinOfOne(item, more);
    assert [] + more == more && [] + rest == rest;
    if !IsSpoken(item) {
      SilentIsNothing(item, held);
    } else {
      SpokenStep(item.value, held, more, rest);
    }
  }

  lemma SpokenStep(item: Item, held: string, more: seq<string>, rest: seq<Msg>)
    requires IsSpoken(Some(item))
    requires MergeLaws.Reasoning(rest) == Lines(OutOne([], Some(item), held).1, Text.Join(more, "\n"))
    ensures MergeLaws.Reasoning(OutOne([], Some(item), held).0 + rest)
         == Lines(held, if IsAssistants(Some(item)) && held != "" then Text.Join(more, "\n")
                        else Lines(ThoughtOf(item), Text.Join(more, "\n")))
  {
    var t, j := ThoughtOf(item), Text.Join(more, "\n");
    ThoughtShows(item);
    var m := FromItem(item).msg;
    assert [] + rest == rest;
    if item.itemType == Reasoning {
      LinesAssociate(held, t, j);
    } else if m.role == Assistant && held != "" {
      ReasoningOfOne(m.(reasoning := held), rest);
    } else {
      ReasoningOfOne(m, rest);
    }
  }

  lemma HeldBehind(item: Option<Item>, held: string)
    ensures OutOne([], item, held).1 != "" <==> !IsAssistants(item) && (held != "" || OneThought(item) != [])
  {
    if IsSpoken(item) {
      ThoughtShows(item.value);
    } else {
      SilentIsNothing(item, held);
    }
  }

  // --- The two results. ---

  /** The first item with a part that is not supported, if there is one. */
  ghost predicate IsFirstUnsupported(items: seq<Option<Item>>, first: Option<nat>) {
    match first
    case None => forall i :: 0 <= i < |items| && items[i].Some? ==> !IsUnsupported(items[i].value)
    case Some(n) =>
      && n < |items| && items[n].Some? && IsUnsupported(items[n].value)
      && forall i :: 0 <= i < n && items[i].Some? ==> !IsUnsupported(items[i].value)
  }

  lemma {:induction false} FailureShows(items: seq<Option<Item>>)
    ensures IsFirstUnsupported(items, FirstFailure(items))
  {
    if items != [] {
      FailureShows(items[1..]);
      if items[0].Some? {
        ItemShows(items[0].value);
      }
      assert forall i :: 1 <= i < |items| ==> items[i] == items[1..][i - 1];
    }
  }

  /** What comes through: all tool calls, the messages that are not the assistant's, and the contents of
      those that are. */
  ghost predicate ComesThrough(items: seq<Option<Item>>, msgs: seq<Msg>) {
    AreCallsOf(Calls(items), ToolCalls(msgs)) && AreMessagesOf(Asides(items), Others(msgs))
  }

  /** The conversion of a request. */
  lemma RequestShows(items: seq<Option<Item>>)
    ensures IsFirstUnsupported(items, FirstFailure(items))
    ensures AreMessagesOf(Spoken(items), In(items)) && ComesThrough(items, Merge(In(items)))
    ensures Text.Join(Thoughts(Merge(In(items))), "\n") == Text.Join(InThoughts(items), "\n")
  {
    FailureShows(items);
    InShows(items);
    CallsOfIn(items);
    AsidesOfIn(items);
    MergeConserves(In(items));
    MergeKeepsReasoning(In(items));
    ReasoningOfIn(items);
    ReasoningIsJoined(In(items));
  }

  /** The conversion of a response. */
  lemma ResponseShows(items: seq<Option<Item>>)
    ensures Contents(Out(items, "")) == Contents(In(items)) && ComesThrough(items, Merge(Out(items, "")))
    ensures Text.Join(Thoughts(Merge(Out(items, ""))), "\n") == Text.Join(OutThoughts(items, false), "\n")
  {
    CallsOfOut(items, "");
    AsidesOfOut(items, "");
    ContentsOfOut(items, "");
    MergeConserves(Out(items, ""));
    MergeKeepsReasoning(Out(items, ""));
    ReasoningOfOut(items, "");
    ReasoningIsJoined(Out(items, ""));
  }

  lemma {:induction false} CallIsThere(items: seq<Option<Item>>, i: nat)
    requires i < |items| && items[i].Some?
    ensures IsCall(items[i].value) ==> items[i].value in Calls(items)
    ensures IsOutput(items[i].value) ==> items[i].value in Asides(items)
  {
    if i > 0 {
      CallIsThere(items[1..], i - 1);
    }
  }

  predicate Meet(call: ToolCall, m: Msg, id: string) {
    m.role == Tool && call.id == id && m.toolCallID == id
  }

  /** A call and an output with one call id meet in one id. */
  lemma CallMeetsOutput(items: seq<Option<Item>>, i: nat, j: nat, msgs: seq<Msg>)
    requires i < |items| && j < |items| && items[i].Some? && items[j].Some? && ComesThrough(items, msgs)
    requires IsCall(items[i].value) && IsOutput(items[j].value) && items[i].value.callID == items[j].value.callID
    ensures exists call, m :: call in ToolCalls(msgs) && m in Others(msgs) && Meet(call, m, items[i].value.callID)
  {
    CallIsThere(items, i);
    CallIsThere(items, j);
    var k :| 0 <= k < |Calls(items)| && Calls(items)[k] == items[i].value;
    var n :| 0 <= n < |Asides(items)| && Asides(items)[n] == items[j].value;
    assert IsCallOf(items[i].value, ToolCalls(msgs)[k]) && IsMessageOf(items[j].value, Others(msgs)[n]);
    assert Meet(ToolCalls(msgs)[k], Others(msgs)[n], items[i].value.callID);
  }
}
