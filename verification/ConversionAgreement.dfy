/** When the request and the response conversion of the same items give the same conversation. */
module ConversionAgreement {
  import opened Wrappers
  import opened Messages
  import opened MergeLaws
  import opened ResponseItems

  /** Held-back reasoning always meets an assistant message without reasoning of its own, or the end:
      no other message comes in between. */
  predicate InStep(items: seq<Option<Item>>, held: bool)
    decreases items
  {
    if items == [] then true
    else if items[0].None? then InStep(items[1..], held)
    else if items[0].value.itemType == Reasoning then
      InStep(items[1..], held || CollectReasoningText(items[0].value) != "")
    else match FromItem(items[0].value)
      case Converted(m) =>
        (held ==> m.role == Assistant && m.reasoning == "") && InStep(items[1..], false)
      case Skipped => InStep(items[1..], held)
      case Failed => InStep(items[1..], held)
  }

  lemma ItemsArePlain(item: Item)
    requires FromItem(item).Converted?
    ensures Plain(FromItem(item).msg)
  {
  }

  lemma {:induction false} InIsPlain(items: seq<Option<Item>>)
    ensures AllPlain(In(items))
  {
    if items != [] {
      InIsPlain(items[1..]);
      if items[0].Some? && FromItem(items[0].value).Converted? {
        ItemsArePlain(items[0].value);
      }
    }
  }

  /** The collection in progress with the held-back reasoning added. */
  function With(q: Option<Msg>, held: string): Option<Msg> {
    if held == "" then q else Plus(q, ReasoningMsg(held))
  }

  lemma AlikeTransitive(p: Option<Msg>, q: Option<Msg>, r: Option<Msg>)
    requires Alike(p, q) && Alike(q, r)
    ensures Alike(p, r)
  {
  }

  lemma WithMore(q: Option<Msg>, held: string, text: string)
    requires PlainPending(q)
    ensures Alike(Plus(With(q, held), ReasoningMsg(text)), With(q, Lines(held, text))) && PlainPending(With(q, held))
  {
    if held != "" && q.Some? {
      MergedAssociates(q.value, ReasoningMsg(held), ReasoningMsg(text));
    }
  }

  /** Reasoning taken up just before an assistant message without any, or put into that message. */
  lemma WithMessage(q: Option<Msg>, held: string, m: Msg)
    requires PlainPending(q) && m.role == Assistant && Plain(m) && held != "" && m.reasoning == ""
    ensures Plus(With(q, held), m) == Plus(q, m.(reasoning := held))
  {
    assert Merged(ReasoningMsg(held), m) == m.(reasoning := held);
    if q.Some? {
      MergedAssociates(q.value, ReasoningMsg(held), m);
    }
  }

  function ReasoningOf(q: Option<Msg>): string {
    if q.None? then "" else q.value.reasoning
  }

  lemma LinesLength(a: string, b: string)
    ensures |Lines(a, b)| == if a == "" || b == "" then |a| + |b| else |a| + 1 + |b|
  {
  }

  ghost function FromIn(q: Option<Msg>, items: seq<Option<Item>>): seq<Msg> {
    Norm(MergeFrom(q, In(items)))
  }

  ghost function FromOut(q: Option<Msg>, items: seq<Option<Item>>, held: string): seq<Msg> {
    Norm(MergeFrom(q, Out(items, held)))
  }

  /** What both conversions do on one item. */
  lemma StepReasoning(qi: Option<Msg>, qo: Option<Msg>, items: seq<Option<Item>>, held: string)
    requires items != [] && items[0].Some? && items[0].value.itemType == Reasoning
    ensures var t := CollectReasoningText(items[0].value);
            && FromIn(qi, items) == FromIn(Plus(qi, ReasoningMsg(t)), items[1..])
            && FromOut(qo, items, held) == FromOut(qo, items[1..], Lines(held, t))
  {
    var t := CollectReasoningText(items[0].value);
    assert In(items) == [ReasoningMsg(t)] + In(items[1..]);
    assert In(items)[1..] == In(items[1..]);
  }

  lemma StepAssistant(qi: Option<Msg>, qo: Option<Msg>, items: seq<Option<Item>>, held: string)
    requires items != [] && items[0].Some? && items[0].value.itemType != Reasoning
    requires FromItem(items[0].value).Converted? && FromItem(items[0].value).msg.role == Assistant
    ensures var m := FromItem(items[0].value).msg;
            && FromIn(qi, items) == FromIn(Plus(qi, m), items[1..])
            && FromOut(qo, items, held)
            == FromOut(Plus(qo, if held != "" then m.(reasoning := held) else m), items[1..], "")
  {
    var m := FromItem(items[0].value).msg;
    var m' := if held != "" then m.(reasoning := held) else m;
    assert In(items)[1..] == In(items[1..]);
    assert Out(items, held) == [m'] + Out(items[1..], "");
    assert Out(items, held)[1..] == Out(items[1..], "");
  }

  lemma StepOther(qi: Option<Msg>, qo: Option<Msg>, items: seq<Option<Item>>, held: string)
    requires items != [] && items[0].Some? && items[0].value.itemType != Reasoning
    requires FromItem(items[0].value).Converted? && FromItem(items[0].value).msg.role != Assistant
    ensures var m := FromItem(items[0].value).msg;
            && FromIn(qi, items) == Norm(Flush(qi)) + [NormMsg(m)] + FromIn(None, items[1..])
            && FromOut(qo, items, held) == Norm(Flush(qo)) + [NormMsg(m)] + FromOut(None, items[1..], held)
  {
    var m := FromItem(items[0].value).msg;
    assert Out(items, held) == [m] + Out(items[1..], held);
    OtherThenRest(qi, m, In(items[1..]));
    OtherThenRest(qo, m, Out(items[1..], held));
    assert In(items) == [m] + In(items[1..]);
  }

  lemma OtherThenRest(q: Option<Msg>, m: Msg, rest: seq<Msg>)
    requires m.role != Assistant
    ensures Norm(MergeFrom(q, [m] + rest)) == Norm(Flush(q)) + [NormMsg(m)] + Norm(Merge(rest))
  {
    assert ([m] + rest)[1..] == rest;
    NormConcat(Flush(q) + [m], Merge(rest));
    NormConcat(Flush(q), [m]);
  }

  lemma StepNothing(qi: Option<Msg>, qo: Option<Msg>, items: seq<Option<Item>>, held: string)
    requires items != []
    requires items[0].None? || (items[0].value.itemType != Reasoning && !FromItem(items[0].value).Converted?)
    ensures FromIn(qi, items) == FromIn(qi, items[1..]) && FromOut(qo, items, held) == FromOut(qo, items[1..], held)
  {
    assert In(items) == In(items[1..]);
  }

  /** Once the response side has less reasoning in the message being collected, the results differ. */
  lemma {:induction false} ShortReasoningDiffers(
    qi: Option<Msg>, qo: Option<Msg>, items: seq<Option<Item>>, held: string
  )
    requires PlainPending(qi) && PlainPending(qo) && qi.Some?
    requires |ReasoningOf(qi)| > |Lines(ReasoningOf(qo), held)|
    ensures FromIn(qi, items) != FromOut(qo, items, held)
    decreases items
  {
    if items == [] {
      assert FromIn(qi, items)[0] == NormMsg(qi.value);
      assert MergeFrom(qo, Out(items, held)) == Flush(With(qo, held)) by {
        if held != "" { assert [ReasoningMsg(held)][1..] == []; }
      }
      assert ReasoningOf(With(qo, held)) == Lines(ReasoningOf(qo), held);
    } else if items[0].None? || (items[0].value.itemType != Reasoning && !FromItem(items[0].value).Converted?) {
      StepNothing(qi, qo, items, held);
      ShortReasoningDiffers(qi, qo, items[1..], held);
    } else if items[0].value.itemType == Reasoning {
      var t := CollectReasoningText(items[0].value);
      StepReasoning(qi, qo, items, held);
      LinesAssociate(ReasoningOf(qo), held, t);
      LinesLength(ReasoningOf(qi), t);
      LinesLength(Lines(ReasoningOf(qo), held), t);
      ShortReasoningDiffers(Plus(qi, ReasoningMsg(t)), qo, items[1..], Lines(held, t));
    } else {
      var m := FromItem(items[0].value).msg;
      ItemsArePlain(items[0].value);
      if m.role == Assistant {
        StepAssistant(qi, qo, items, held);
        LinesLength(ReasoningOf(qi), m.reasoning);
        LinesLength(ReasoningOf(qo), m.reasoning);
        ShortReasoningDiffers(Plus(qi, m), Plus(qo, if held != "" then m.(reasoning := held) else m), items[1..], "");
      } else {
        StepOther(qi, qo, items, held);
        MessageDiffers(qi, qo, held, m, FromIn(None, items[1..]), FromOut(None, items[1..], held));
      }
    }
  }

  /** Flushed in front of another message, more reasoning shows. */
  lemma MessageDiffers(qi: Option<Msg>, qo: Option<Msg>, held: string, m: Msg, x: seq<Msg>, y: seq<Msg>)
    requires PlainPending(qi) && PlainPending(qo) && qi.Some? && m.role != Assistant
    requires |ReasoningOf(qi)| > |ReasoningOf(qo)|
    ensures Norm(Flush(qi)) + [NormMsg(m)] + x != Norm(Flush(qo)) + [NormMsg(m)] + y
  {
    var a, b := Norm(Flush(qi)) + [NormMsg(m)] + x, Norm(Flush(qo)) + [NormMsg(m)] + y;
    assert a[0] == NormMsg(qi.value);
    assert b[0] == if Flush(qo) == [] then NormMsg(m) else NormMsg(qo.value);
  }

  lemma {:induction false} AgreeFrom(qi: Option<Msg>, qo: Option<Msg>, items: seq<Option<Item>>, held: string)
    requires PlainPending(qi) && PlainPending(qo) && Alike(qi, With(qo, held))
    ensures FromIn(qi, items) == FromOut(qo, items, held) <==> InStep(items, held != "")
    decreases items
  {
    if items == [] {
      assert MergeFrom(qo, Out(items, held)) == Flush(With(qo, held)) by {
        if held != "" { assert [ReasoningMsg(held)][1..] == []; }
      }
      FlushAlike(qi, With(qo, held));
    } else if items[0].None? || (items[0].value.itemType != Reasoning && !FromItem(items[0].value).Converted?) {
      StepNothing(qi, qo, items, held);
      AgreeFrom(qi, qo, items[1..], held);
    } else if items[0].value.itemType == Reasoning {
      var t := CollectReasoningText(items[0].value);
      StepReasoning(qi, qo, items, held);
      WithMore(qo, held, t);
      PlusAlike(qi, With(qo, held), ReasoningMsg(t));
      AlikeTransitive(Plus(qi, ReasoningMsg(t)), Plus(With(qo, held), ReasoningMsg(t)), With(qo, Lines(held, t)));
      AgreeFrom(Plus(qi, ReasoningMsg(t)), qo, items[1..], Lines(held, t));
    } else {
      ItemsArePlain(items[0].value);
      var m := FromItem(items[0].value).msg;
      if m.role == Assistant {
        AgreeAssistant(qi, qo, items, held);
      } else {
        AgreeOther(qi, qo, items, held);
      }
    }
  }

  lemma AgreeAssistant(qi: Option<Msg>, qo: Option<Msg>, items: seq<Option<Item>>, held: string)
    requires PlainPending(qi) && PlainPending(qo) && Alike(qi, With(qo, held))
    requires items != [] && items[0].Some? && items[0].value.itemType != Reasoning
    requires FromItem(items[0].value).Converted? && FromItem(items[0].value).msg.role == Assistant
    ensures FromIn(qi, items) == FromOut(qo, items, held) <==> InStep(items, held != "")
    decreases items, 0
  {
    ItemsArePlain(items[0].value);
    var m := FromItem(items[0].value).msg;
    var m' := if held != "" then m.(reasoning := held) else m;
    StepAssistant(qi, qo, items, held);
    WithMore(qo, held, "");
    PlusAlike(qi, With(qo, held), m);
    if held == "" || m.reasoning == "" {
      if held != "" {
        WithMessage(qo, held, m);
      }
      AgreeFrom(Plus(qi, m), Plus(qo, m'), items[1..], "");
    } else {
      assert qi.Some? && qi.value.reasoning == Lines(ReasoningOf(qo), held);
      LinesLength(qi.value.reasoning, m.reasoning);
      ShortReasoningDiffers(Plus(qi, m), Plus(qo, m'), items[1..], "");
    }
  }

  lemma AgreeOther(qi: Option<Msg>, qo: Option<Msg>, items: seq<Option<Item>>, held: string)
    requires PlainPending(qi) && PlainPending(qo) && Alike(qi, With(qo, held))
    requires items != [] && items[0].Some? && items[0].value.itemType != Reasoning
    requires FromItem(items[0].value).Converted? && FromItem(items[0].value).msg.role != Assistant
    ensures FromIn(qi, items) == FromOut(qo, items, held) <==> InStep(items, held != "")
    decreases items, 0
  {
    var m := FromItem(items[0].value).msg;
    StepOther(qi, qo, items, held);
    if held == "" {
      FlushAlike(qi, qo);
      AgreeFrom(None, None, items[1..], "");
      SameTail(Norm(Flush(qi)) + [NormMsg(m)], FromIn(None, items[1..]), FromOut(None, items[1..], held));
    } else {
      assert qi.Some? && qi.value.reasoning == Lines(ReasoningOf(qo), held);
      LinesLength(ReasoningOf(qo), held);
      MessageDiffers(qi, qo, held, m, FromIn(None, items[1..]), FromOut(None, items[1..], held));
    }
  }

  lemma SameTail(a: seq<Msg>, x: seq<Msg>, y: seq<Msg>)
    ensures a + x == a + y <==> x == y
  {
    assert (a + x)[|a|..] == x && (a + y)[|a|..] == y;
  }

  /** On items without a conversion error the two conversions give the same conversation, up to
      missing or empty content, exactly if reasoning never has to wait for, or give way to, anything. */
  lemma ConversionsAgreeIff(items: seq<Option<Item>>)
    ensures Norm(Merge(In(items))) == Norm(Merge(Out(items, ""))) <==> InStep(items, false)
  {
    AgreeFrom(None, None, items, "");
  }

  predicate PlainAssistantItem(item: Item) {
    item.itemType == Reasoning || !FromItem(item).Converted? ||
    (FromItem(item).msg.role == Assistant && FromItem(item).msg.reasoning == "")
  }

  /** Reasoning, tool calls and assistant messages without reasoning of their own always agree. */
  lemma {:induction false} AssistantItemsAgree(items: seq<Option<Item>>, held: bool)
    requires forall i :: 0 <= i < |items| ==> items[i].None? || PlainAssistantItem(items[i].value)
    ensures InStep(items, held)
    decreases items
  {
    if items != [] {
      forall h: bool ensures InStep(items[1..], h) {
        AssistantItemsAgree(items[1..], h);
      }
    }
  }
}
