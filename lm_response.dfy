/** A reply from the language model, split into thinking and text parts
    (core/src/nlp/response.rs). The splitter and the parts iterator there are
    the same code as in core/src/event_processor.rs and share their model. */
module LanguageModelResponse {
  import opened Wrappers
  import opened Strings
  import opened MessageParts

  datatype LmResponse = LmResponse(parts: seq<MessagePart>)

  /** `Display`: every part as the model wrote it, one per line. */
  function ToString(r: LmResponse): string {
    Display(r.parts)
  }

  /** `LmResponse::render_without_thinking_parts`: the display of the text
      parts alone. */
  function RenderWithoutThinkingParts(r: LmResponse): (s: string)
    ensures s == ToString(LmResponse(TextOnly(r.parts)))
  {
    RenderWithoutThinking(r.parts)
  }

  /** `LmResponse::raw`: one text part, rendered as the string itself either way. */
  function Raw(s: string): (r: LmResponse)
    ensures r.parts == [Text(s)]
    ensures ToString(r) == s && RenderWithoutThinkingParts(r) == s
  {
    var r := LmResponse([Text(s)]);
    RenderWithoutThinkingNoThinking(r.parts);
    r
  }

  /** Reading a model's output with `<think>` tags and collecting the parts
      (`FromIterator`): `None` when the iterator panics on the output;
      otherwise the parts in the order the iterator yields them, which put
      back together give the output. */
  method FromModelOutput(output: string) returns (r: Option<LmResponse>)
    ensures r.None? <==> PartsAsWritten(output, THINK_START, THINK_END).None?
    ensures r.Some? ==> r.value.parts == Parts(output, THINK_START, THINK_END)
    ensures r.Some? ==> Concat(r.value.parts, THINK_START, THINK_END) == output
    ensures r.Some? ==> forall i :: 0 <= i < |r.value.parts| && r.value.parts[i].Text? ==> r.value.parts[i].content != []
  {
    var parts := CollectParts(output, THINK_START, THINK_END);
    PartsReassemble(output, THINK_START, THINK_END);
    match parts
    case None => r := None;
    case Some(ps) => r := Some(LmResponse(ps));
  }

  /** Text, thinking, text: the rendering without thinking keeps the two texts
      on two lines, and the display puts the tagged thinking on a line between them. */
  lemma RenderAroundThinking(a: string, t: string, b: string)
    ensures RenderWithoutThinkingParts(LmResponse([Text(a), Thinking(t), Text(b)])) == a + "\n" + b
    ensures ToString(LmResponse([Text(a), Thinking(t), Text(b)]))
            == a + "\n" + THINK_START + t + THINK_END + "\n" + b
  {
    var ps := [Text(a), Thinking(t), Text(b)];
    assert RenderWithoutThinking(ps) == a + "\n" + b by {
      assert TextOnly(ps) == [Text(a), Text(b)] by {
        assert ps[1..] == [Thinking(t), Text(b)];
        assert ps[2..] == [Text(b)];
        assert TextOnly(ps[2..]) == [Text(b)];
      }
      DisplayAppend([Text(a)], [Text(b)]);
      assert [Text(a)] + [Text(b)] == [Text(a), Text(b)];
    }
    assert Display(ps) == a + "\n" + THINK_START + t + THINK_END + "\n" + b by {
      DisplayAppend([Text(a)], [Thinking(t), Text(b)]);
      DisplayAppend([Thinking(t)], [Text(b)]);
      assert [Thinking(t)] + [Text(b)] == [Thinking(t), Text(b)];
      assert [Text(a)] + [Thinking(t), Text(b)] == ps;
    }
  }

  /** The `bot_message_render_without_thinking_parts` test. */
  lemma RenderExample()
    ensures RenderWithoutThinkingParts(LmResponse([Text("This is a test"), Thinking("thinking part"),
                                                    Text("and another part")]))
            == "This is a test" + "\n" + "and another part"
  {
    RenderAroundThinking("This is a test", "thinking part", "and another part");
  }

  /** A model output of tag-free text around one thinking section becomes
      exactly those three parts. */
  lemma OutputWithOneSection(pre: string, t: string, post: string)
    requires TagFree(pre) && TagFree(t) && TagFree(post)
    requires pre != [] && post != []
    ensures Parts(pre + THINK_START + t + THINK_END + post, THINK_START, THINK_END)
            == [Text(pre), Thinking(t), Text(post)]
    ensures PartsAsWritten(pre + THINK_START + t + THINK_END + post, THINK_START, THINK_END)
            == Some([Text(pre), Thinking(t), Text(post)])
  {
    PartsOfSection(pre, t, post);
    PartsOfTagFree(post);
    ConcatThree(Text(pre), Thinking(t), Text(post));
    ThinkDelimiters();
    PartsAsWrittenOfTagFree(post, THINK_START, THINK_END);
    PartsAsWrittenOfSection(pre, t, post, THINK_START, THINK_END);
    PartsAsWrittenAgrees(pre + THINK_START + t + THINK_END + post, THINK_START, THINK_END);
  }

  /** ... and its rendering without thinking is the two texts on two lines. */
  lemma RenderOfOneSection(pre: string, t: string, post: string)
    requires TagFree(pre) && TagFree(t) && TagFree(post)
    requires pre != [] && post != []
    ensures RenderWithoutThinkingParts(LmResponse(Parts(pre + THINK_START + t + THINK_END + post, THINK_START, THINK_END)))
            == pre + "\n" + post
  {
    OutputWithOneSection(pre, t, post);
    RenderAroundThinking(pre, t, post);
  }

  /** The `thinking_iterator_handles_multiple_thinking_sections` test. */
  lemma MultipleSectionsExample()
    ensures Parts("This is a test <think>thinking part 1</think>" + " and another <think>thinking part 2</think>.",
                  THINK_START, THINK_END)
            == [Text("This is a test "), Thinking("thinking part 1"), Text(" and another "),
                Thinking("thinking part 2"), Text(".")]
    ensures PartsAsWritten("This is a test <think>thinking part 1</think>" + " and another <think>thinking part 2</think>.",
                           THINK_START, THINK_END)
            == Some([Text("This is a test "), Thinking("thinking part 1"), Text(" and another "),
                     Thinking("thinking part 2"), Text(".")])
  {
    MultipleSectionsTagFree();
    MultipleSectionsMessage();
    OutputWithTwoSections("This is a test ", "thinking part 1", " and another ", "thinking part 2", ".");
  }

  lemma ConcatThree(a: MessagePart, b: MessagePart, c: MessagePart)
    ensures [a, b] + [c] == [a, b, c]
  {
  }

  lemma ConcatFive(a: MessagePart, b: MessagePart, c: MessagePart, d: MessagePart, e: MessagePart)
    ensures [a, b] + [c, d, e] == [a, b, c, d, e]
  {
  }

  /** Two thinking sections between tag-free texts give the five parts in order. */
  lemma OutputWithTwoSections(p1: string, t1: string, p2: string, t2: string, post: string)
    requires TagFree(p1) && TagFree(t1) && TagFree(p2) && TagFree(t2) && TagFree(post)
    requires p1 != [] && p2 != [] && post != []
    ensures Parts(p1 + THINK_START + t1 + THINK_END + (p2 + THINK_START + t2 + THINK_END + post), THINK_START, THINK_END)
            == [Text(p1), Thinking(t1), Text(p2), Thinking(t2), Text(post)]
    ensures PartsAsWritten(p1 + THINK_START + t1 + THINK_END + (p2 + THINK_START + t2 + THINK_END + post),
                           THINK_START, THINK_END)
            == Some([Text(p1), Thinking(t1), Text(p2), Thinking(t2), Text(post)])
  {
    var rest := p2 + THINK_START + t2 + THINK_END + post;
    OutputWithOneSection(p2, t2, post);
    PartsOfSection(p1, t1, rest);
    ConcatFive(Text(p1), Thinking(t1), Text(p2), Thinking(t2), Text(post));
    ThinkDelimiters();
    PartsAsWrittenOfSection(p1, t1, rest, THINK_START, THINK_END);
    PartsAsWrittenAgrees(p1 + THINK_START + t1 + THINK_END + rest, THINK_START, THINK_END);
  }

  lemma MultipleSectionsTagFree()
    ensures TagFree("This is a test ") && TagFree("thinking part 1") && TagFree(" and another ")
    ensures TagFree("thinking part 2") && TagFree(".")
  {
  }

  lemma MultipleSectionsMessage()
    ensures "This is a test " + THINK_START + "thinking part 1" + THINK_END
            + (" and another " + THINK_START + "thinking part 2" + THINK_END + ".")
            == "This is a test <think>thinking part 1</think>" + " and another <think>thinking part 2</think>."
  {
    var a := " and another " + THINK_START;
    assert a == " and another <think>";
    var b := a + "thinking part 2";
    assert b == " and another <think>thinking part 2";
    var c := b + THINK_END + ".";
    assert c == " and another <think>thinking part 2</think>.";
    var d := "This is a test " + THINK_START;
    assert d == "This is a test <think>";
    var e := d + "thinking part 1";
    assert e == "This is a test <think>thinking part 1";
    var f := e + THINK_END;
    assert f == "This is a test <think>thinking part 1</think>";
  }

  lemma TagFreeAppend(a: string, b: string)
    requires TagFree(a) && TagFree(b)
    ensures TagFree(a + b)
  {
    assert forall i :: 0 <= i < |a + b| ==> (a + b)[i] == (if i < |a| then a[i] else b[i - |a|]);
  }

  /** The `thinking_iterator_handles_no_thinking` test, whose message is
      written here in three pieces. */
  lemma NoThinkingExample()
    ensures Parts("This is a test " + "message without " + "thinking parts.", THINK_START, THINK_END)
            == [Text("This is a test " + "message without " + "thinking parts.")]
    ensures PartsAsWritten("This is a test " + "message without " + "thinking parts.", THINK_START, THINK_END)
            == Some([Text("This is a test " + "message without " + "thinking parts.")])
  {
    NoThinkingMessageTagFree();
    PartsOfTagFree("This is a test " + "message without " + "thinking parts.");
    ThinkDelimiters();
    PartsAsWrittenOfTagFree("This is a test " + "message without " + "thinking parts.", THINK_START, THINK_END);
    PartsAsWrittenAgrees("This is a test " + "message without " + "thinking parts.", THINK_START, THINK_END);
  }

  lemma NoThinkingMessageTagFree()
    ensures TagFree("This is a test " + "message without " + "thinking parts.")
  {
    var p1, p2, p3 := "This is a test ", "message without ", "thinking parts.";
    assert TagFree(p1);
    assert TagFree(p2);
    assert TagFree(p3);
    TagFreeAppend(p1, p2);
    TagFreeAppend(p1 + p2, p3);
  }
}
