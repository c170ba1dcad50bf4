/** The first, echo-only event processor of the core (core/src/lib.rs): every
    chat input is answered by repeating it after "you said: ". */
module CoreLib {
  import opened Wrappers
  import opened Strings

  /** `ChatInput::from`: any value given by its string form, stored verbatim. */
  datatype ChatInput = ChatInput(content: string)

  datatype Event = ChatInputEvent(input: ChatInput)

  datatype Response = Plain(text: string)

  const REPLY_PREFIX: string := "you said: "

  /** `From<T> for ChatInput`, given the value's `to_string`. */
  function FromShown(shown: string): (c: ChatInput)
    ensures c.content == shown
  {
    ChatInput(shown)
  }

  /** `EventProcessor::process`: never fails, one plain reply per event, which
      starts with the reply prefix and ends with the input. */
  function Process(e: Event): (r: Response)
    ensures StartsWith(r.text, REPLY_PREFIX)
    ensures StripPrefix(r.text, REPLY_PREFIX) == Some(e.input.content)
  {
    var text := REPLY_PREFIX + e.input.content;
    assert text[..|REPLY_PREFIX|] == REPLY_PREFIX;
    assert text[|REPLY_PREFIX|..] == e.input.content;
    Plain(text)
  }

  /** Different inputs get different replies. */
  lemma ProcessInjective(a: Event, b: Event)
    ensures Process(a) == Process(b) <==> a == b
  {
    if Process(a) == Process(b) {
      assert StripPrefix(Process(a).text, REPLY_PREFIX) == StripPrefix(Process(b).text, REPLY_PREFIX);
    }
  }

  /** The `it_works` test. */
  lemma HelloExample()
    ensures Process(ChatInputEvent(FromShown("hello"))) == Plain("you said: hello")
  {
    assert REPLY_PREFIX + "hello" == "you said: hello";
  }
}
