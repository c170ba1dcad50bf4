/** Dispatching an event (`EventProcessor::process`, core/src/event_processor.rs):
    command events are parsed and executed, natural-language events go to the
    language model together with the events the processor was seeded with. */
module Processing {
  import opened Wrappers
  import opened ChatTypes
  import opened ChatBot
  import opened EventProcessor
  import CoreCommand

  const SYSTEM_PROMPT: string :=
    "You are Ultron, a helpful AI assistant. Respond to commands and natural language inputs."

  /** The processor's state: the events every language-model conversation
      starts with. `process` only reads it. */
  datatype Processor = Processor(rawEvents: seq<Event>)

  /** The language model is not part of this model: it maps a conversation to
      the next event, or to the text of its error. */
  type LanguageModel = seq<Event> -> Result<Event, string>

  /** `EventProcessor::new`: the conversation starts with one system message
      from Ultron that renders as the system prompt. */
  function NewProcessor(): (p: Processor)
    ensures |p.rawEvents| == 1
    ensures p.rawEvents[0].user == Ultron && p.rawEvents[0].eventType == NaturalLanguage
    ensures ToString(p.rawEvents[0].content) == SYSTEM_PROMPT
    ensures RenderWithoutThinkingParts(p.rawEvents[0].content) == SYSTEM_PROMPT
  {
    Processor([Event(Ultron, Raw(SYSTEM_PROMPT), NaturalLanguage)])
  }

  /** The processor the tests build with `Default`: no seeded events. */
  function DefaultProcessor(): (p: Processor)
    ensures p.rawEvents == []
  {
    Processor([])
  }

  /** `EventProcessor::process`. */
  function Process(p: Processor, event: Event, roll: string -> Result<string, string>,
                   pastas: CoreCommand.PastaTable, lm: LanguageModel): (r: Result<Response, EventError>)
    ensures r.Success? ==> !r.value.Ignored?
    ensures event.eventType == Command && r.Success? ==> r.value.PlainChat?
    ensures event.eventType == NaturalLanguage && r.Success? ==> r.value.Bot?
    ensures event.eventType == Command && CoreCommand.TryFromEvent(event).Failure? ==>
              r == Failure(CommandParse(CoreCommand.TryFromEvent(event).error))
    ensures event.eventType == Command && CoreCommand.TryFromEvent(event).Success? ==>
              var out := CoreCommand.Execute(CoreCommand.TryFromEvent(event).value, roll, pastas);
              (out.Success? ==> r == Success(PlainChat(out.value))) &&
              (out.Failure? ==> r == Failure(out.error))
    ensures event.eventType == NaturalLanguage ==>
              var next := lm(p.rawEvents + [event]);
              (next.Success? ==> r == Success(Bot(next.value.content))) &&
              (next.Failure? ==> r == Failure(LanguageModel(next.error)))
  {
    match event.eventType
    case Command =>
      (match CoreCommand.TryFromEvent(event)
       case Failure(e) => Failure(CommandParse(e))
       case Success(command) =>
         (match CoreCommand.Execute(command, roll, pastas)
          case Failure(e) => Failure(e)
          case Success(output) => Success(PlainChat(output))))
    case NaturalLanguage =>
      (match lm(p.rawEvents + [event])
       case Failure(e) => Failure(LanguageModel(e))
       case Success(next) => Success(Bot(next.content)))
  }

  /** A command event never reaches the language model: its response depends
      only on the command text, whatever model is plugged in. */
  lemma CommandsIgnoreLanguageModel(p: Processor, q: Processor, event: Event,
                                    roll: string -> Result<string, string>,
                                    pastas: CoreCommand.PastaTable, lm1: LanguageModel, lm2: LanguageModel)
    requires event.eventType == Command
    ensures Process(p, event, roll, pastas, lm1) == Process(q, event, roll, pastas, lm2)
  {
  }

  /** A chat message written as the prefix and `echo` followed by a normalized
      text is answered with that text, whatever the roller, the pastas and the
      language model. */
  lemma EchoAnswersWithMessage(p: Processor, content: string, m: string, channel: Channel,
                               roll: string -> Result<string, string>,
                               pastas: CoreCommand.PastaTable, lm: LanguageModel)
    requires CoreCommand.Normalized(m)
    requires content == DEFAULT_COMMAND_PREFIX + " " + CoreCommand.CommandLine(CoreCommand.Echo(m))
    ensures NewEvent(AnonymousInput(content, channel), Command).Success?
    ensures Process(p, NewEvent(AnonymousInput(content, channel), Command).value, roll, pastas, lm)
            == Success(PlainChat(m))
  {
    EchoEventParses(content, m, channel);
    var event := NewEvent(AnonymousInput(content, channel), Command).value;
    assert CoreCommand.Execute(CoreCommand.Echo(m), roll, pastas) == Success(m);
  }

  /** Such a message becomes a command event that parses as the echo. */
  lemma EchoEventParses(content: string, m: string, channel: Channel)
    requires CoreCommand.Normalized(m)
    requires content == DEFAULT_COMMAND_PREFIX + " " + CoreCommand.CommandLine(CoreCommand.Echo(m))
    ensures NewEvent(AnonymousInput(content, channel), Command).Success?
    ensures CoreCommand.TryFromEvent(NewEvent(AnonymousInput(content, channel), Command).value)
            == Success(CoreCommand.Echo(m))
  {
    var input := AnonymousInput(content, channel);
    EchoStripsToLine(input, m);
    CoreCommand.CommandOfChatInput(input);
    CoreCommand.ParseCommandLine(CoreCommand.Echo(m));
  }

  /** Stripping the prefix from such a message leaves the echo's command line. */
  lemma EchoStripsToLine(input: ChatInput, m: string)
    requires CoreCommand.Normalized(m)
    requires input.content == DEFAULT_COMMAND_PREFIX + " " + CoreCommand.CommandLine(CoreCommand.Echo(m))
    ensures StripCommandPrefix(input) == Success(CoreCommand.CommandLine(CoreCommand.Echo(m)))
  {
    EchoLineTrimmed(m);
    StripsAfterSpace(input, CoreCommand.CommandLine(CoreCommand.Echo(m)));
  }

  /** The prefix, one space and a trimmed non-empty text strip to that text. */
  lemma StripsAfterSpace(input: ChatInput, line: string)
    requires Strings.Trimmed(line) && line != []
    requires input.content == DEFAULT_COMMAND_PREFIX + " " + line
    ensures StripCommandPrefix(input) == Success(line)
  {
    Strings.AppendAssociative(DEFAULT_COMMAND_PREFIX, " ", line);
    Strings.StripPrefixOfConcat(DEFAULT_COMMAND_PREFIX, " " + line);
    Strings.TrimOfLeftPadded(" ", line);
  }

  /** The command line of an echo is trimmed and non-empty. */
  lemma EchoLineTrimmed(m: string)
    requires CoreCommand.Normalized(m)
    ensures Strings.Trimmed(CoreCommand.CommandLine(CoreCommand.Echo(m)))
    ensures CoreCommand.CommandLine(CoreCommand.Echo(m)) != []
  {
    Strings.JoinOfWordsTrimmed(Strings.Words(m));
    var line := CoreCommand.CommandLine(CoreCommand.Echo(m));
    if m != [] {
      assert line == "echo " + m;
      assert line[|line| - 1] == m[|m| - 1];
    }
  }

  /** The `it_works` test: `"!ultron echo hello"` from an anonymous user is
      answered with `"hello"`. */
  lemma EchoHelloExample(channel: Channel, roll: string -> Result<string, string>,
                         pastas: CoreCommand.PastaTable, lm: LanguageModel)
    ensures NewEvent(AnonymousInput("!ultron echo hello", channel), Command).Success?
    ensures Process(DefaultProcessor(), NewEvent(AnonymousInput("!ultron echo hello", channel), Command).value,
                    roll, pastas, lm) == Success(PlainChat("hello"))
  {
    HelloLine();
    EchoAnswersWithMessage(DefaultProcessor(), "!ultron echo hello", "hello", channel, roll, pastas, lm);
  }

  lemma HelloLine()
    ensures CoreCommand.Normalized("hello")
    ensures "!ultron echo hello" == DEFAULT_COMMAND_PREFIX + " " + CoreCommand.CommandLine(CoreCommand.Echo("hello"))
  {
    HelloNormalized();
    HelloCommandLine(CoreCommand.CommandLine(CoreCommand.Echo("hello")));
  }

  lemma HelloNormalized()
    ensures CoreCommand.Normalized("hello")
  {
    Strings.WordsOfWord("hello");
  }

  lemma HelloCommandLine(line: string)
    requires line == CoreCommand.CommandLine(CoreCommand.Echo("hello"))
    ensures "!ultron echo hello" == DEFAULT_COMMAND_PREFIX + " " + line
  {
    assert line == "echo hello";
  }
}
