/** Events, bot messages and responses of the chat core
    (core/src/event_processor.rs). */
module EventProcessor {
  import opened Wrappers
  import opened Strings
  import opened ChatTypes
  import opened ChatBot
  import opened MessageParts

  datatype EventType = Command | NaturalLanguage

  /** A message from or to the bot, as a sequence of text and thinking parts. */
  datatype BotMessage = BotMessage(parts: seq<MessagePart>)

  /** An event the bot processes; command events no longer carry the prefix. */
  datatype Event = Event(user: User, content: BotMessage, eventType: EventType)

  /** Dice and language-model errors carry their display text: the dice roller
      and the language model are not part of this model. */
  datatype EventError =
    | CommandParse(parseError: CommandParseError)
    | DiceRollParse(diceError: string)
    | LanguageModel(modelError: string)

  /** The display text of an event error. */
  function EventErrorText(e: EventError): string {
    match e
    case CommandParse(p) => "failed to parse command from input: " + ParseErrorText(p)
    case DiceRollParse(d) => "failed to parse dice roll from input: " + d
    case LanguageModel(m) => "language model error: " + m
  }

  /** A parse error inside an event error names a single-word command. */
  predicate WordCommandEvent(e: EventError) {
    e.CommandParse? ==> WordCommand(e.parseError)
  }

  /** Where the fixed texts of the three errors differ. */
  lemma EventErrorTextLeads(e: EventError)
    ensures var t := EventErrorText(e);
      |t| > 16 &&
      (e.CommandParse? ==> t[0] == 'f' && t[16] == 'c') &&
      (e.DiceRollParse? ==> t[0] == 'f' && t[16] == 'd') &&
      (e.LanguageModel? ==> t[0] == 'l')
  {
    match e
    case CommandParse(p) =>
      AppendAt("failed to parse command from input: ", ParseErrorText(p), 0);
      AppendAt("failed to parse command from input: ", ParseErrorText(p), 16);
    case DiceRollParse(d) =>
      AppendAt("failed to parse dice roll from input: ", d, 0);
      AppendAt("failed to parse dice roll from input: ", d, 16);
    case LanguageModel(m) =>
      AppendAt("language model error: ", m, 0);
  }

  /** The display text of an event error determines the error. */
  lemma EventErrorTextInjective(a: EventError, b: EventError)
    requires WordCommandEvent(a) && WordCommandEvent(b)
    ensures EventErrorText(a) == EventErrorText(b) <==> a == b
  {
    if EventErrorText(a) == EventErrorText(b) {
      EventErrorTextLeads(a);
      EventErrorTextLeads(b);
      match a
      case CommandParse(p) =>
        AfterCommonLead("failed to parse command from input: ", ParseErrorText(p), ParseErrorText(b.parseError));
        ParseErrorTextInjective(p, b.parseError);
      case DiceRollParse(d) =>
        AfterCommonLead("failed to parse dice roll from input: ", d, b.diceError);
      case LanguageModel(m) =>
        AfterCommonLead("language model error: ", m, b.modelError);
    }
  }

  /** What processing an event produces for the transport. */
  datatype Response = PlainChat(text: string) | Bot(message: BotMessage) | Ignored

  /** `BotMessage::to_string`: the parts as the model wrote them, one per line. */
  function ToString(m: BotMessage): string {
    Display(m.parts)
  }

  /** `BotMessage::render_without_thinking_parts`: what a chat user gets to
      see — the message displayed with its thinking parts dropped. */
  function RenderWithoutThinkingParts(m: BotMessage): (r: string)
    ensures r == ToString(BotMessage(TextOnly(m.parts)))
  {
    RenderWithoutThinking(m.parts)
  }

  /** `BotMessage::raw`: a message that renders as the string itself, with or
      without thinking parts. */
  function Raw(s: string): (m: BotMessage)
    ensures m.parts == [Text(s)]
    ensures ToString(m) == s && RenderWithoutThinkingParts(m) == s
  {
    var m := BotMessage([Text(s)]);
    RenderWithoutThinkingNoThinking(m.parts);
    m
  }

  /** `Event::new`: a command event must start with the command prefix, which
      is stripped along with the whitespace after it; any other event keeps the
      content verbatim. The sender and the event type are kept. */
  function NewEvent(input: ChatInput, eventType: EventType): (r: Result<Event, CommandParseError>)
    ensures eventType == NaturalLanguage ==> r == Success(Event(input.user, Raw(input.content), eventType))
    ensures eventType == Command ==> (r.Success? <==> StartsWith(input.content, DEFAULT_COMMAND_PREFIX))
    ensures eventType == Command && r.Success? ==>
              r.value == Event(input.user, Raw(StripCommandPrefix(input).value), Command)
    ensures r.Failure? ==> r.error == MissingPrefix(input.content)
  {
    var content :=
      if eventType == Command then StripCommandPrefix(input)
      else Success(input.content);
    match content
    case Failure(e) => Failure(e)
    case Success(c) => Success(Event(input.user, Raw(c), eventType))
  }

  /** The test vector: `"!ultron hello"` becomes an anonymous command event
      whose content is the raw message `"hello"`. */
  lemma NewEventExample(channel: Channel)
    ensures NewEvent(AnonymousInput("!ultron hello", channel), Command)
            == Success(Event(Anonymous, Raw("hello"), Command))
  {
    StripCommandPrefixExample(channel);
  }
}
