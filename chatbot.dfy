/** Input arriving from a chat transport, and the command-prefix check
    (core/src/chatbot/mod.rs). */
module ChatBot {
  import opened Wrappers
  import opened Strings
  import opened ChatTypes

  /** The prefix that marks a chat message as a command for the bot. */
  const DEFAULT_COMMAND_PREFIX: string := "!ultron"

  datatype ChatInput = ChatInput(user: User, content: string, channel: Channel)

  /** `ChatInput::anonymous`. */
  function AnonymousInput(content: string, channel: Channel): (c: ChatInput)
    ensures c.user == Anonymous
    ensures c.content == content && c.channel == channel
  {
    ChatInput(Anonymous, content, channel)
  }

  /** `ChatInput::strip_prefix`: the content after the prefix, without
      surrounding whitespace; content that does not start with the prefix is
      rejected with the whole content attached. */
  function StripCommandPrefix(input: ChatInput): (r: Result<string, CommandParseError>)
    ensures r.Success? <==> StartsWith(input.content, DEFAULT_COMMAND_PREFIX)
    ensures r.Failure? ==> r.error == MissingPrefix(input.content)
    ensures r.Success? ==> Trimmed(r.value)
  {
    match StripPrefix(input.content, DEFAULT_COMMAND_PREFIX)
    case Some(rest) => Success(Trim(rest))
    case None => Failure(MissingPrefix(input.content))
  }

  /** The stripped command is the content after the prefix, less only
      whitespace at its two ends. */
  lemma StripCommandPrefixSurroundings(input: ChatInput)
    requires StripCommandPrefix(input).Success?
    ensures exists a, b :: input.content == DEFAULT_COMMAND_PREFIX + a + StripCommandPrefix(input).value + b
                           && AllWhitespace(a) && AllWhitespace(b)
  {
    var rest := StripPrefix(input.content, DEFAULT_COMMAND_PREFIX).value;
    var t := Trim(rest);
    TrimSurroundings(rest);
    var a, b :| rest == a + t + b && AllWhitespace(a) && AllWhitespace(b);
    Regroup(DEFAULT_COMMAND_PREFIX, rest, a, t, b);
  }

  lemma Regroup(p: string, rest: string, a: string, t: string, b: string)
    requires rest == a + t + b
    ensures p + rest == p + a + t + b
  {
  }

  /** Trimming leaves nothing else to remove: the stripped command is
      determined by the content alone. */
  lemma StripCommandPrefixUnique(input: ChatInput, a: string, x: string, b: string)
    requires input.content == DEFAULT_COMMAND_PREFIX + a + x + b
    requires AllWhitespace(a) && AllWhitespace(b) && Trimmed(x) && x != []
    ensures StripCommandPrefix(input) == Success(x)
  {
    var rest := a + x + b;
    assert input.content[..|DEFAULT_COMMAND_PREFIX|] == DEFAULT_COMMAND_PREFIX;
    assert input.content[|DEFAULT_COMMAND_PREFIX|..] == rest;
    TrimOfPadded(a, x, b);
  }

  /** The test vector: `"!ultron hello"` strips to `"hello"`. */
  lemma StripCommandPrefixExample(channel: Channel)
    ensures StripCommandPrefix(AnonymousInput("!ultron hello", channel)) == Success("hello")
  {
    StripCommandPrefixUnique(AnonymousInput("!ultron hello", channel), " ", "hello", "");
  }

  /** The prefix only counts at the very start of the content: whatever
      follows, content opening with whitespace is refused whole. */
  lemma PrefixElsewhereIsMissing(w: char, rest: string, channel: Channel)
    requires IsWhitespace(w)
    ensures StripCommandPrefix(AnonymousInput([w] + rest, channel)) == Failure(MissingPrefix([w] + rest))
  {
    assert ([w] + rest)[0] != DEFAULT_COMMAND_PREFIX[0];
  }
}
