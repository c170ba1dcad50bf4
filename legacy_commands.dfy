/** The chat commands of the first bot (src/commands.rs): a message is
    matched against a few exact command strings, a message naming the bot is
    an announcement, and every command but the balance dump has a fixed
    reply. */
module LegacyCommands {
  import opened Wrappers
  import opened Strings

  const HELP: string := "!ping to say hello\n!about to show info about ultron\nmentioning ultron summons him"
  const PING: string := "hello"
  const ABOUT: string := "https://github.com/covercash2/ultron"
  const ANNOUNCE: string := "I am always listening"

  /** The word that makes any other message an announcement. */
  const BOT_NAME: string := "ultron"

  datatype Command = Help | Ping | About | Announce | GetAllBalances(channelId: nat)

  datatype CommandError = UnknownCommand(content: string)

  /** The message texts that are commands on their own. */
  predicate IsExactCommand(content: string) {
    content == "!help" || content == "!ping" || content == "!about" || content == "!coins"
  }

  /** `Command::parse_message` on the message's text and the id of the
      channel it was posted in. */
  function ParseMessage(content: string, channelId: nat): (r: Result<Command, CommandError>)
    ensures r == Success(Help) <==> content == "!help"
    ensures r == Success(Ping) <==> content == "!ping"
    ensures r == Success(About) <==> content == "!about"
    ensures r == Success(GetAllBalances(channelId)) <==> content == "!coins"
    ensures r.Success? && r.value.GetAllBalances? ==> r.value.channelId == channelId
    ensures r == Success(Announce) <==> !IsExactCommand(content) && Contains(content, BOT_NAME)
    ensures r.Failure? <==> !IsExactCommand(content) && !Contains(content, BOT_NAME)
    ensures r.Failure? ==> r.error == UnknownCommand(content)
  {
    if content == "!help" then Success(Help)
    else if content == "!ping" then Success(Ping)
    else if content == "!about" then Success(About)
    else if content == "!coins" then Success(GetAllBalances(channelId))
    else if Contains(content, BOT_NAME) then Success(Announce)
    else Failure(UnknownCommand(content))
  }

  /** `Command::process`: the fixed reply of each command. The balance dump
      is unimplemented in the source (it panics), so it is excluded. */
  function Process(c: Command): (reply: string)
    requires !c.GetAllBalances?
    ensures reply != []
  {
    match c
    case Help => HELP
    case Ping => PING
    case About => ABOUT
    case Announce => ANNOUNCE
  }

  /** Every message that names the bot and is not an exact command is
      answered with the announcement. */
  lemma MentionAnnounces(content: string, channelId: nat)
    requires Contains(content, BOT_NAME)
    ensures ParseMessage(content, channelId) == Success(Announce)
  {
    assert !IsExactCommand(content) by {
      var i := Find(content, BOT_NAME).value;
      assert content[i..i + 6] == BOT_NAME;
      assert |content| >= 6;
      if |content| == 6 {
        assert content == BOT_NAME;
      }
    }
  }

  /** Matching is exact: a trailing space or another case is not a command,
      and such a message gets the unknown-command error carrying its text. */
  lemma MatchingIsExact(channelId: nat)
    ensures ParseMessage("!help ", channelId) == Failure(UnknownCommand("!help "))
    ensures ParseMessage("!HELP", channelId) == Failure(UnknownCommand("!HELP"))
  {
    NoMention("!help ");
    NoMention("!HELP");
  }

  /** A text no longer than the bot's name names it only by being it. */
  lemma NoMention(content: string)
    requires |content| <= |BOT_NAME| && content != BOT_NAME
    ensures !Contains(content, BOT_NAME)
  {
  }

  /** The four replies are distinct, so a reply tells which command was
      answered. */
  lemma RepliesDistinct(a: Command, b: Command)
    requires !a.GetAllBalances? && !b.GetAllBalances?
    ensures Process(a) == Process(b) <==> a == b
  {
    if a != b {
      assert Process(a)[0] != Process(b)[0] || |Process(a)| != |Process(b)|;
    }
  }

  /** `!ping` is answered with `hello`. */
  lemma PingExample(channelId: nat)
    ensures ParseMessage("!ping", channelId).Success?
    ensures Process(ParseMessage("!ping", channelId).value) == "hello"
  {
  }
}
