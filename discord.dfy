/** The pure parts of the Discord transport (ultron_discord/src/lib.rs): the
    table between the bot's channels and Discord channel ids, the reply sent
    for a failed event, and the chunks a response is posted as. */
module Discord {
  import opened Wrappers
  import opened Strings
  import opened ChatTypes
  import opened DebugFormat
  import opened EventProcessor
  import opened DiscordSplit
  import CoreCommand

  const DEFAULT_DEBUG_CHANNEL_ID: nat := 777725275856699402
  const DEFAULT_GENERAL_CHANNEL_ID: nat := 777658379212161077
  const DEFAULT_DND_CHANNEL_ID: nat := 874085144284258325
  const FUN_ZONE_STREAM_CHANNEL_ID: nat := 1375319100124827748
  const FUN_ZONE_BOT_CHANNEL_ID: nat := 1249097633520160808

  /** The configured channels and their Discord ids. */
  const CHANNELS: seq<(Channel, nat)> := [
    (Debug, DEFAULT_DEBUG_CHANNEL_ID),
    (Psa, DEFAULT_GENERAL_CHANNEL_ID),
    (Dnd, DEFAULT_DND_CHANNEL_ID),
    (FunZoneBots, FUN_ZONE_BOT_CHANNEL_ID),
    (FunZoneStream, FUN_ZONE_STREAM_CHANNEL_ID)
  ]

  const DISCORD_MAX_MESSAGE_LENGTH: nat := 2000

  /** The two lookup tables of `Channels`. */
  datatype Channels = Channels(byId: map<nat, Channel>, byName: map<Channel, nat>)

  /** Collecting `(id, channel)` pairs into a map: a later pair wins. */
  function CollectById(pairs: seq<(Channel, nat)>): map<nat, Channel> {
    if pairs == [] then map[]
    else CollectById(pairs[..|pairs| - 1])[pairs[|pairs| - 1].1 := pairs[|pairs| - 1].0]
  }

  function CollectByName(pairs: seq<(Channel, nat)>): map<Channel, nat> {
    if pairs == [] then map[]
    else CollectByName(pairs[..|pairs| - 1])[pairs[|pairs| - 1].0 := pairs[|pairs| - 1].1]
  }

  /** `Channels::new`. */
  function NewChannels(): Channels {
    Channels(CollectById(CHANNELS), CollectByName(CHANNELS))
  }

  /** `Channels::by_id`. */
  function ById(c: Channels, id: nat): (r: Option<Channel>)
    ensures r.Some? <==> id in c.byId
    ensures r.Some? ==> r.value == c.byId[id]
  {
    if id in c.byId then Some(c.byId[id]) else None
  }

  /** `Channels::by_name`. */
  function ByName(c: Channels, channel: Channel): (r: Option<nat>)
    ensures r.Some? <==> channel in c.byName
    ensures r.Some? ==> r.value == c.byName[channel]
  {
    if channel in c.byName then Some(c.byName[channel]) else None
  }

  lemma NewChannelsTables()
    ensures NewChannels().byName == map[Debug := DEFAULT_DEBUG_CHANNEL_ID, Psa := DEFAULT_GENERAL_CHANNEL_ID,
                                        Dnd := DEFAULT_DND_CHANNEL_ID, FunZoneBots := FUN_ZONE_BOT_CHANNEL_ID,
                                        FunZoneStream := FUN_ZONE_STREAM_CHANNEL_ID]
    ensures NewChannels().byId == map[DEFAULT_DEBUG_CHANNEL_ID := Debug, DEFAULT_GENERAL_CHANNEL_ID := Psa,
                                      DEFAULT_DND_CHANNEL_ID := Dnd, FUN_ZONE_BOT_CHANNEL_ID := FunZoneBots,
                                      FUN_ZONE_STREAM_CHANNEL_ID := FunZoneStream]
  {
    assert CHANNELS[..1][..0] == [];
    assert CollectById(CHANNELS[..1]) == map[DEFAULT_DEBUG_CHANNEL_ID := Debug];
    assert CollectByName(CHANNELS[..1]) == map[Debug := DEFAULT_DEBUG_CHANNEL_ID];
    assert CHANNELS[..2][..1] == CHANNELS[..1];
    assert CollectById(CHANNELS[..2]) == map[DEFAULT_DEBUG_CHANNEL_ID := Debug, DEFAULT_GENERAL_CHANNEL_ID := Psa];
    assert CollectByName(CHANNELS[..2]) == map[Debug := DEFAULT_DEBUG_CHANNEL_ID, Psa := DEFAULT_GENERAL_CHANNEL_ID];
    assert CHANNELS[..3][..2] == CHANNELS[..2];
    assert CollectById(CHANNELS[..3]) == map[DEFAULT_DEBUG_CHANNEL_ID := Debug, DEFAULT_GENERAL_CHANNEL_ID := Psa, DEFAULT_DND_CHANNEL_ID := Dnd];
    assert CollectByName(CHANNELS[..3]) == map[Debug := DEFAULT_DEBUG_CHANNEL_ID, Psa := DEFAULT_GENERAL_CHANNEL_ID, Dnd := DEFAULT_DND_CHANNEL_ID];
    assert CHANNELS[..4][..3] == CHANNELS[..3];
    assert CollectById(CHANNELS[..4]) == map[DEFAULT_DEBUG_CHANNEL_ID := Debug, DEFAULT_GENERAL_CHANNEL_ID := Psa, DEFAULT_DND_CHANNEL_ID := Dnd, FUN_ZONE_BOT_CHANNEL_ID := FunZoneBots];
    assert CollectByName(CHANNELS[..4]) == map[Debug := DEFAULT_DEBUG_CHANNEL_ID, Psa := DEFAULT_GENERAL_CHANNEL_ID, Dnd := DEFAULT_DND_CHANNEL_ID, FunZoneBots := FUN_ZONE_BOT_CHANNEL_ID];
    assert CollectById(CHANNELS) == map[DEFAULT_DEBUG_CHANNEL_ID := Debug, DEFAULT_GENERAL_CHANNEL_ID := Psa, DEFAULT_DND_CHANNEL_ID := Dnd, FUN_ZONE_BOT_CHANNEL_ID := FunZoneBots, FUN_ZONE_STREAM_CHANNEL_ID := FunZoneStream];
    assert CollectByName(CHANNELS) == map[Debug := DEFAULT_DEBUG_CHANNEL_ID, Psa := DEFAULT_GENERAL_CHANNEL_ID, Dnd := DEFAULT_DND_CHANNEL_ID, FunZoneBots := FUN_ZONE_BOT_CHANNEL_ID, FunZoneStream := FUN_ZONE_STREAM_CHANNEL_ID];
  }

  /** Every channel is configured, and the two tables are inverse to each
      other: the id of a channel names that channel, and the channel of an id
      has that id. */
  lemma ChannelsAreInverse()
    ensures forall ch: Channel :: ByName(NewChannels(), ch).Some?
    ensures forall ch: Channel :: ById(NewChannels(), ByName(NewChannels(), ch).value) == Some(ch)
    ensures forall id: nat :: ById(NewChannels(), id).Some? ==>
              ByName(NewChannels(), ById(NewChannels(), id).value) == Some(id)
  {
    NewChannelsTables();
    forall ch: Channel
      ensures ByName(NewChannels(), ch).Some?
      ensures ById(NewChannels(), ByName(NewChannels(), ch).value) == Some(ch)
    {
      match ch
      case Debug =>
      case Psa =>
      case Dnd =>
      case FunZoneBots =>
      case FunZoneStream =>
    }
  }

  /** The errors the transport reports about channels. */
  datatype ChannelError = ChannelNotConfigured(channel: Channel) | ChannelNotRecognized(id: nat)

  /** The id `send_message` posts to, or `ChannelNotConfigured`. */
  function SendTarget(c: Channels, channel: Channel): (r: Result<nat, ChannelError>)
    ensures r.Success? <==> ByName(c, channel).Some?
    ensures r.Success? ==> Some(r.value) == ByName(c, channel)
    ensures r.Failure? ==> r.error == ChannelNotConfigured(channel)
  {
    match ByName(c, channel)
    case Some(id) => Success(id)
    case None => Failure(ChannelNotConfigured(channel))
  }

  /** The channel an incoming message was posted in, or `ChannelNotRecognized`. */
  function Recognize(c: Channels, id: nat): (r: Result<Channel, ChannelError>)
    ensures r.Success? <==> ById(c, id).Some?
    ensures r.Failure? ==> r.error == ChannelNotRecognized(id)
  {
    match ById(c, id)
    case Some(channel) => Success(channel)
    case None => Failure(ChannelNotRecognized(id))
  }

  /** With the configured table, a reply can be sent to every channel, and a
      message posted where the bot replies is recognized as that channel. */
  lemma SendThenRecognize(channel: Channel)
    ensures SendTarget(NewChannels(), channel).Success?
    ensures Recognize(NewChannels(), SendTarget(NewChannels(), channel).value) == Success(channel)
  {
    ChannelsAreInverse();
  }

  /** An id that is not one of the five configured ids is not recognized. */
  lemma UnknownIdRejected(id: nat)
    requires forall k :: 0 <= k < |CHANNELS| ==> CHANNELS[k].1 != id
    ensures Recognize(NewChannels(), id) == Failure(ChannelNotRecognized(id))
  {
    NewChannelsTables();
    assert CHANNELS[0].1 != id && CHANNELS[1].1 != id && CHANNELS[2].1 != id;
    assert CHANNELS[3].1 != id && CHANNELS[4].1 != id;
  }

  /** The event errors of the snapshot of the core this transport was written
      against: its language-model failures are `Agent` errors. */
  datatype TransportEventError =
    | CommandParse(parseError: CommandParseError)
    | Agent(agentError: string)
    | DiceRollParse(diceError: string)

  /** The reply `handle_event_error` posts for a failed event, if any; `help`
      is the dice help text, which is not part of this model. A missing
      prefix means the message was not for the bot: no reply. */
  function ErrorReply(e: TransportEventError, help: string): (r: Option<string>)
    ensures r.None? <==> e.CommandParse? && e.parseError.MissingPrefix?
    ensures r.Some? ==> |r.value| >= |help| && r.value[|r.value| - |help|..] == help
    ensures r.Some? && !e.Agent? ==> StartsWith(r.value, "ya blew it: ")
    ensures e.Agent? ==> StartsWith(r.value, "brain hurty: ")
  {
    var reply := match e
      case CommandParse(MissingPrefix(_)) => None
      case CommandParse(MissingCommand(m)) => Some("ya blew it: " + m + "\n\n" + help)
      case CommandParse(UndefinedCommand(command, args)) =>
        Some("ya blew it: undefined command '" + command + "' with args " + DebugOption(args) + "\n\n" + help)
      case Agent(a) => Some("brain hurty: " + a + "\n" + help)
      case DiceRollParse(d) => Some("ya blew it: " + d + "\n\n" + help);
    if reply.Some? then
      assert reply.value[|reply.value| - |help|..] == help;
      assert reply.value[..|"ya blew it: "|] == "ya blew it: " || e.Agent?;
      assert e.Agent? ==> reply.value[..|"brain hurty: "|] == "brain hurty: ";
      reply
    else reply
  }

  /** Every input the command parser rejects gets a reply. */
  lemma ParseFailuresGetReply(input: string, help: string)
    requires CoreCommand.Parse(input).Failure?
    ensures ErrorReply(TransportEventError.CommandParse(CoreCommand.Parse(input).error), help).Some?
  {
  }

  /** The reply to `undefined hello`: the unknown word quoted, then the
      arguments in their `Debug` form (the expected text is written in the
      pieces it is built from). */
  lemma UndefinedCommandReplyExample(help: string)
    ensures CoreCommand.Parse("undefined hello").Failure?
    ensures ErrorReply(TransportEventError.CommandParse(CoreCommand.Parse("undefined hello").error), help)
            == Some("ya blew it: undefined command '" + "undefined" + "' with args " + "Some(\"hello\")" + "\n\n" + help)
  {
    CoreCommand.ParseUndefinedExample();
    UndefinedHelloReply(help);
  }

  lemma UndefinedHelloReply(help: string)
    ensures ErrorReply(TransportEventError.CommandParse(UndefinedCommand("undefined", Some("hello"))), help)
            == Some("ya blew it: undefined command '" + "undefined" + "' with args " + "Some(\"hello\")" + "\n\n" + help)
  {
    DebugOptionExample();
    UndefinedCommandReply("undefined", Some("hello"), help);
  }

  /** The reply to an undefined command, piece by piece. */
  lemma UndefinedCommandReply(command: string, args: Option<string>, help: string)
    ensures ErrorReply(TransportEventError.CommandParse(UndefinedCommand(command, args)), help)
            == Some(("ya blew it: undefined command '" + command + "' with args " + DebugOption(args)) + "\n\n" + help)
  {
  }

  /** `handle_response`: the chunks posted for a response. Thinking parts of
      a bot message are never posted. */
  method ResponseChunks(response: Response) returns (chunks: seq<string>)
    ensures response.Ignored? ==> chunks == []
    ensures response.PlainChat? ==> chunks == SplitSpec(response.text, DISCORD_MAX_MESSAGE_LENGTH)
    ensures response.Bot? ==>
              chunks == SplitSpec(RenderWithoutThinkingParts(response.message), DISCORD_MAX_MESSAGE_LENGTH)
  {
    match response
    case PlainChat(message) =>
      chunks := SplitMessage(message, DISCORD_MAX_MESSAGE_LENGTH);
    case Bot(message) =>
      var text := RenderWithoutThinkingParts(message);
      chunks := SplitMessage(text, DISCORD_MAX_MESSAGE_LENGTH);
    case Ignored =>
      chunks := [];
  }
}
