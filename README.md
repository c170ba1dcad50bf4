# ultron, modelled in Dafny

ultron is a chat bot. A message is posted on Discord or sent to the core's HTTP
server. If it starts with the command prefix `!ultron`, it is parsed as a
command (`echo`, `roll`, `pasta`, `help`) and answered with a plain reply.
Otherwise it goes to a language model. The model's reply is split into
`<think>…</think>` sections and text, the thinking is dropped, and the rest is
posted back, cut into chunks that fit Discord's 2000-byte limit. Beside the
chat core, the repository keeps a coin economy in three generations:

- an in-memory bank of per-server ledgers with a daily award (`src/coins.rs`);
- a SQLite store of accounts, channel users, an item shop, inventories and
  opt-outs (`db/`);
- an rbatis store of accounts (`rbatis/`).

The project models each of these:

- pure code is written as functions on datatypes;
- objects that update their fields become classes whose methods are proved
  against those functions.

Every module corresponds to one source file or one group of source files:

- `Strings`, `Decimal` and `DebugFormat` model the pieces of the Rust standard
  library the code relies on: `trim`, `split_whitespace`, `find`,
  `strip_prefix`, `str::len` as UTF-8 bytes, `u64` display and parse, and
  `Debug` of `Option<String>`.
- `Wrappers` holds `Option` and `Result`.

Where the code departs from what its own names, comments and tests evidently
intend, the model follows the code. In particular:

- the help text lists `copypasta`, which the parser rejects;
- the SQLite `untip` credits a receiver that has no account;
- the SQLite `optout` fails on a repeat;
- `split_next_thinking_section` panics when a closing tag comes first.

These are listed under Findings.

## Model

| member | source | states |
|---|---|---|
| ChatTypes.ParseErrorText | core/src/command.rs:12-23 | the display text of a parse error, with the arguments in `Debug` form; `ParseErrorTextInjective` states that distinct errors show distinct texts |
| ChatTypes.ParseErrorTextInjective | core/src/command.rs:12-23 | two parse errors show the same text exactly when they are equal, as long as an undefined command is a single word |
| ChatTypes.UndefinedCommandTextInjective | core/src/command.rs:18-22 | the undefined-command text determines its command word and its arguments |
| ChatBot.AnonymousInput | core/src/chatbot/mod.rs:46-52 | the input is from the anonymous user, with the given content and channel unchanged |
| ChatBot.StripCommandPrefix | core/src/chatbot/mod.rs:54-59 | succeeds exactly when the content starts with `!ultron`, and the command it yields is trimmed; otherwise `MissingPrefix` carries the whole content |
| ChatBot.StripCommandPrefixSurroundings | core/src/chatbot/mod.rs:54-59 | the content is the prefix, whitespace, the stripped command and whitespace |
| ChatBot.StripCommandPrefixUnique | core/src/chatbot/mod.rs:54-59 | prefix, whitespace, a trimmed non-empty command and whitespace strip to exactly that command |
| ChatBot.StripCommandPrefixExample | core/src/event_processor.rs:272-279 | `"!ultron hello"` strips to `"hello"` |
| ChatBot.PrefixElsewhereIsMissing | core/src/chatbot/mod.rs:54-59 | content that opens with a whitespace character, whatever follows it, is refused as `MissingPrefix` of the whole content |
| CoreLib.FromShown | core/src/lib.rs:7-16 | the input's content is the value's string form, verbatim |
| CoreLib.Process | core/src/lib.rs:32-38 | every event gets a plain reply that is `you said: ` followed by exactly the input's content |
| CoreLib.ProcessInjective | core/src/lib.rs:32-38 | two events get the same reply only if they are the same event |
| CoreLib.HelloExample | core/src/lib.rs:45-52 | `hello` is answered `you said: hello` |
| CoreCommand.Select | core/src/command.rs:101-110 | the word selects a command exactly when it is one of `echo`, `roll`, `pasta`, `help`; the command carries the rest of the input (help carries nothing); an unknown word gives `UndefinedCommand` with the rest, or no args when the rest is empty |
| CoreCommand.Parse | core/src/command.rs:88-112 | no words is `MissingCommand` with the input; otherwise the first word decides success, the command's keyword is that word, and its argument is the remaining words joined by single spaces |
| CoreCommand.ParseCommandLine | core/src/command.rs:88-112 | a command written out with a normalized argument parses back to itself |
| CoreCommand.HelpIgnoresArguments | core/src/command.rs:101-110 | `help` followed by any words is `Help` |
| CoreCommand.ParseEchoExample | core/src/command.rs:118-122 | `echo hello` parses to `Echo("hello")` |
| CoreCommand.ParseEmptyExample | core/src/command.rs:124-131 | the empty input is `MissingCommand("")` |
| CoreCommand.ParseUndefinedExample | core/src/command.rs:133-149 | `undefined hello` is `UndefinedCommand("undefined", Some("hello"))` |
| CoreCommand.ParseIsCaseSensitive | core/src/command.rs:101-110 | `ECHO hello` is an undefined command |
| CoreCommand.ParseFailuresDisplayDistinctly | core/src/command.rs:88-112 | two inputs the parser refuses show the same error text exactly when they were refused with the same error |
| CoreCommand.TryFromEvent | core/src/command.rs:75-86 | a natural-language event is refused with `MissingPrefix` of its rendered text; a command event is parsed from its raw content |
| CoreCommand.CommandOfChatInput | core/src/event_processor.rs:43-55 | a prefixed chat message becomes the command parsed from the text after the prefix |
| CoreCommand.PastaLines | core/src/command.rs:58-69 | one listing line per pasta name, in order |
| CoreCommand.ListingNamesEveryPasta | core/src/command.rs:58-69 | every pasta in the collection appears in the `pasta list` reply |
| CoreCommand.HelpLines | core/src/command.rs:50-57 | one help line per entry, in order |
| CoreCommand.FoldHelpLines | core/src/command.rs:50-57 | the help fold puts a newline and then each entry on a line of its own |
| CoreCommand.HelpAsWrittenAdvertisesUndefinedCommand | core/src/command.rs:50-57 | the help reply built from the variant names has a line for `copypasta`, and the parser rejects `copypasta list` as undefined |
| CoreCommand.KeywordParses | core/src/command.rs:101-110 | each command word alone parses to its command with an empty argument |
| CoreCommand.HelpEntriesParse | core/src/command.rs:50-57 | the corrected help lists four words, each one the parser accepts |
| CoreCommand.HelpText | core/src/command.rs:50-57 | the help built from a list of entries is a newline followed by one line per entry, in order, and empty for no entries |
| CoreCommand.HelpListsEach | core/src/command.rs:50-57 | every entry the help is built from has its line somewhere in the help text |
| CoreCommand.Execute | core/src/command.rs:42-72 | echo answers its text; a roll answers the roller's rendering, or fails with the roller's error, which is the only failure; help answers the help built from the variant names as the code does, so it lists `copypasta`; `pasta list` answers the listing; another pasta name answers its text or `try again loser` |
| CoreCommand.EchoRoundTrip | core/src/command.rs:42-72 | executing the parse of `echo m` gives back `m`, whatever the roller and pastas |
| EventProcessor.EventErrorText | core/src/event_processor.rs:14-21 | the display text of an event error; `EventErrorTextInjective` states that distinct errors show distinct texts |
| EventProcessor.EventErrorTextInjective | core/src/event_processor.rs:14-21 | two event errors show the same text exactly when they are equal, for parse errors whose command is a single word |
| EventProcessor.RenderWithoutThinkingParts | core/src/event_processor.rs:139-151 | the rendering of the message is its display with every thinking part removed |
| EventProcessor.Raw | core/src/event_processor.rs:134-137 | a single text part, which both renderings give back as the string |
| EventProcessor.NewEvent | core/src/event_processor.rs:43-55 | a natural-language input is kept raw; a command input succeeds exactly when it starts with the prefix and then holds the stripped command; the failure is `MissingPrefix` of the content |
| EventProcessor.NewEventExample | core/src/event_processor.rs:259-270 | `!ultron hello` is an anonymous command event holding `hello` |
| Processing.NewProcessor | core/src/event_processor.rs:66-83 | the conversation starts with exactly one natural-language event from the bot holding the system prompt |
| Processing.DefaultProcessor | core/src/event_processor.rs:58-63 | the test processor starts with no events |
| Processing.Process | core/src/event_processor.rs:87-118 | a command event answers a plain reply, or fails with the parse or execution error; a natural-language event answers the model's reply to the conversation plus the event, as a bot message; nothing is ignored |
| Processing.CommandsIgnoreLanguageModel | core/src/event_processor.rs:87-118 | a command's answer does not depend on the conversation or the language model |
| Processing.EchoAnswersWithMessage | core/src/event_processor.rs:87-118 | `!ultron echo m` is answered with `m` |
| Processing.EchoLineTrimmed | core/src/command.rs:88-112 | the written-out echo command is trimmed and not empty |
| Processing.EchoHelloExample | core/src/event_processor.rs:259-270 | `!ultron echo hello` is answered `hello` |
| MessageParts.SplitAsWritten | core/src/event_processor.rs:231-253 | `split_next_thinking_section` as written: both tags are searched from the start of the message. Its partners state that a found section puts the message back together, that it agrees with the corrected split wherever it does not slice backwards, and that a closing tag before the first opening tag makes it slice backwards |
| MessageParts.SplitAsWrittenReassembles | core/src/event_processor.rs:231-253 | as written: a found section puts the message back together as text, start tag, thinking, end tag, rest |
| MessageParts.Split | core/src/event_processor.rs:231-253 | the corrected split, which searches the end tag only after the start tag. Its partners state that a found section puts the message back together, that the section is the first one, and that there is none only when no end tag follows a start tag |
| MessageParts.SplitReassembles | core/src/event_processor.rs:231-253 | corrected split, which searches the end tag only in the text after the start tag: a found section puts the message back together in the same way |
| MessageParts.SplitFindsFirstSection | core/src/event_processor.rs:231-253 | the section found is the first one: no start tag before it and no end tag inside it |
| MessageParts.SplitNoneMeansNoSection | core/src/event_processor.rs:231-253 | no section is found only when no end tag follows any start tag |
| MessageParts.SplitAsWrittenAgrees | core/src/event_processor.rs:231-253 | wherever the code as written does not panic, it finds the same section as the corrected split |
| MessageParts.SplitAsWrittenPanicsOnEarlyClose | core/src/event_processor.rs:236-252 | `</think><think>hi</think>` makes the code as written slice backwards, while the corrected split finds the section |
| MessageParts.EarlyClose | core/src/event_processor.rs:236-252 | for any non-empty start tag, an end tag before the first start tag makes the code as written slice backwards, while the corrected split finds a section |
| MessageParts.PartsAsWrittenPanicsOnEarlyClose | core/src/event_processor.rs:199-253 | on `</think><think>hi</think>` the first call of `next` as written panics, so draining the iterator panics |
| MessageParts.NextStep | core/src/event_processor.rs:199-228 | the step `next` takes on the corrected split: nothing exactly at the end; otherwise the part cut from the front of the unread text; a text part is never empty; with a delimiter present, each step makes progress |
| MessageParts.NextStepAsWritten | core/src/event_processor.rs:199-253 | the step `next` takes on the split as written: it ends exactly at the end of the text, panics only where that split slices backwards, and otherwise moves forward and stays inside the text |
| MessageParts.NextStepAsWrittenAgrees | core/src/event_processor.rs:199-253 | wherever the step as written does not panic, it is the corrected step |
| MessageParts.Parts | core/src/event_processor.rs:199-228 | the parts the iterator would yield on the corrected split: none exactly when the message is empty |
| MessageParts.PartsAsWritten | core/src/event_processor.rs:199-228 | draining the iterator as written: no parts exactly for the empty message, at most one part per character, `None` where some `next` panics, and otherwise exactly the corrected parts (`PartsAsWrittenAgrees`) |
| MessageParts.PartsAsWrittenAgrees | core/src/event_processor.rs:199-253 | wherever draining the iterator as written does not panic, it yields exactly the corrected parts |
| MessageParts.PartsReassemble | core/src/event_processor.rs:199-228 | the parts put back together give exactly the message, and no text part is empty |
| MessageParts.PartsWithoutThinking | core/src/event_processor.rs:315-324 | a non-empty message without a start tag is one text part |
| MessageParts.SplitFromSection | core/src/event_processor.rs:231-253 | once the text before a section is consumed, the split of what is left starts with that section |
| MessageParts.TextFollowedByThinking | core/src/event_processor.rs:199-228 | a text part that stops early is followed by a thinking part |
| MessageParts.PartsAlternate | core/src/event_processor.rs:199-228 | no two text parts are adjacent |
| MessageParts.SplitAtSection | core/src/event_processor.rs:231-253 | a tag-free text, one section and anything after split at that section |
| MessageParts.SplitAtTaggedSection | core/src/event_processor.rs:231-253 | the same for any two delimiters opening with `<` |
| MessageParts.PartsOfLeadingSection | core/src/event_processor.rs:199-228 | a message opening with a section yields that thinking part first |
| MessageParts.PartsOfSection | core/src/event_processor.rs:199-228 | text then a section yields the text part and then the thinking part |
| MessageParts.PartsOfTagFree | core/src/event_processor.rs:199-228 | a tag-free message is one text part |
| MessageParts.TextThinkingTextExample | core/src/event_processor.rs:294-313 | the test message (`This is a test <think>thinking part</think> and another part.`, stated in its pieces) yields text, thinking, text with the expected contents, and the iterator as written yields them without panicking |
| MessageParts.SplitAsWrittenAtSection | core/src/event_processor.rs:231-253 | with `<think>`-like delimiters, the split as written does not panic on a tag-free text, one section and anything after it, and finds that section |
| MessageParts.PartsAsWrittenOfTagFree | core/src/event_processor.rs:199-228 | the iterator as written does not panic on a tag-free message |
| MessageParts.PartsAsWrittenOfLeadingSection | core/src/event_processor.rs:199-228 | a section at the front adds no panic to what follows it |
| MessageParts.PartsAsWrittenOfSection | core/src/event_processor.rs:199-228 | tag-free text and a section in front add no panic to what follows them |
| MessageParts.PartsAsWrittenOfOneSection | core/src/event_processor.rs:199-228 | on a tag-free text, one section and a tag-free text the iterator as written does not panic and yields exactly the parts of the message |
| MessageParts.PartsIterator.constructor | core/src/event_processor.rs:186-193 | the cursor starts at 0, so the whole message is unread |
| MessageParts.PartsIterator.Next | core/src/event_processor.rs:199-228 | takes the step as written: yields the next part and moves the cursor past exactly the text that part was cut from; at the end reports exhaustion and stays put; where the split as written slices backwards, reports the panic |
| MessageParts.CollectParts | core/src/event_processor.rs:126-131 | draining the iterator panics exactly when some step as written does; otherwise it gives the parts of the message, which put back together give the message |
| MessageParts.TextOnly | core/src/event_processor.rs:139-151 | only text parts remain |
| MessageParts.TextOnlySources | core/src/event_processor.rs:139-151 | the text parts kept are exactly the texts of the message, in order |
| MessageParts.TextOnlyKeepsText | core/src/event_processor.rs:139-151 | a message without thinking parts keeps all its parts |
| MessageParts.Display | core/src/event_processor.rs:154-167 | a single part is displayed as the text it was cut from |
| MessageParts.RenderWithoutThinking | core/src/event_processor.rs:139-151 | the rendering is the display of the text parts alone |
| MessageParts.RenderWithoutThinkingNoThinking | core/src/event_processor.rs:364-371 | without thinking parts, both renderings agree |
| MessageParts.DisplayAppend | core/src/event_processor.rs:154-167 | displaying two runs of parts puts a newline between them |
| LanguageModelResponse.RenderWithoutThinkingParts | core/src/nlp/response.rs:24-36 | the display of the response with its thinking parts removed |
| LanguageModelResponse.Raw | core/src/nlp/response.rs:18-21 | one text part, rendered as the string either way |
| LanguageModelResponse.FromModelOutput | core/src/nlp/response.rs:9-14 | collecting panics exactly when the iterator as written does; otherwise the parts are the parts of the output, put back together they give the output, and no text part is empty |
| LanguageModelResponse.RenderAroundThinking | core/src/nlp/response.rs:24-36 | text, thinking, text renders as the two texts on two lines; the display keeps the tags |
| LanguageModelResponse.RenderExample | core/src/nlp/response.rs:214-225 | the rendering test's expected string |
| LanguageModelResponse.OutputWithOneSection | core/src/nlp/response.rs:157-176 | tag-free text around one section gives text, thinking, text, and the iterator as written yields them without panicking |
| LanguageModelResponse.RenderOfOneSection | core/src/nlp/response.rs:214-225 | that output renders as the two texts on two lines |
| LanguageModelResponse.MultipleSectionsExample | core/src/nlp/response.rs:189-212 | the two-section test message yields its five parts in order, also through the iterator as written |
| LanguageModelResponse.OutputWithTwoSections | core/src/nlp/response.rs:189-212 | two sections between tag-free texts give five alternating parts, also through the iterator as written |
| LanguageModelResponse.NoThinkingExample | core/src/nlp/response.rs:178-187 | a message without tags is one text part, also through the iterator as written |
| HttpServer.TagNamesDistinct | core/src/http_server.rs:25-39 | every OpenAPI tag name is snake case, and distinct tags have distinct names |
| HttpServer.RoutePath | core/src/http_server.rs:86-99 | every route path is absolute |
| HttpServer.RoutePathsDistinct | core/src/http_server.rs:86-99 | no two routes share a path |
| HttpServer.IndexPage | core/src/http_server.rs:164-166 | the index answers `Hello, World!`, not the healthcheck body |
| HttpServer.HealthcheckPage | core/src/http_server.rs:176-178 | the healthcheck answers `OK` |
| HttpServer.ServerErrorText | core/src/http_server.rs:43-59 | the display text of a server error; `ServerErrorTextInjective` states that distinct errors show distinct texts |
| HttpServer.ServerErrorTextInjective | core/src/http_server.rs:43-59 | two server errors show the same text exactly when they are equal, for event errors whose command is a single word |
| HttpServer.IntoResponse | core/src/http_server.rs:262-273 | every server error is a 500 whose body is the error's display text |
| HttpServer.BindFailureNamesPort | core/src/http_server.rs:43-46 | two bind failures have the same body only for the same port |
| HttpServer.ToEvent | core/src/http_server.rs:193-201 | the event keeps the user, the event type, and the input as one raw text part that renders back to it |
| HttpServer.PostedCommandParsesInput | core/src/http_server.rs:213-244 | a command posted over HTTP is parsed from the input exactly as typed, with no prefix required |
| HttpServer.PostedEchoExample | core/src/http_server.rs:297-313 | `echo hello` posted as a command is answered `hello` |
| Discord.ById | ultron_discord/src/lib.rs:131-133 | finds a channel exactly when the id is in the table, and returns the one stored |
| Discord.ByName | ultron_discord/src/lib.rs:135-137 | finds an id exactly when the channel is in the table, and returns the one stored |
| Discord.NewChannelsTables | ultron_discord/src/lib.rs:117-129 | the two tables hold exactly the five configured pairs, one in each direction |
| Discord.ChannelsAreInverse | ultron_discord/src/lib.rs:110-138 | every channel is configured and the two tables are inverse to each other |
| Discord.SendTarget | ultron_discord/src/lib.rs:143-152 | posts to the channel's configured id, or fails with `ChannelNotConfigured` |
| Discord.Recognize | ultron_discord/src/lib.rs:191-196 | an incoming channel id is accepted exactly when configured, else `ChannelNotRecognized` |
| Discord.SendThenRecognize | ultron_discord/src/lib.rs:110-152 | a reply to any channel goes to an id that is recognized as that same channel |
| Discord.UnknownIdRejected | ultron_discord/src/lib.rs:191-196 | an id outside the five configured ones is rejected |
| Discord.ErrorReply | ultron_discord/src/lib.rs:252-283 | every event error except a missing prefix gets a reply ending in the help message; agent errors start `brain hurty: `, the others `ya blew it: ` |
| Discord.ParseFailuresGetReply | ultron_discord/src/lib.rs:258-268 | every input the command parser rejects gets a reply |
| Discord.UndefinedCommandReplyExample | ultron_discord/src/lib.rs:263-266 | the reply to `undefined hello` quotes the word and shows the args as `Some("hello")` |
| Discord.UndefinedCommandReply | ultron_discord/src/lib.rs:263-266 | the reply to an undefined command is the quoted word, the Debug form of its args, a blank line and the help |
| Discord.ResponseChunks | ultron_discord/src/lib.rs:285-313 | an ignored response posts nothing; plain chat is split as is; a bot message is split after its thinking parts are removed |
| DiscordSplit.Group | ultron_discord/src/lib.rs:325-347 | the greedy grouping of the words into chunks; `GroupFlatten`, `GroupFits`, `GroupLongWordsAlone` and `GroupGreedy` state its properties |
| DiscordSplit.SplitSpec | ultron_discord/src/lib.rs:325-347 | the chunks of that grouping, each joined by single spaces; `SplitMessage` is proved equal to it, and `SplitKeepsWords`, `SplitFits` and `SplitGreedy` state its properties |
| DiscordSplit.Chunks | ultron_discord/src/lib.rs:325-347 | each chunk is its group's words joined by single spaces |
| DiscordSplit.GroupFlatten | ultron_discord/src/lib.rs:329-340 | the grouping loses, duplicates and reorders no word |
| DiscordSplit.GroupFits | ultron_discord/src/lib.rs:329-340 | when every word fits the limit, every chunk does |
| DiscordSplit.GroupLongWordsAlone | ultron_discord/src/lib.rs:329-340 | a group of several words holds only words shorter than the limit |
| DiscordSplit.GroupGreedy | ultron_discord/src/lib.rs:329-340 | a chunk is closed only when the next word would not fit in it |
| DiscordSplit.AddWord | ultron_discord/src/lib.rs:330-339 | one pass of the loop body advances the chunks and the open chunk exactly as the greedy grouping takes one word |
| DiscordSplit.SplitMessage | ultron_discord/src/lib.rs:325-347 | the loop returns exactly the greedy grouping of the message's words |
| DiscordSplit.SplitKeepsWords | ultron_discord/src/lib.rs:323-347 | the chunks hold the message's words, in order, each whole in exactly one chunk |
| DiscordSplit.SplitChunksNonEmpty | ultron_discord/src/lib.rs:331-344 | no chunk is empty or padded with whitespace, and there are no chunks exactly when the message has no words |
| DiscordSplit.SplitFits | ultron_discord/src/lib.rs:323-347 | when no word exceeds the limit, every chunk is at most the limit in bytes |
| DiscordSplit.SplitLongWordAlone | ultron_discord/src/lib.rs:330-335 | a word as long as the limit or longer is a chunk on its own |
| DiscordSplit.SplitGreedy | ultron_discord/src/lib.rs:330-335 | every chunk but the last was closed because the next word would have overflowed it |
| LegacyCommands.ParseMessage | src/commands.rs:30-46 | `!help`, `!ping`, `!about`, `!coins` match exactly; `!coins` carries the channel; any other message naming the bot is an announcement; the rest is `UnknownCommand` of the text |
| LegacyCommands.Process | src/commands.rs:20-28 | each command has a non-empty fixed reply |
| LegacyCommands.MentionAnnounces | src/commands.rs:30-46 | a message naming the bot is an announcement unless it is an exact command |
| LegacyCommands.MatchingIsExact | src/commands.rs:30-46 | a trailing space or upper case is not a command |
| LegacyCommands.NoMention | src/commands.rs:30-46 | a short text names the bot only by being its name |
| LegacyCommands.RepliesDistinct | src/commands.rs:20-28 | the four fixed replies are distinct |
| LegacyCommands.PingExample | src/commands.rs:4-9 | `!ping` is answered `hello` |
| Ledgers.Incremented | src/coins/ledger.rs:15-25 | the user's balance gains the amount, a missing account is created, and every other balance is unchanged |
| Ledgers.Transferred | src/coins/ledger.rs:27-30 | the sender loses and the receiver gains the amount, with no funds check; a self-transfer changes nothing |
| Ledgers.WithAccount | src/coins/ledger.rs:33-41 | looking up a balance creates a missing account at 0 and changes no balance |
| Ledgers.WithAccounts | src/coins/ledger.rs:43-48 | looking up several users creates the missing ones at 0 and keeps every stored balance |
| Ledgers.BalancesOf | src/coins/ledger.rs:43-48 | one pair per user asked, in order, each with that user's balance |
| Ledgers.IncrementTotal | src/coins/ledger.rs:15-25 | an increment changes the coins in circulation by exactly its amount |
| Ledgers.TransferTotal | src/coins/ledger.rs:27-30 | a transfer neither creates nor destroys coins |
| Ledgers.IncrementThenDecrement | src/coins/ledger.rs:15-25 | adding and then removing an amount restores the balance |
| Ledgers.Ledger.constructor | src/coins/ledger.rs:58-64 | the default ledger is empty |
| Ledgers.Ledger.IncrementBalance | src/coins/ledger.rs:15-25 | the table becomes the incremented table |
| Ledgers.Ledger.Transfer | src/coins/ledger.rs:27-30 | the table becomes the transferred table |
| Ledgers.Ledger.GetBalance | src/coins/ledger.rs:33-41 | returns the stored balance (0 when missing) and creates the account |
| Ledgers.Ledger.GetBalances | src/coins/ledger.rs:43-48 | returns the pairs of `BalancesOf` and creates every missing account |
| Ledgers.Ledger.GetAllBalances | src/coins/ledger.rs:50-55 | every stored account exactly once, with its balance |
| Coins.Logged | src/coins.rs:270-288 | the user is in the server's list afterwards, appended only if new; other servers are unchanged |
| Coins.LoggedWellFormed | src/coins.rs:270-288 | logging keeps every list free of duplicates |
| Coins.LoggedIdempotent | src/coins.rs:270-288 | logging a user twice equals logging them once |
| Coins.DailyLog.constructor | src/coins.rs:259-265 | a fresh log has no lists |
| Coins.DailyLog.GetOrCreate | src/coins.rs:291-303 | returns the server's list, creating it empty, and changes nothing else |
| Coins.DailyLog.Clear | src/coins.rs:306-308 | forgets every list and keeps the epoch |
| Coins.DailyLog.LogUser | src/coins.rs:270-288 | past the epoch, the lists are cleared and the epoch moves on; reports whether this is the user's first claim, and logs the user |
| Coins.Tipped | src/coins.rs:126-152 | the tipper gains 1 and the receiver 2; every other balance is unchanged |
| Coins.Untipped | src/coins.rs:153-179 | the untipper loses 1 and the receiver 2; every other balance is unchanged |
| Coins.UntipUndoesTip | src/coins.rs:126-179 | an untip after a tip restores both balances |
| Coins.TipMintsThree | src/coins.rs:126-152 | a tip puts three new coins into circulation |
| Coins.Bank.constructor | src/coins.rs:84-90 | a bank with no ledgers and the given daily log |
| Coins.Bank.ProcessTransaction | src/coins.rs:94-237 | only the transaction's server's ledger can change; transfer, tip, untip, daily and balance do what their arms say; a self-tip or self-untip is refused with nothing changed |
| Coins.Bank.ProcessTransfer | src/coins.rs:98-115 | the server's ledger becomes the transferred ledger and both new balances are reported |
| Coins.Bank.ProcessGetAllBalances | src/coins.rs:116-125 | lists every account of the server, changing nothing |
| Coins.Bank.ProcessTip | src/coins.rs:126-179 | a self-tip is refused; otherwise the ledger becomes the tipped or untipped ledger and both balances are reported |
| Coins.Bank.ProcessDaily | src/coins.rs:180-222 | the award is paid only on the user's first claim in the epoch; a repeat is refused with nothing paid |
| Coins.Bank.ProcessGetUserBalance | src/coins.rs:223-235 | reports exactly the user's balance, creating the account at 0 |
| UserLogs.WithUser | src/data.rs:23-38 | the user is in the channel's list afterwards, appended only if new; every other channel is unchanged |
| UserLogs.WithUserWellFormed | src/data.rs:23-38 | seeing a user keeps every list free of duplicates |
| UserLogs.WithUserIdempotent | src/data.rs:23-38 | seeing a user a second time changes nothing |
| UserLogs.UserLog.constructor | src/data.rs:17-19 | the empty log |
| UserLogs.UserLog.GetOrCreateChannelLog | src/data.rs:40-67 | returns the channel's list, creating the entries empty, without changing any list |
| UserLogs.UserLog.LogUser | src/data.rs:23-38 | every channel's list becomes the one `WithUser` gives |
| Ids.FromU64 | db/src/ids.rs:40-44 | the id holds exactly the number |
| Ids.EqU64Exact | db/src/ids.rs:46-50 | an id equals a number exactly when it was made from it |
| Ids.IntoI64 | db/src/ids.rs:64-68 | the `as i64` cast lies in the `i64` range and agrees with the id modulo 2^64 |
| Ids.IntoI64Injective | db/src/ids.rs:64-68 | the cast loses nothing: distinct ids give distinct `i64`s |
| Ids.Display | db/src/ids.rs:52-56 | an id displays as non-empty text |
| Ids.ParseId | db/src/ids.rs:70-77 | succeeds exactly when `u64` parsing does, with its value; otherwise `IdParse` carrying the parse error |
| Ids.FromStr | db/src/ids.rs:70-77 | an id parsed from text, or the parse error |
| Ids.FromStrDisplay | db/src/ids.rs:52-77 | reading back a displayed id gives the same id |
| Ids.FromStrRejects | db/src/ids.rs:70-77 | text that is not a run of digits, or a number beyond `u64::MAX`, is an `IdParse` error |
| Decimal.Show | db/src/ids.rs:52-56 | the canonical decimal form: digits only, no leading zero |
| Decimal.ParseU64 | db/src/ids.rs:70-77 | the empty string is exactly the `Empty` error |
| Decimal.ParseShow | db/src/ids.rs:52-77 | parsing the displayed form gives the number back |
| Decimal.ShowInjective | db/src/ids.rs:52-56 | different numbers display differently |
| Decimal.RejectsNonNumeric | db/src/ids.rs:70-77 | anything but an optionally `+`-signed run of digits is rejected |
| Decimal.AccumulateValue | db/src/ids.rs:70-77 | a run of digits parses to its value when below 2^64, and to `PosOverflow` otherwise |
| Decimal.RejectsOutOfRange | db/src/ids.rs:70-77 | numbers beyond `u64::MAX` are `PosOverflow` |
| DebugFormat.Escape | core/src/command.rs:18-22 | the escaped body is at least as long as the string; which characters get a letter escape and which a `\u{…}` escape is pinned down by `UnescapeEscape` and `ControlEscapeExample` |
| DebugFormat.ControlEscapeExample | core/src/command.rs:18-22 | the bell and escape characters render as `\u{7}` and `\u{1b}` |
| DebugFormat.UnescapeEscape | core/src/command.rs:18-22 | the escaped body reads back as the string |
| DebugFormat.EscapePlain | core/src/command.rs:18-22 | text with no quote, backslash, tab, newline, carriage return, NUL or other control character escapes to itself |
| DebugFormat.EscapeInjective | core/src/command.rs:18-22 | different strings render differently |
| DebugFormat.QuotedString | core/src/command.rs:18-22 | the rendering is wrapped in double quotes |
| DebugFormat.DebugOption | core/src/command.rs:18-22 | `None` renders as `None` and nothing else does |
| DebugFormat.DebugOptionExample | ultron_discord/src/lib.rs:263-266 | `Some("hello")` renders as `Some("hello")` |
| Strings.Trim | core/src/chatbot/mod.rs:54-59 | the result is trimmed and no longer than the input |
| Strings.TrimSurroundings | core/src/chatbot/mod.rs:54-59 | the input is whitespace, the trimmed result, whitespace |
| Strings.TrimOfPadded | core/src/chatbot/mod.rs:54-59 | trimming removes exactly the whitespace around a trimmed core |
| Strings.Words | core/src/command.rs:92-96 | `split_whitespace` yields non-empty, whitespace-free words |
| Strings.WordsOfJoin | core/src/command.rs:92-99 | splitting words joined by single spaces gives the words back |
| Strings.StripPrefix | core/src/chatbot/mod.rs:54-59 | succeeds exactly when the prefix is there, and the prefix followed by the result is the input |
| Strings.Find | core/src/event_processor.rs:231-253 | the first occurrence of the pattern, or none when it never occurs |
| Strings.ByteLength | ultron_discord/src/lib.rs:330 | `str::len`: between one and four bytes per character |
| Strings.ByteLengthAppend | ultron_discord/src/lib.rs:330 | the byte length of a concatenation is the sum of the byte lengths |
| DbModel.NewChannelUser | db/src/model.rs:36-58 | the accessors read back the three ids |
| DbModel.NewBankAccount | db/src/model.rs:69-86 | the accessors read back the ids, and the balance is stored unchanged |
| DbModel.NewInventoryItem | db/src/model.rs:98-116 | never fails; the accessors read back the ids, and the item id is stored |
| DbModel.NewOptout | db/src/lib.rs:341-350 | the stored ids read back as the ids given |
| DbModel.NewBankAccountInjective | db/src/model.rs:69-78 | rows built from different ids are different rows |
| DbModel.StoredIdMustParse | db/src/model.rs:84-86 | a stored server id that is not a `u64` makes the accessor fail with `IdParse` |
| DbTables.Key | db/src/lib.rs:52-69 | the key's texts parse back to the two ids |
| DbTables.KeyInjective | db/src/lib.rs:52-69 | different ids give different keys |
| DbTables.Row | db/src/model.rs:61-67 | the row stored under a key carries that key and its balance |
| DbTables.Inserted | db/src/lib.rs:220-225 | succeeds, counting 1, exactly when the row is new; otherwise `UniqueViolation` |
| DbTables.InsertedOrIgnored | db/src/lib.rs:243-248 | the row is present afterwards, nothing else changes, and the count is 0 exactly when it was already there |
| DbTables.Deleted | db/src/lib.rs:328-339 | the row is absent afterwards, nothing else changes, and the count is 1 exactly when it was there |
| DbTables.DeleteUndoesInsert | db/src/lib.rs:328-339 | inserting a new row and deleting it restores the table |
| DbTables.Tipped | db/src/lib.rs:116-151 | the sender's row gains 1 and the receiver's 2, either created if missing; other rows are unchanged |
| DbTables.UntippedAsWritten | db/src/lib.rs:153-190 | as written: the sender loses 1, an existing receiver loses 2, and a missing receiver is created holding 2 |
| DbTables.UntippedIntended | db/src/lib.rs:153-190 | corrected: the sender loses 1 and the receiver 2, either created if missing |
| DbTables.TipMintsThree | db/src/lib.rs:116-151 | a tip puts three coins into circulation |
| DbTables.UntipIntendedBurnsThree | db/src/lib.rs:153-190 | the corrected untip takes three coins out of circulation |
| DbTables.UntipIntendedUndoesTip | db/src/lib.rs:116-190 | the corrected untip after a tip restores both balances |
| DbTables.UntipAsWrittenUndoesTip | db/src/lib.rs:116-190 | right after a tip, the untip as written also restores both balances |
| DbTables.UntipAsWrittenCreditsNewReceiver | db/src/lib.rs:161-162 | aimed at a receiver without an account, the untip as written credits 2, differs from the corrected untip, and adds a coin to circulation |
| DbTables.TransferOutcome | db/src/accounts.rs:20-82 | an amount outside `i32` is `CoinOverflow`; a missing sender is `RowNotFound`; a balance below the amount is `InsufficientFunds`; otherwise the sender loses and the receiver gains the amount, and both rows are returned |
| DbTables.TransferConserves | db/src/accounts.rs:20-82 | a successful transfer neither creates nor destroys coins, and never takes a non-negative sender below 0 |
| DbTables.TransferAllLeavesZero | db/src/accounts.rs:45-60 | sending a whole balance leaves the sender at exactly 0 |
| DbTables.ChannelBalances | db/src/lib.rs:227-241 | the server's accounts of the users seen in the channel; `LoggedUserListed` and `ChannelBalancesOfServer` state what it lists and what it leaves out |
| DbTables.LoggedUserListed | db/src/lib.rs:227-241 | once a user has been seen in a channel, their account is among the channel's balances |
| DbTables.ChannelBalancesOfServer | db/src/lib.rs:227-241 | users seen in another server do not change the result, and only stored rows of the server appear |
| DbTables.BuyerKey | db/src/lib.rs:267-280 | the buyer's key, or the error of the first stored id that does not parse |
| DbTables.Purchase | db/src/lib.rs:267-309 | bad ids, a missing item, or a missing account fail before anything changes; a balance above the price inserts the row and takes the price, with the balance staying at least 1; otherwise `InsufficientFunds` |
| DbTables.PurchaseCostsPrice | db/src/lib.rs:267-309 | a purchase takes exactly the item's price out of circulation |
| DbTables.HasItem | db/src/inventory.rs:41-56 | an item id outside `i32` is `BadId`; otherwise true exactly when the row exists |
| DbTables.HasItemAfterAddAndDelete | db/src/inventory.rs:41-56 | an added row is held, and a deleted one no longer is |
| DbTables.InventoryOf | db/src/inventory.rs:27-39 | the catalog items a user holds in a server; `InventoryOfIgnoresOthers` and `PurchasedItemListed` state what it lists and what it leaves out |
| DbTables.InventoryOfIgnoresOthers | db/src/inventory.rs:27-39 | rows of other users or other servers never show in a user's inventory |
| DbTables.PurchasedItemListed | db/src/inventory.rs:27-39 | a purchased item shows in the buyer's inventory |
| DbTables.OptoutAsWritten | db/src/lib.rs:341-365 | as written: a plain insert succeeds exactly when the user has not opted out |
| DbTables.OptoutCount | db/src/lib.rs:350-364 | the altered-row count is accepted exactly when at most 1 |
| DbTables.OptoutAsWrittenRejectsRepeat | db/src/lib.rs:341-365 | opting out twice fails on the primary key instead of reaching the already-opted-out branch |
| DbTables.OptoutIntended | db/src/lib.rs:341-365 | corrected: opting out always succeeds and leaves the user opted out |
| DbTables.Optin | db/src/lib.rs:367-395 | opting in always succeeds and leaves the user opted in |
| DbTables.OptoutIntendedIdempotent | db/src/lib.rs:341-395 | with the corrected opt-out, opting out twice equals once, and opting in afterwards restores the table |
| DbTables.DeleteOutcome | db/src/lib.rs:328-339 | succeeds exactly when the row is held, removing it; otherwise `NotFound("no record found to delete")` |
| Database.Enumerate | db/src/lib.rs:262-264 | lists every row of the table exactly once |
| Database.Db.constructor | db/src/lib.rs:29-32 | a store with empty tables |
| Database.Db.UserAccount | db/src/lib.rs:52-69 | succeeds exactly when the pair has an account, returning its row; otherwise `NotFound` naming both ids |
| Database.Db.AccountRow | db/src/accounts.rs:96-107 | the same lookup, failing with `RowNotFound` |
| Database.Db.InsertBankAccount | db/src/lib.rs:81-87 | an amount outside `i32` is refused; an existing pair is `UniqueViolation`; a fitting amount for a new pair succeeds with one row and creates the account holding the amount; other tables are unchanged |
| Database.Db.UpdateBalance | db/src/lib.rs:89-99 | sets an existing balance (count 1), counts 0 for a missing pair, and refuses values outside `i32` |
| Database.Db.IncrementBalance | db/src/lib.rs:102-114 | the accounts become the incremented table; amounts outside `i32` are refused |
| Database.Db.Tip | db/src/lib.rs:116-151 | a self-tip is refused with nothing changed; otherwise the accounts become the tipped table |
| Database.Db.Untip | db/src/lib.rs:153-190 | a self-untip is refused; otherwise the accounts become the untipped table as written |
| Database.Db.TransferCoins | db/src/lib.rs:192-200 | commits the transfer outcome and returns both rows, or returns its error with nothing changed |
| Database.Db.Highest | db/src/accounts.rs:84-94 | an account of the server whose balance is at least every other account of that server; `RowNotFound` exactly when the server has none |
| Database.Db.InsertChannelUser | db/src/lib.rs:220-225 | a plain insert, so seeing a user twice is `UniqueViolation` |
| Database.Db.LogUser | db/src/lib.rs:243-248 | an insert-or-ignore: the user is recorded and the count is 0 exactly when they already were |
| Database.Db.ChannelUserBalances | db/src/lib.rs:227-241 | each account of the channel's seen users in that server, exactly once |
| Database.Db.AddInventoryItem | db/src/lib.rs:267-309 | commits the purchase outcome, or returns its error with nothing changed |
| Database.Db.AddItem | db/src/inventory.rs:17-25 | a plain insert of the row |
| Database.Db.DeleteInventoryItem | db/src/lib.rs:328-339 | removes a held row; a missing one is `NotFound` with nothing changed |
| Database.Db.ShowAll | db/src/inventory.rs:11-15 | every inventory row exactly once |
| Database.Db.UserInventory | db/src/lib.rs:315-319 | each catalog item the user holds in the server, exactly once |
| Database.Db.UserHasItem | db/src/lib.rs:321-326 | fails exactly when the item id is outside `i32`; otherwise true exactly when the user holds the item |
| Database.Db.Optout | db/src/lib.rs:341-365 | commits the opt-out as written: a repeat fails with nothing changed |
| Database.Db.Optin | db/src/lib.rs:367-395 | always succeeds, leaving the user opted in |
| RbatisDb.NewAccount | rbatis/src/accounts.rs:18-58 | a row for the key holding the balance |
| RbatisDb.AccountOf | rbatis/src/accounts.rs:7-16 | the row for the key exactly when it is stored |
| RbatisDb.NegI64 | rbatis/src/lib.rs:99 | negates, except that `i64::MIN` wraps to itself |
| RbatisDb.Adjusted | rbatis/src/accounts.rs:18-58 | succeeds exactly when the amount and the new balance fit `i32`, otherwise `CoinOverflow` of the amount; a missing row is created, and the returned account holds the new balance |
| RbatisDb.AdjustedTwice | rbatis/src/lib.rs:53-105 | both adjustments take effect; otherwise the error is `CoinOverflow` of the first amount when the first adjustment fails, and of the second amount when only the second fails |
| RbatisDb.AdjustRoundTrip | rbatis/src/accounts.rs:18-58 | adjusting by `a` and then by `-a` restores the balance |
| RbatisDb.AdjustOverflowExample | rbatis/src/accounts.rs:24-35 | an overflow reports the amount asked for |
| RbatisDb.TipThenUntipRestores | rbatis/src/lib.rs:53-87 | a tip followed by an untip restores both balances |
| RbatisDb.SelfTipAddsThree | rbatis/src/lib.rs:53-69 | with no self-tip check, tipping oneself adds 3 |
| RbatisDb.TransferMoves | rbatis/src/lib.rs:89-105 | a transfer moves exactly the amount, with no funds check, so a sender at 0 can go negative |
| RbatisDb.Db.constructor | rbatis/src/lib.rs:12-14 | the store over the given table |
| RbatisDb.Db.AdjustBalance | rbatis/src/lib.rs:44-51 | commits the adjustment, or returns its error with nothing changed |
| RbatisDb.Db.Transaction | rbatis/src/lib.rs:53-69 | commits both adjustments, or restores the table and returns exactly the failing adjustment's error |
| RbatisDb.Db.Tip | rbatis/src/lib.rs:53-69 | +1 for the first user and +2 for the second, in one transaction; on failure the table is unchanged and the failing adjustment's error is returned |
| RbatisDb.Db.Untip | rbatis/src/lib.rs:71-87 | −1 for the first user and −2 for the second, in one transaction; on failure the table is unchanged and the failing adjustment's error is returned |
| RbatisDb.Db.TransferCoins | rbatis/src/lib.rs:89-105 | `-amount` for the first user and `amount` for the second, in one transaction; on failure the table is unchanged and the failing adjustment's error is returned |

## Left out

- I/O is not modelled. This covers Discord and HTTP sockets, the database connection, JSON files (`Bank::save`/`load`, `UserLog::save`/`load`, `DailyLog::save`/`load`) and logging. The clock is a parameter (`now`, `nextEpoch`).
- The dice roller, the language model and `User::from(String)` are not part of this model. Each is a function parameter.
- The copypasta texts and `HELP_MESSAGE` are not part of this model. Each is a parameter.
- Concurrency is not modelled: async tasks and the bank's channel loop. Each operation is modelled as one atomic step.
- The axum router and OpenAPI document generation (`serve`, `create_router`, `api_doc`, `events`) are not modelled. Only the route table, the handlers' bodies and the error responses are.
- `command` in core/src/http_server.rs is modelled only through `ToEvent` and `Processing.Process`. Sending the reply to a `ChatBot` is I/O.
- `mentions_ultron` and `handle_message` in ultron_discord/src/lib.rs depend on serenity's message type and are not modelled. Their channel lookup is `Discord.Recognize`.
- `Discord.ErrorReply` models the error variants of the older core this transport was written against. Its `match` names variants that core/src/event_processor.rs no longer declares.
- `Ledgers.Incremented`: an `i64` overflow in `increment_balance` is not modelled. Balances are unbounded integers.
- `Database.Db.IncrementBalance`: reading back a balance beyond `i32` after the addition is not modelled. The store keeps the mathematical sum.
- `DbTables.TransferOutcome`: `-amount` is mathematical negation. Negating `i32::MIN` in db/src/accounts.rs:31 is not modelled as a wrap-around.
- Some row-count checks are unreachable, because each statement in the table model touches at most one row: tip and untip at db/src/lib.rs:142-150, the transfer at db/src/accounts.rs:69-79, the purchase at db/src/lib.rs:295-308, and more than one account in `user_account`. Their `Unexpected`/`RecordExists` errors are not produced.
- These store operations are not modelled: `show_accounts`, `user_accounts`, `show_channel_users`, `channel_users`, `all_items`, `create_item`, `update_item`, `item` and `all_optouts`. They are plain listings or writes with no behaviour beyond the table functions above.
- `items::create`, `items::update`, `items::get` and `inventory::delete_item` are not part of this model. Their sources are missing. `DeleteInventoryItem` assumes a delete by primary key.
- The `Optout` row type and the `SelfTip` error are used by db/src/lib.rs but declared in files that are not part of this model. Here they are declared as the code uses them.
- `Bank.user_log` is never used by `process_transaction`, so it is not a field of the model's `Bank`.
- `LegacyCommands.Process`: the `!coins` command reaches `todo!()` at src/commands.rs:26 and panics. The model requires another command instead of modelling the panic.
- The core event type is modelled as core/src/event_processor.rs declares it.
- `RbatisDb.Db.Transaction`: that a failed transaction leaves the table as it was is a property of rbatis (rollback on drop). The model takes it as given.
- `all_accounts` in rbatis is not modelled. `account` is modelled as `AccountOf`.
- The rbatis tests need a live database and are not modelled.
- `DebugFormat.Escape`: only the C0 and C1 control characters are written as `\u{…}`. Rust also escapes other characters its Unicode tables call non-printable or grapheme-extending (format characters, unassigned code points, combining marks). Those tables are not modelled, and such characters are written unescaped.
- `RbatisDb.NegI64`: `-amount` on `i64::MIN` is modelled as the wrap-around of a release build. A debug build panics there instead.
- `DiscordSplit`: `str::len` is modelled as the UTF-8 byte length of the characters. `split_whitespace` follows the Unicode White_Space set.

## Findings

| source | as written | input that shows it | evidently intended | confidence | as-written member | corrected member |
|---|---|---|---|---|---|---|
| core/src/event_processor.rs:236-252 | the end tag is searched from the start of the message, so a closing tag before the first opening tag gives a slice whose start is past its end, and the code panics | `</think><think>hi</think>` | search for the end tag after the start tag, and yield the section | not executed | MessageParts.PartsAsWrittenPanicsOnEarlyClose | MessageParts.SplitFindsFirstSection |
| core/src/command.rs:50-57 | the help text lists the variant names in snake case, so it advertises `copypasta` while the parser only accepts `pasta` | `copypasta list` | every word in the help is one the parser accepts | not executed | CoreCommand.HelpAsWrittenAdvertisesUndefinedCommand | CoreCommand.HelpEntriesParse |
| db/src/lib.rs:341-365 | `optout` uses a plain insert, so a second opt-out fails on the primary key, and the 0-rows "already opted out" branch can never run | opt out the same user twice | a repeated opt-out succeeds, as an insert-or-ignore does | not executed | DbTables.OptoutAsWrittenRejectsRepeat | DbTables.OptoutIntendedIdempotent |
| db/src/lib.rs:161-162 | `untip` upserts the receiver with a balance of `2`, so a receiver without an account is credited 2 instead of debited | untip toward a user who has no account | a missing receiver ends at −2 | not executed | DbTables.UntipAsWrittenCreditsNewReceiver | DbTables.UntipIntendedUndoesTip |
