/** Bot commands: parsing them from text and executing them
    (core/src/command.rs). */
module CoreCommand {
  import opened Wrappers
  import opened Strings
  import opened ChatTypes
  import ChatBot
  import EP = EventProcessor

  datatype Command = Echo(message: string) | Roll(dice: string) | Copypasta(name: string) | Help

  /** The word that selects each command. */
  function Keyword(c: Command): string {
    match c
    case Echo(_) => "echo"
    case Roll(_) => "roll"
    case Copypasta(_) => "pasta"
    case Help => "help"
  }

  /** The text a command carries; `Help` carries none. */
  function Argument(c: Command): string {
    match c
    case Echo(m) => m
    case Roll(d) => d
    case Copypasta(n) => n
    case Help => ""
  }

  const COMMAND_WORDS: set<string> := {"echo", "roll", "pasta", "help"}

  /** The `match` on the command word, given the rest of the input. */
  function Select(command: string, rest: string): (r: Result<Command, CommandParseError>)
    ensures r.Success? <==> command in COMMAND_WORDS
    ensures r.Success? ==> Keyword(r.value) == command && (!r.value.Help? ==> Argument(r.value) == rest)
    ensures r.Failure? ==> r.error == UndefinedCommand(command, if rest == [] then None else Some(rest))
  {
    if command == "echo" then Success(Echo(rest))
    else if command == "roll" then Success(Roll(rest))
    else if command == "pasta" then Success(Copypasta(rest))
    else if command == "help" then Success(Help)
    else Failure(UndefinedCommand(command, if rest == [] then None else Some(rest)))
  }

  /** `Command::from_str`: the first whitespace-separated word picks the
      command and the remaining words, joined with single spaces, are its
      argument. */
  function Parse(input: string): (r: Result<Command, CommandParseError>)
    ensures Words(input) == [] <==> r == Failure(MissingCommand(input))
    ensures Words(input) != [] ==> (r.Success? <==> Words(input)[0] in COMMAND_WORDS)
    ensures r.Success? ==> Keyword(r.value) == Words(input)[0]
    ensures r.Success? && !r.value.Help? ==> Argument(r.value) == JoinWith(Words(input)[1..], " ")
    ensures r.Success? && !r.value.Help? ==>
              Words(Argument(r.value)) == Words(input)[1..] && Trimmed(Argument(r.value))
    ensures r.Failure? && !r.error.MissingCommand? ==>
              && r.error.UndefinedCommand?
              && r.error.command == Words(input)[0]
              && (r.error.args.None? <==> |Words(input)| == 1)
              && (r.error.args.Some? ==> r.error.args.value == JoinWith(Words(input)[1..], " "))
              && (r.error.args.Some? ==> Words(r.error.args.value) == Words(input)[1..]
                                         && Trimmed(r.error.args.value))
  {
    var words := Words(input);
    if words == [] then Failure(MissingCommand(input))
    else
      var rest := JoinWith(words[1..], " ");
      WordsOfJoin(words[1..]);
      JoinOfWordsTrimmed(words[1..]);
      Select(words[0], rest)
  }

  /** The command written out as a user would type it. */
  function CommandLine(c: Command): string {
    if Argument(c) == [] then Keyword(c) else Keyword(c) + " " + Argument(c)
  }

  /** An argument as parsing produces it: single spaces between words, none
      around them. */
  predicate Normalized(arg: string) {
    arg == JoinWith(Words(arg), " ")
  }

  lemma KeywordIsWord(c: Command)
    ensures IsWord(Keyword(c))
  {
  }

  /** Parsing reads back every command written out with a normalized argument. */
  lemma ParseCommandLine(c: Command)
    requires Normalized(Argument(c))
    ensures Parse(CommandLine(c)) == Success(c)
  {
    var ws := Words(Argument(c));
    KeywordIsWord(c);
    JoinAfterKeyword(Keyword(c), ws);
    ParseOfWords(Keyword(c), ws);
    assert Select(Keyword(c), Argument(c)) == Success(c);
  }

  /** A keyword put in front of joined words is separated from them by one space. */
  lemma JoinAfterKeyword(kw: string, ws: seq<string>)
    requires AllWords(ws)
    ensures JoinWith([kw] + ws, " ") == if JoinWith(ws, " ") == [] then kw else kw + " " + JoinWith(ws, " ")
  {
    JoinOfWordsTrimmed(ws);
    if ws == [] {
      assert [kw] + ws == [kw];
    } else {
      JoinAppend([kw], ws, " ");
    }
  }

  /** Parsing a keyword followed by words selects on the keyword with the
      words, joined again, as the rest. */
  lemma ParseOfWords(kw: string, ws: seq<string>)
    requires IsWord(kw) && AllWords(ws)
    ensures Parse(JoinWith([kw] + ws, " ")) == Select(kw, JoinWith(ws, " "))
  {
    WordsOfJoin([kw] + ws);
    assert ([kw] + ws)[1..] == ws;
  }

  /** `help` ignores whatever follows it. */
  lemma HelpIgnoresArguments(ws: seq<string>)
    requires AllWords(ws)
    ensures Parse(JoinWith(["help"] + ws, " ")) == Success(Help)
  {
    assert IsWord("help");
    WordsOfJoin(["help"] + ws);
  }

  /** The test vector `"echo hello"`. */
  lemma ParseEchoExample()
    ensures Parse("echo hello") == Success(Echo("hello"))
  {
    assert IsWord("echo") && IsWord("hello");
    assert JoinWith(["echo", "hello"], " ") == "echo hello";
    WordsOfJoin(["echo", "hello"]);
  }

  /** The test vector: the empty input has no command. */
  lemma ParseEmptyExample()
    ensures Parse("") == Failure(MissingCommand(""))
  {
  }

  /** The test vector `"undefined hello"`. */
  lemma ParseUndefinedExample()
    ensures Parse("undefined hello") == Failure(UndefinedCommand("undefined", Some("hello")))
  {
    assert IsWord("undefined") && IsWord("hello");
    assert JoinWith(["undefined", "hello"], " ") == "undefined hello";
    WordsOfJoin(["undefined", "hello"]);
  }

  /** Command words are matched exactly: upper case is not recognised. */
  lemma ParseIsCaseSensitive()
    ensures Parse("ECHO hello") == Failure(UndefinedCommand("ECHO", Some("hello")))
  {
    assert "ECHO"[0] == 'E';
    assert "ECHO" !in COMMAND_WORDS;
    assert IsWord("ECHO") && IsWord("hello");
    assert JoinWith(["ECHO", "hello"], " ") == "ECHO hello";
    WordsOfJoin(["ECHO", "hello"]);
  }

  /** `TryFrom<Event> for Command`: only command events are parsed. */
  function TryFromEvent(e: EP.Event): (r: Result<Command, CommandParseError>)
    ensures e.eventType == EP.NaturalLanguage ==> r == Failure(MissingPrefix(EP.ToString(e.content)))
    ensures e.eventType == EP.Command ==> r == Parse(EP.ToString(e.content))
  {
    match e.eventType
    case Command => Parse(EP.ToString(e.content))
    case NaturalLanguage => Failure(MissingPrefix(EP.ToString(e.content)))
  }

  /** A chat message that starts with the command prefix becomes the command
      written after the prefix. */
  lemma CommandOfChatInput(input: ChatBot.ChatInput)
    requires EP.NewEvent(input, EP.Command).Success?
    ensures TryFromEvent(EP.NewEvent(input, EP.Command).value)
            == Parse(ChatBot.StripCommandPrefix(input).value)
  {
  }

  /** The copypasta collection: its texts by name, and the order in which the
      collection lists its names. */
  datatype PastaTable = PastaTable(texts: map<string, string>, names: seq<string>)

  /** The names list every text exactly once. */
  ghost predicate ValidTable(t: PastaTable) {
    && (forall n :: n in t.names <==> n in t.texts)
    && (forall i, j :: 0 <= i < j < |t.names| ==> t.names[i] != t.names[j])
  }

  const PASTA_HEADER: string := "types of pasta \U{1F35D}:\n"
  const NOT_FOUND_PASTA: string := "try again loser"

  function PastaLine(name: string): string {
    "\U{2728}`" + name + "`"
  }

  function PastaLines(names: seq<string>): (lines: seq<string>)
    ensures |lines| == |names|
    ensures forall i :: 0 <= i < |names| ==> lines[i] == PastaLine(names[i])
  {
    if names == [] then [] else [PastaLine(names[0])] + PastaLines(names[1..])
  }

  /** The reply to `pasta list`. */
  function PastaListing(t: PastaTable): string {
    PASTA_HEADER + JoinWith(PastaLines(t.names), "\n")
  }

  lemma {:induction false} JoinHasEach(xs: seq<string>, sep: string, i: nat)
    requires i < |xs|
    ensures exists k: nat :: OccursAt(JoinWith(xs, sep), xs[i], k)
  {
    var j := JoinWith(xs, sep);
    if |xs| == 1 {
      assert OccursAt(j, xs[0], 0);
    } else if i == 0 {
      assert j == xs[0] + (sep + JoinWith(xs[1..], sep));
      assert OccursAt(j, xs[0], 0);
    } else {
      var tail := JoinWith(xs[1..], sep);
      JoinHasEach(xs[1..], sep, i - 1);
      var k: nat :| OccursAt(tail, xs[1..][i - 1], k);
      assert j == (xs[0] + sep) + tail;
      OccursAfterPrefix(xs[0] + sep, tail, xs[i], k);
    }
  }

  /** Every pasta in the collection is named in the listing. */
  lemma ListingNamesEveryPasta(t: PastaTable, name: string)
    requires ValidTable(t) && name in t.texts
    ensures Contains(PastaListing(t), PastaLine(name))
  {
    var i :| 0 <= i < |t.names| && t.names[i] == name;
    var lines := PastaLines(t.names);
    JoinHasEach(lines, "\n", i);
    var body := JoinWith(lines, "\n");
    var k: nat :| OccursAt(body, lines[i], k);
    OccursAfterPrefix(PASTA_HEADER, body, lines[i], k);
  }

  /** One line of the help text: a command word and what it does. */
  function HelpLine(entry: (string, string)): string {
    "\U{2728}`" + entry.0 + "` \U{1F449} " + entry.1
  }

  /** The `fold` that builds the help text: each step appends a newline and
      the next entry's line. */
  function FoldHelp(entries: seq<(string, string)>): string {
    if entries == [] then "" else FoldHelp(entries[..|entries| - 1]) + "\n" + HelpLine(entries[|entries| - 1])
  }

  function HelpLines(entries: seq<(string, string)>): (lines: seq<string>)
    ensures |lines| == |entries|
    ensures forall i :: 0 <= i < |entries| ==> lines[i] == HelpLine(entries[i])
  {
    if entries == [] then [] else HelpLines(entries[..|entries| - 1]) + [HelpLine(entries[|entries| - 1])]
  }

  /** The fold puts each entry, in order, on a line of its own after a leading newline. */
  lemma {:induction false} FoldHelpLines(entries: seq<(string, string)>)
    requires entries != []
    ensures FoldHelp(entries) == "\n" + JoinWith(HelpLines(entries), "\n")
    decreases |entries|
  {
    var n := |entries|;
    var init := entries[..n - 1];
    if n == 1 {
      assert init == [];
    } else {
      FoldHelpLines(init);
      JoinAppend(HelpLines(init), [HelpLine(entries[n - 1])], "\n");
    }
  }

  /** The command variants, in declaration order, under their `snake_case`
      discriminant names, with their help messages, as the code lists them. */
  const HELP_ENTRIES_AS_WRITTEN: seq<(string, string)> := [
    ("echo", "make Ultron say something"),
    ("roll", "roll some dice"),
    ("copypasta", "things that bear repeating"),
    ("help", "get help")
  ]

  /** The same entries under the words the parser accepts. */
  const HELP_ENTRIES: seq<(string, string)> := [
    ("echo", "make Ultron say something"),
    ("roll", "roll some dice"),
    ("pasta", "things that bear repeating"),
    ("help", "get help")
  ]

  /** The help text the code builds has a line for `copypasta`, which the
      parser does not accept. */
  lemma HelpAsWrittenAdvertisesUndefinedCommand()
    ensures HELP_ENTRIES_AS_WRITTEN[2].0 == "copypasta"
    ensures Contains(HelpText(HELP_ENTRIES_AS_WRITTEN), HelpLine(HELP_ENTRIES_AS_WRITTEN[2]))
    ensures Parse("copypasta list") == Failure(UndefinedCommand("copypasta", Some("list")))
  {
    HelpListsEach(HELP_ENTRIES_AS_WRITTEN, 2);
    CopypastaIsUndefined();
  }

  lemma CopypastaIsUndefined()
    ensures Parse("copypasta list") == Failure(UndefinedCommand("copypasta", Some("list")))
  {
    assert IsWord("copypasta") && IsWord("list");
    assert JoinWith(["copypasta", "list"], " ") == "copypasta list";
    WordsOfJoin(["copypasta", "list"]);
  }

  /** The help text has the line of every entry it is built from. */
  lemma HelpListsEach(entries: seq<(string, string)>, i: nat)
    requires i < |entries|
    ensures Contains(HelpText(entries), HelpLine(entries[i]))
  {
    var lines := HelpLines(entries);
    JoinHasEach(lines, "\n", i);
    var k: nat :| OccursAt(JoinWith(lines, "\n"), lines[i], k);
    OccursAfterPrefix("\n", JoinWith(lines, "\n"), lines[i], k);
  }

  /** Two inputs the parser refuses show the same error text only when they
      were refused for the same reason. */
  lemma ParseFailuresDisplayDistinctly(x: string, y: string)
    requires Parse(x).Failure? && Parse(y).Failure?
    ensures ParseErrorText(Parse(x).error) == ParseErrorText(Parse(y).error) <==> Parse(x).error == Parse(y).error
  {
    ParseErrorTextInjective(Parse(x).error, Parse(y).error);
  }

  /** A command word on its own parses to its command, with no argument. */
  lemma KeywordParses(c: Command)
    requires Argument(c) == []
    ensures Parse(Keyword(c)) == Success(c)
  {
    ParseCommandLine(c);
  }

  /** Every command word in the corrected help text is one the parser accepts,
      and the help lists one line per command variant. */
  lemma HelpEntriesParse()
    ensures |HELP_ENTRIES| == 4
    ensures forall i :: 0 <= i < |HELP_ENTRIES| ==> Parse(HELP_ENTRIES[i].0).Success?
  {
    forall i | 0 <= i < |HELP_ENTRIES| ensures Parse(HELP_ENTRIES[i].0).Success? {
      var c := [Echo(""), Roll(""), Copypasta(""), Help][i];
      assert HELP_ENTRIES[i].0 == Keyword(c);
      KeywordParses(c);
    }
  }

  /** The help reply built from `entries`: a leading newline, then one line
      per entry, in order. */
  function HelpText(entries: seq<(string, string)>): (h: string)
    ensures entries != [] ==> h == "\n" + JoinWith(HelpLines(entries), "\n")
    ensures entries == [] ==> h == ""
  {
    if entries != [] then FoldHelpLines(entries); FoldHelp(entries)
    else FoldHelp(entries)
  }

  /** `Command::execute`. Dice rolling is not part of this model: `roll` maps
      the dice text to the rendered roll or to the roller's error message. */
  function Execute(c: Command, roll: string -> Result<string, string>, pastas: PastaTable): (r: Result<string, EP.EventError>)
    ensures c.Echo? ==> r == Success(c.message)
    ensures r.Failure? ==> c.Roll? && roll(c.dice).Failure? && r.error == EP.DiceRollParse(roll(c.dice).error)
    ensures c.Roll? && roll(c.dice).Success? ==> r == Success(roll(c.dice).value)
    ensures c.Help? ==> r == Success(HelpText(HELP_ENTRIES_AS_WRITTEN))
    ensures c == Copypasta("list") ==> r == Success(PastaListing(pastas))
    ensures c.Copypasta? && c.name != "list" ==>
              r == Success(if c.name in pastas.texts then pastas.texts[c.name] else NOT_FOUND_PASTA)
  {
    match c
    case Echo(m) => Success(m)
    case Roll(dice) =>
      (match roll(dice)
       case Success(s) => Success(s)
       case Failure(e) => Failure(EP.DiceRollParse(e)))
    case Help => Success(HelpText(HELP_ENTRIES_AS_WRITTEN))
    case Copypasta(name) =>
      if name == "list" then Success(PastaListing(pastas))
      else if name in pastas.texts then Success(pastas.texts[name])
      else Success(NOT_FOUND_PASTA)
  }

  /** Echo gives back its text untouched, whatever the roller and the pastas. */
  lemma EchoRoundTrip(m: string, roll: string -> Result<string, string>, pastas: PastaTable)
    requires Normalized(m)
    ensures Parse(CommandLine(Echo(m))).Success?
    ensures Execute(Parse(CommandLine(Echo(m))).value, roll, pastas) == Success(m)
  {
    ParseCommandLine(Echo(m));
  }
}
