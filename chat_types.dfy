/** Types the chat core shares between its modules: who sent a message, the
    channels the bot knows by name, and why a command could not be parsed
    (core/src/command.rs). */
module ChatTypes {
  import opened Wrappers
  import opened DebugFormat
  import opened Strings

  /** The sender of a message. `User::from(String)` is not part of this model,
      so converting a name into a user is always passed in as a function. */
  datatype User = Anonymous | Ultron | System | Named(name: string)

  /** The channels the Discord transport has ids for. */
  datatype Channel = Debug | Psa | Dnd | FunZoneBots | FunZoneStream

  datatype CommandParseError =
    | MissingPrefix(input: string)
    | MissingCommand(input: string)
    | UndefinedCommand(command: string, args: Option<string>)

  /** The display text of a parse error; the arguments of an undefined
      command are shown in their `Debug` form. */
  function ParseErrorText(e: CommandParseError): string {
    match e
    case MissingPrefix(input) => "input is missing prefix " + input
    case MissingCommand(input) => "input is missing command " + input
    case UndefinedCommand(command, args) =>
      "undefined command in input '" + command + "' with args " + DebugOption(args)
  }

  /** The command of an undefined-command error is a single word, as every
      command the parser reads is. */
  predicate WordCommand(e: CommandParseError) {
    e.UndefinedCommand? ==> IsWord(e.command)
  }

  /** Where the fixed texts of the three errors differ. */
  lemma ParseErrorTextLeads(e: CommandParseError)
    ensures var t := ParseErrorText(e);
      |t| > 17 &&
      (e.MissingPrefix? ==> t[0] == 'i' && t[17] == 'p') &&
      (e.MissingCommand? ==> t[0] == 'i' && t[17] == 'c') &&
      (e.UndefinedCommand? ==> t[0] == 'u')
  {
    match e
    case MissingPrefix(input) =>
      AppendAt("input is missing prefix ", input, 0);
      AppendAt("input is missing prefix ", input, 17);
    case MissingCommand(input) =>
      AppendAt("input is missing command ", input, 0);
      AppendAt("input is missing command ", input, 17);
    case UndefinedCommand(command, args) =>
      AppendAt("undefined command in input '", command + "' with args " + DebugOption(args), 0);
      assert ParseErrorText(e) == "undefined command in input '" + (command + "' with args " + DebugOption(args));
  }

  /** The display text of a parse error determines the error. */
  lemma ParseErrorTextInjective(a: CommandParseError, b: CommandParseError)
    requires WordCommand(a) && WordCommand(b)
    ensures ParseErrorText(a) == ParseErrorText(b) <==> a == b
  {
    if ParseErrorText(a) == ParseErrorText(b) {
      ParseErrorTextLeads(a);
      ParseErrorTextLeads(b);
      match a
      case MissingPrefix(input) =>
        AfterCommonLead("input is missing prefix ", input, b.input);
      case MissingCommand(input) =>
        AfterCommonLead("input is missing command ", input, b.input);
      case UndefinedCommand(command, args) =>
        UndefinedCommandTextInjective(command, args, b.command, b.args);
    }
  }

  /** The undefined-command text determines its word and its arguments. */
  lemma UndefinedCommandTextInjective(c1: string, a1: Option<string>, c2: string, a2: Option<string>)
    requires IsWord(c1) && IsWord(c2)
    requires ParseErrorText(UndefinedCommand(c1, a1)) == ParseErrorText(UndefinedCommand(c2, a2))
    ensures c1 == c2 && a1 == a2
  {
    UndefinedCommandTextShape(c1, a1);
    UndefinedCommandTextShape(c2, a2);
    var rest1 := "' with args " + DebugOption(a1);
    var rest2 := "' with args " + DebugOption(a2);
    AfterCommonLead("undefined command in input '", c1 + rest1, c2 + rest2);
    WordThenSeparator(c1, rest1, c2, rest2);
    AfterCommonLead("' with args ", DebugOption(a1), DebugOption(a2));
    DebugOptionInjective(a1, a2);
  }

  /** The undefined-command text is a fixed lead, the word, then a quote and
      a space that open the rest. */
  lemma UndefinedCommandTextShape(c: string, a: Option<string>)
    ensures var rest := "' with args " + DebugOption(a);
      ParseErrorText(UndefinedCommand(c, a)) == "undefined command in input '" + (c + rest) &&
      |rest| >= 2 && rest[0] == '\'' && rest[1] == ' ' && !IsWhitespace(rest[0]) && IsWhitespace(rest[1])
  {
  }
}
