/** The HTTP ingress of the chat core (core/src/http_server.rs): the route and
    tag names, the two fixed pages, how a posted bot input becomes an event,
    and how a server error becomes an HTTP response. */
module HttpServer {
  import opened Wrappers
  import opened Strings
  import opened ChatTypes
  import opened EventProcessor
  import Decimal
  import CoreCommand
  import Processing
  import MessageParts

  /** The OpenAPI tags, rendered in snake case. */
  datatype OpenApiTag = BotCommand | Telemetry | Meta

  function TagName(t: OpenApiTag): string {
    match t
    case BotCommand => "bot_command"
    case Telemetry => "telemetry"
    case Meta => "meta"
  }

  /** Tag names are snake case: lower-case letters and underscores only. */
  predicate SnakeCase(s: string) {
    s != [] && forall i :: 0 <= i < |s| ==> ('a' <= s[i] <= 'z' || s[i] == '_')
  }

  /** Every tag has its own snake-case name. */
  lemma TagNamesDistinct(a: OpenApiTag, b: OpenApiTag)
    ensures SnakeCase(TagName(a))
    ensures TagName(a) == TagName(b) <==> a == b
  {
    assert TagName(a)[0] != TagName(b)[0] || a == b;
  }

  datatype Route = Command | Echo | Healthcheck | Index | ApiDoc | Events

  /** The path each route is served under. */
  function RoutePath(r: Route): (p: string)
    ensures p != [] && p[0] == '/'
  {
    match r
    case Command => "/command"
    case Echo => "/echo"
    case Healthcheck => "/healthcheck"
    case Index => "/"
    case ApiDoc => "/api_doc"
    case Events => "/events"
  }

  /** No two routes share a path. */
  lemma RoutePathsDistinct(a: Route, b: Route)
    ensures RoutePath(a) == RoutePath(b) <==> a == b
  {
  }

  const INDEX_BODY: string := "Hello, World!"
  const HEALTHCHECK_BODY: string := "OK"

  /** `index`: the greeting the `test_index` test expects. */
  function IndexPage(): (body: string)
    ensures body == INDEX_BODY && body != HealthcheckPage()
  {
    INDEX_BODY
  }

  /** `healthcheck`. */
  function HealthcheckPage(): (body: string)
    ensures body == HEALTHCHECK_BODY && |body| == 2
  {
    HEALTHCHECK_BODY
  }

  /** The port type of the listener. */
  type U16 = n: int | 0 <= n < 0x1_0000

  datatype ServerError =
    | UnableToBindPort(port: U16)
    | Startup(ioError: string)
    | EventFailed(eventError: EventError)
    | ChatBotFailed(chatBotError: string)
    | OpenApiDocGeneration

  /** The display text of a server error. */
  function ServerErrorText(e: ServerError): string {
    match e
    case UnableToBindPort(port) => "unable to bind to port " + Decimal.Show(port)
    case Startup(io) => "error running server: " + io
    case EventFailed(ev) => "error processing event: " + EventErrorText(ev)
    case ChatBotFailed(c) => "error invoking chat bot: " + c
    case OpenApiDocGeneration => "failed to generate OpenAPI doc"
  }

  /** Where the fixed texts of the five errors differ. */
  lemma ServerErrorTextLeads(e: ServerError)
    ensures var t := ServerErrorText(e);
      |t| > 6 &&
      (e.UnableToBindPort? ==> t[0] == 'u') &&
      (e.Startup? ==> t[0] == 'e' && t[6] == 'r') &&
      (e.EventFailed? ==> t[0] == 'e' && t[6] == 'p') &&
      (e.ChatBotFailed? ==> t[0] == 'e' && t[6] == 'i') &&
      (e.OpenApiDocGeneration? ==> t[0] == 'f')
  {
    match e
    case UnableToBindPort(port) =>
      AppendAt("unable to bind to port ", Decimal.Show(port), 0);
    case Startup(io) =>
      AppendAt("error running server: ", io, 0);
      AppendAt("error running server: ", io, 6);
    case EventFailed(ev) =>
      AppendAt("error processing event: ", EventErrorText(ev), 0);
      AppendAt("error processing event: ", EventErrorText(ev), 6);
    case ChatBotFailed(c) =>
      AppendAt("error invoking chat bot: ", c, 0);
      AppendAt("error invoking chat bot: ", c, 6);
    case OpenApiDocGeneration =>
  }

  /** The display text of a server error determines the error. */
  lemma ServerErrorTextInjective(a: ServerError, b: ServerError)
    requires a.EventFailed? ==> WordCommandEvent(a.eventError)
    requires b.EventFailed? ==> WordCommandEvent(b.eventError)
    ensures ServerErrorText(a) == ServerErrorText(b) <==> a == b
  {
    if ServerErrorText(a) == ServerErrorText(b) {
      ServerErrorTextLeads(a);
      ServerErrorTextLeads(b);
      match a
      case UnableToBindPort(p) =>
        AfterCommonLead("unable to bind to port ", Decimal.Show(p), Decimal.Show(b.port));
        Decimal.ShowInjective(p, b.port);
      case Startup(io) =>
        AfterCommonLead("error running server: ", io, b.ioError);
      case EventFailed(ev) =>
        AfterCommonLead("error processing event: ", EventErrorText(ev), EventErrorText(b.eventError));
        EventErrorTextInjective(ev, b.eventError);
      case ChatBotFailed(c) =>
        AfterCommonLead("error invoking chat bot: ", c, b.chatBotError);
      case OpenApiDocGeneration =>
    }
  }

  const INTERNAL_SERVER_ERROR: nat := 500

  datatype HttpResponse = HttpResponse(status: nat, body: string)

  /** `IntoResponse for ServerError`: every error is a 500 whose body is the
      error's display text. */
  function IntoResponse(e: ServerError): (r: HttpResponse)
    ensures r.status == INTERNAL_SERVER_ERROR
    ensures r.body == ServerErrorText(e)
  {
    var status := match e
      case UnableToBindPort(_) => INTERNAL_SERVER_ERROR
      case Startup(_) => INTERNAL_SERVER_ERROR
      case EventFailed(_) => INTERNAL_SERVER_ERROR
      case ChatBotFailed(_) => INTERNAL_SERVER_ERROR
      case OpenApiDocGeneration => INTERNAL_SERVER_ERROR;
    HttpResponse(status, ServerErrorText(e))
  }

  /** The body of a bind failure names the port: two ports give two bodies. */
  lemma BindFailureNamesPort(p: U16, q: U16)
    ensures IntoResponse(UnableToBindPort(p)).body == IntoResponse(UnableToBindPort(q)).body <==> p == q
  {
    var prefix := "unable to bind to port ";
    if IntoResponse(UnableToBindPort(p)).body == IntoResponse(UnableToBindPort(q)).body {
      assert (prefix + Decimal.Show(p))[|prefix|..] == Decimal.Show(p);
      assert (prefix + Decimal.Show(q))[|prefix|..] == Decimal.Show(q);
      Decimal.ShowInjective(p, q);
    }
  }

  /** A command posted over HTTP: the channel to answer in, the sender's name,
      the command as typed without the chat prefix, and the event type. */
  datatype BotInput = BotInput(channel: Channel, user: string, eventInput: string, eventType: EventType)

  /** `From<BotInput> for Event`: the input text is kept verbatim as one raw
      text part, with no prefix check and no trimming; `userOf` is
      `User::from`, which is not part of this model. */
  function ToEvent(input: BotInput, userOf: string -> User): (e: Event)
    ensures e.user == userOf(input.user) && e.eventType == input.eventType
    ensures e.content.parts == [MessageParts.Text(input.eventInput)]
    ensures ToString(e.content) == input.eventInput
    ensures RenderWithoutThinkingParts(e.content) == input.eventInput
  {
    Event(userOf(input.user), Raw(input.eventInput), input.eventType)
  }

  /** A command posted over HTTP is parsed from the input exactly as typed. */
  lemma PostedCommandParsesInput(input: BotInput, userOf: string -> User)
    requires input.eventType == EventType.Command
    ensures CoreCommand.TryFromEvent(ToEvent(input, userOf)) == CoreCommand.Parse(input.eventInput)
  {
  }

  /** The `test_bot` test: `echo hello` posted as a command is answered with
      `hello`. */
  lemma PostedEchoExample(channel: Channel, userOf: string -> User, roll: string -> Result<string, string>,
                          pastas: CoreCommand.PastaTable, lm: Processing.LanguageModel)
    ensures Processing.Process(Processing.DefaultProcessor(),
                               ToEvent(BotInput(channel, "anonymous", "echo hello", EventType.Command), userOf),
                               roll, pastas, lm)
            == Success(PlainChat("hello"))
  {
    CoreCommand.ParseEchoExample();
  }
}
