/** Choosing how the bot connects to an MCP tool server
    (app/mcp/calendar.py, `CalendarMcpClient.__init__`): a configured URL
    gives a streamable-HTTP connection, otherwise a command together with
    its arguments gives a stdio connection, and with neither the
    constructor raises `ValueError`. Settings values follow Python
    truthiness: an absent or empty string counts as not set. */
module McpClient {
  import opened Wrappers

  /** The fields of `MCPSettings` the constructor reads. */
  datatype McpSettings = McpSettings(
    transport: string,
    url: Option<string>,
    command: Option<string>,
    args: Option<string>,
    timeoutSec: int)

  /** A connection description handed to `MultiServerMCPClient`. */
  datatype Connection =
    | StreamableHttp(transport: string, url: Option<string>, timeout: int)
    | Stdio(transport: string, command: string, args: seq<string>, timeout: int)

  const MissingConfig: string := "MCP_CALENDAR_URL or (MCP_CALENDAR_CMD and MCP_CALENDAR_ARGS) must be set"

  /** Python truthiness of an optional string. */
  predicate IsSet(s: Option<string>)
  {
    s.Some? && |s.value| > 0
  }

  /** The connection `self.client` is built from, or the `ValueError`
      text. On success the client is never `None`. */
  function CalendarConnection(settings: McpSettings): (r: Result<Connection, string>)
    ensures IsSet(settings.url) ==> r == Ok(StreamableHttp(settings.transport, settings.url, settings.timeoutSec))
    ensures !IsSet(settings.url) && IsSet(settings.command) && IsSet(settings.args) ==>
      r == Ok(Stdio(settings.transport, settings.command.value, [settings.args.value], settings.timeoutSec))
    ensures r.Err? <==> !IsSet(settings.url) && !(IsSet(settings.command) && IsSet(settings.args))
    ensures r.Err? ==> r.error == MissingConfig
    ensures r.Ok? ==> r.value.transport == settings.transport && r.value.timeout == settings.timeoutSec
  {
    if IsSet(settings.url) then
      Ok(StreamableHttp(settings.transport, settings.url, settings.timeoutSec))
    else if IsSet(settings.command) && IsSet(settings.args) then
      Ok(Stdio(settings.transport, settings.command.value, [settings.args.value], settings.timeoutSec))
    else
      Err(MissingConfig)
  }

  /** The URL takes precedence: once it is set, the command and arguments
      have no effect on the connection. */
  lemma UrlBeatsCommand(settings: McpSettings, command: Option<string>, args: Option<string>)
    requires IsSet(settings.url)
    ensures CalendarConnection(settings) == CalendarConnection(settings.(command := command, args := args))
    ensures CalendarConnection(settings).Ok? && CalendarConnection(settings).value.StreamableHttp?
  {
  }

  /** Without a URL, a command alone is not enough: the arguments must be
      set too, and an empty string counts as unset. */
  lemma CommandNeedsArgs(settings: McpSettings)
    requires !IsSet(settings.url) && IsSet(settings.command)
    ensures CalendarConnection(settings).Ok? <==> IsSet(settings.args)
    ensures CalendarConnection(settings.(args := Some(""))) == Err(MissingConfig)
  {
  }
}
