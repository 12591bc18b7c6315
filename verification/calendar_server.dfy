/** The stdio MCP server for Google Calendar
    (servers/calendar/calendar_server.py): the tool list, `call_tool`'s
    dispatch and error mapping, the binding of the JSON arguments to the
    handlers' Python signatures, the shaping of event listings, the body
    of a created event, and the day and week windows. The Calendar API is
    a parameter (`Backend`); the JSON text the server finally emits is the
    `ToolResult` value itself. */
module CalendarServer {
  import opened Wrappers
  import Decimal
  import Clock

  /** A JSON argument value as the handlers receive it. */
  datatype Value = Str(s: string) | Int(i: int)

  /** How an f-string renders a value. */
  function Render(v: Value): (r: string)
    ensures v.Str? ==> r == v.s
    ensures v.Int? ==> Decimal.Denotes(r, v.i)
  {
    match v
    case Str(s) => s
    case Int(i) => Decimal.IntToString(i)
  }

  /** The exceptions a handler may raise, each with its `str(e)`. */
  datatype Exception =
    | KeyError(key: string)
    | TypeError(message: string)
    | ValueError(message: string)
    | ApiError(message: string)
    | ValidationError(message: string)

  /** `str(e)`: a `KeyError` quotes its key, the others show their message. */
  function ErrorText(e: Exception): (r: string)
    ensures e.KeyError? ==> |r| == |e.key| + 2 && r[0] == '\'' && r[|r| - 1] == '\'' && r[1..|r| - 1] == e.key
    ensures !e.KeyError? ==> r == e.message
  {
    match e
    case KeyError(key) => "'" + key + "'"
    case TypeError(message) => message
    case ValueError(message) => message
    case ApiError(message) => message
    case ValidationError(message) => message
  }

  // ---------------------------------------------------------------------
  // The Calendar API as seen by the server

  /** `event['start']` or `event['end']`: the keys present in it. */
  datatype EventTime = EventTime(dateTime: Option<string>, date: Option<string>)

  /** One item of an `events().list` response; `None` is a missing key. */
  datatype ApiEvent = ApiEvent(
    summary: Option<string>,
    description: Option<string>,
    location: Option<string>,
    status: Option<string>,
    start: Option<EventTime>,
    end: Option<EventTime>)

  /** `events().list(calendarId='primary', singleEvents=True,
      orderBy='startTime', ...)`: either a time window or a search. */
  datatype ListRequest =
    | InWindow(window: Clock.Window)
    | Matching(q: Value, maxResults: Value)

  /** The response; `items` may be missing. */
  datatype ListResponse = ListResponse(items: Option<seq<ApiEvent>>)

  /** `{'dateTime': ..., 'timeZone': ...}`. */
  datatype TimeBody = TimeBody(dateTime: Value, timeZone: string)

  /** The body handed to `events().insert(calendarId='primary', ...)`. */
  datatype EventBody = EventBody(summary: Value, description: Value, location: Value, start: TimeBody, end: TimeBody)

  /** What `insert` returns: its `id` and `htmlLink`, if present. */
  datatype Inserted = Inserted(id: Option<string>, htmlLink: Option<string>)

  /** The built service: each call returns a response or `str` of the
      error it raised. */
  datatype Backend = Backend(
    list: ListRequest -> Result<ListResponse, string>,
    insert: EventBody -> Result<Inserted, string>)

  // ---------------------------------------------------------------------
  // Results

  /** One formatted event: the `'title'`, `'start'`, `'end'`,
      `'description'`, `'location'` and `'status'` entries. */
  datatype FormattedEvent = FormattedEvent(
    title: string,
    start: Option<string>,
    end: Option<string>,
    description: string,
    location: string,
    status: string)

  /** The dict a tool call returns. Both success shapes carry
      `"success": True`; `query` is present only for searches. */
  datatype ToolResult =
    | EventList(events: seq<FormattedEvent>, count: int, query: Option<Value>)
    | EventCreated(eventId: Option<string>, eventLink: Option<string>, message: string)
    | Failure(error: string)

  const InitFailure: string := "Failed to initialize Google Calendar service"
  const UtcZone: string := "UTC"

  // ---------------------------------------------------------------------
  // Event formatting

  /** `t.get('dateTime', t.get('date'))`. */
  function TimeOf(t: EventTime): (r: Option<string>)
    ensures t.dateTime.Some? ==> r == t.dateTime
    ensures t.dateTime.None? ==> r == t.date
  {
    if t.dateTime.Some? then t.dateTime else t.date
  }

  /** The loop body of the listing handlers. `event['start']` is read
      first, so a missing start is reported before a missing end. */
  function FormatEvent(e: ApiEvent): (r: Result<FormattedEvent, Exception>)
    ensures e.start.None? ==> r == Err(KeyError("start"))
    ensures e.start.Some? && e.end.None? ==> r == Err(KeyError("end"))
    ensures r.Ok? <==> e.start.Some? && e.end.Some?
    ensures r.Ok? ==>
      && r.value.start == TimeOf(e.start.value)
      && r.value.end == TimeOf(e.end.value)
      && (e.summary.None? ==> r.value.title == "No Title")
      && (e.summary.Some? ==> r.value.title == e.summary.value)
      && (e.description.None? ==> r.value.description == "")
      && (e.description.Some? ==> r.value.description == e.description.value)
      && (e.location.None? ==> r.value.location == "")
      && (e.location.Some? ==> r.value.location == e.location.value)
      && (e.status.None? ==> r.value.status == "")
      && (e.status.Some? ==> r.value.status == e.status.value)
  {
    match e.start
    case None => Err(KeyError("start"))
    case Some(start) =>
      match e.end
      case None => Err(KeyError("end"))
      case Some(end) =>
        Ok(FormattedEvent(
          e.summary.GetOr("No Title"),
          TimeOf(start),
          TimeOf(end),
          e.description.GetOr(""),
          e.location.GetOr(""),
          e.status.GetOr("")))
  }

  /** The whole loop: one formatted event per item, in API order, or the
      exception of the first item that lacks `start` or `end`. */
  function FormatEvents(items: seq<ApiEvent>): (r: Result<seq<FormattedEvent>, Exception>)
    ensures r.Ok? <==> forall i :: 0 <= i < |items| ==> FormatEvent(items[i]).Ok?
    ensures r.Ok? ==> |r.value| == |items|
    ensures r.Ok? ==> forall i :: 0 <= i < |items| ==> Ok(r.value[i]) == FormatEvent(items[i])
    ensures r.Err? ==> exists k :: (0 <= k < |items| && FormatEvent(items[k]) == Err(r.error)
      && forall j :: 0 <= j < k ==> FormatEvent(items[j]).Ok?)
  {
    if |items| == 0 then Ok([])
    else
      match FormatEvent(items[0])
      case Err(e) => Err(e)
      case Ok(first) =>
        match FormatEvents(items[1..])
        case Err(e) =>
          assert forall j :: 1 <= j < |items| ==> items[j] == items[1..][j - 1];
          Err(e)
        case Ok(rest) =>
          assert forall j :: 1 <= j < |items| ==> items[j] == items[1..][j - 1];
          Ok([first] + rest)
  }

  /** The shared tail of the three listing handlers: query the API, format
      what it returns (no `items` is an empty list), count, and for a
      search echo the query. */
  function ListEvents(b: Backend, request: ListRequest, query: Option<Value>): (r: Result<ToolResult, Exception>)
    ensures r.Ok? ==> r.value.EventList? && r.value.count == |r.value.events| && r.value.query == query
    ensures r.Ok? ==> (b.list(request).Ok?
      && FormatEvents(b.list(request).value.items.GetOr([])) == Ok(r.value.events))
    ensures b.list(request).Err? ==> r == Err(ApiError(b.list(request).error))
    ensures b.list(request).Ok? ==>
      var formatted := FormatEvents(b.list(request).value.items.GetOr([]));
      && (r.Ok? <==> formatted.Ok?)
      && (formatted.Err? ==> r == Err(formatted.error))
  {
    match b.list(request)
    case Err(message) => Err(ApiError(message))
    case Ok(response) =>
      match FormatEvents(response.items.GetOr([]))
      case Err(e) => Err(e)
      case Ok(events) => Ok(EventList(events, |events|, query))
  }

  // ---------------------------------------------------------------------
  // Date windows (UTC)

  /** `list_today_events`: from today's midnight to the next. */
  function TodayWindow(now: int): (w: Clock.Window)
    ensures w.timeMin <= now < w.timeMax
    ensures w.timeMax - w.timeMin == Clock.MicrosPerDay
    ensures w.timeMin % Clock.MicrosPerDay == 0
  {
    var start := Clock.Midnight(now);
    Clock.Window(start, start + Clock.MicrosPerDay)
  }

  /** `list_week_events`: step back `now.weekday()` days, drop the time of
      day, and span seven days. */
  function WeekWindow(now: int): (w: Clock.Window)
    ensures w.timeMin <= now < w.timeMax
    ensures w.timeMax - w.timeMin == 7 * Clock.MicrosPerDay
    ensures w.timeMin % Clock.MicrosPerDay == 0
    ensures Clock.Weekday(Clock.DayOf(w.timeMin)) == 0
  {
    var back := Clock.Weekday(Clock.DayOf(now));
    var start := Clock.Midnight(now - back * Clock.MicrosPerDay);
    Clock.MidnightShift(now, back);
    assert Clock.DayOf(start) == Clock.DayOf(now) - back;
    Clock.Window(start, start + 7 * Clock.MicrosPerDay)
  }

  /** Today's window lies inside this week's. */
  lemma TodayWithinWeek(now: int)
    ensures WeekWindow(now).timeMin <= TodayWindow(now).timeMin
    ensures TodayWindow(now).timeMax <= WeekWindow(now).timeMax
  {
  }

  // ---------------------------------------------------------------------
  // Argument binding

  /** A parameter after `service`, with its default if it has one. */
  datatype Param = Param(name: string, default: Option<Value>)

  const CreateParams: seq<Param> := [
    Param("title", None), Param("start_time", None), Param("end_time", None),
    Param("description", Some(Str(""))), Param("location", Some(Str("")))]

  const SearchParams: seq<Param> := [Param("query", None), Param("max_results", Some(Int(10)))]

  /** `arguments[key]` for the first entry with that key. */
  function Lookup(args: seq<(string, Value)>, key: string): (r: Option<Value>)
    ensures r.Some? <==> exists i :: 0 <= i < |args| && args[i].0 == key
    ensures r.Some? ==> exists i :: 0 <= i < |args| && args[i] == (key, r.value)
  {
    if |args| == 0 then None
    else if args[0].0 == key then Some(args[0].1)
    else
      assert forall i :: 1 <= i < |args| ==> args[i] == args[1..][i - 1];
      Lookup(args[1..], key)
  }

  /** A keyword the handler accepts. `service` is not: it is already
      bound positionally. */
  predicate Accepts(params: seq<Param>, key: string)
  {
    exists i :: 0 <= i < |params| && params[i].name == key
  }

  /** The first keyword the call rejects, in argument order. */
  function FirstRejected(params: seq<Param>, args: seq<(string, Value)>): (r: Option<string>)
    ensures r.None? <==> forall i :: 0 <= i < |args| ==> Accepts(params, args[i].0)
    ensures r.Some? ==> exists k :: (0 <= k < |args| && args[k].0 == r.value && !Accepts(params, r.value)
      && forall j :: 0 <= j < k ==> Accepts(params, args[j].0))
  {
    if |args| == 0 then None
    else if !Accepts(params, args[0].0) then Some(args[0].0)
    else
      assert forall i :: 1 <= i < |args| ==> args[i] == args[1..][i - 1];
      FirstRejected(params, args[1..])
  }

  /** The parameters without a default that no keyword supplies, in
      declaration order. */
  function Missing(params: seq<Param>, args: seq<(string, Value)>): (r: seq<string>)
    ensures |r| == 0 <==> forall i :: 0 <= i < |params| ==>
      params[i].default.Some? || Lookup(args, params[i].name).Some?
    ensures forall n :: n in r <==> exists p :: (p in params && p.name == n
      && p.default.None? && Lookup(args, n).None?)
  {
    if |params| == 0 then []
    else
      var rest := Missing(params[1..], args);
      assert forall i :: 1 <= i < |params| ==> params[i] == params[1..][i - 1];
      assert forall p :: p in params <==> p == params[0] || p in params[1..];
      if params[0].default.None? && Lookup(args, params[0].name).None?
      then [params[0].name] + rest
      else rest
  }

  /** The missing names come in declaration order: declaring one more
      parameter at the end appends its name exactly when it is missing.
      With `Missing([], args) == []` this fixes the whole sequence. */
  lemma {:induction false} MissingSnoc(params: seq<Param>, p: Param, args: seq<(string, Value)>)
    ensures Missing(params + [p], args)
         == Missing(params, args) + (if p.default.None? && Lookup(args, p.name).None? then [p.name] else [])
    decreases |params|
  {
    if |params| == 0 {
      assert params + [p] == [p];
      assert [p][1..] == [];
    } else {
      assert (params + [p])[0] == params[0];
      assert (params + [p])[1..] == params[1..] + [p];
      MissingSnoc(params[1..], p, args);
    }
  }

  /** A parameter name as `repr` shows it. */
  function Quote(name: string): string
  {
    "'" + name + "'"
  }

  /** CPython's list of missing names: `'a'`, `'a' and 'b'`, or
      `'a', 'b', and 'c'`. */
  function NameList(names: seq<string>): string
    requires |names| > 0
  {
    if |names| == 1 then Quote(names[0])
    else if |names| == 2 then Quote(names[0]) + " and " + Quote(names[1])
    else LeadingNames(names[..|names| - 2]) + ", " + Quote(names[|names| - 2]) + ", and " + Quote(names[|names| - 1])
  }

  /** Quoted names separated by `, `. */
  function LeadingNames(names: seq<string>): string
  {
    if |names| == 0 then ""
    else if |names| == 1 then Quote(names[0])
    else LeadingNames(names[..|names| - 1]) + ", " + Quote(names[|names| - 1])
  }

  /** The `TypeError` text for missing arguments. */
  function MissingText(function_name: string, names: seq<string>): string
    requires |names| > 0
  {
    function_name + "() missing " + Decimal.NatToString(|names|) + " required positional argument"
      + (if |names| == 1 then "" else "s") + ": " + NameList(names)
  }

  /** The `TypeError` text for a keyword the signature does not have. */
  function UnexpectedText(function_name: string, key: string): string
  {
    function_name + "() got an unexpected keyword argument '" + key + "'"
  }

  /** The `TypeError` text for `service` passed again as a keyword. */
  function MultipleText(function_name: string): string
  {
    function_name + "() got multiple values for argument 'service'"
  }

  /** With one name missing the text is singular and names it. */
  lemma MissingTextOne(function_name: string, name: string)
    ensures MissingText(function_name, [name])
         == function_name + "() missing " + "1" + " required positional argument" + ": " + Quote(name)
  {
  }

  /** `handler(service, **arguments)`: the values bound to the parameters
      after `service`, or the `TypeError` the call raises. Keywords are
      checked in order before missing arguments are counted. */
  function Bind(function_name: string, params: seq<Param>, args: seq<(string, Value)>): (r: Result<seq<Value>, Exception>)
    ensures r.Ok? <==> ((forall i :: 0 <= i < |args| ==> Accepts(params, args[i].0))
      && (forall i :: 0 <= i < |params| ==> params[i].default.Some? || Lookup(args, params[i].name).Some?))
    ensures r.Ok? ==> |r.value| == |params| && forall i :: 0 <= i < |params| ==>
      r.value[i] == (if Lookup(args, params[i].name).Some? then Lookup(args, params[i].name).value
                     else params[i].default.value)
    ensures r.Err? ==> r.error.TypeError?
    ensures FirstRejected(params, args).Some? ==>
      r == Err(TypeError(if FirstRejected(params, args).value == "service" then MultipleText(function_name)
                         else UnexpectedText(function_name, FirstRejected(params, args).value)))
    ensures FirstRejected(params, args).None? && |Missing(params, args)| > 0 ==>
      r == Err(TypeError(MissingText(function_name, Missing(params, args))))
  {
    match FirstRejected(params, args)
    case Some(key) =>
      if key == "service"
      then Err(TypeError(MultipleText(function_name)))
      else Err(TypeError(UnexpectedText(function_name, key)))
    case None =>
      var missing := Missing(params, args);
      if |missing| > 0 then Err(TypeError(MissingText(function_name, missing)))
      else
        Ok(seq(|params|, i requires 0 <= i < |params| =>
          match Lookup(args, params[i].name)
          case Some(v) => v
          case None => params[i].default.value))
  }

  // ---------------------------------------------------------------------
  // Handlers and dispatch

  /** `create_event`: insert an event whose start and end are in UTC and
      report its id, link and a confirmation naming the title. */
  function CreateEvent(b: Backend, title: Value, startTime: Value, endTime: Value,
                       description: Value, location: Value): (r: Result<ToolResult, Exception>)
    ensures var body := EventBody(title, description, location, TimeBody(startTime, UtcZone), TimeBody(endTime, UtcZone));
      && (b.insert(body).Err? ==> r == Err(ApiError(b.insert(body).error)))
      && (b.insert(body).Ok? ==> r == Ok(EventCreated(b.insert(body).value.id, b.insert(body).value.htmlLink,
                                                      "Event '" + Render(title) + "' created successfully")))
  {
    var body := EventBody(title, description, location, TimeBody(startTime, UtcZone), TimeBody(endTime, UtcZone));
    match b.insert(body)
    case Err(message) => Err(ApiError(message))
    case Ok(created) => Ok(EventCreated(created.id, created.htmlLink, "Event '" + Render(title) + "' created successfully"))
  }

  /** The four tools. */
  datatype Tool = ListToday | ListWeek | Create | Search

  /** The name dispatch of `call_tool`. */
  function ToolNamed(name: string): (t: Option<Tool>)
    ensures t == Some(ListToday) <==> name == "list_today_events"
    ensures t == Some(ListWeek) <==> name == "list_week_events"
    ensures t == Some(Create) <==> name == "create_event"
    ensures t == Some(Search) <==> name == "search_events"
  {
    if name == "list_today_events" then Some(ListToday)
    else if name == "list_week_events" then Some(ListWeek)
    else if name == "create_event" then Some(Create)
    else if name == "search_events" then Some(Search)
    else None
  }

  /** Running one tool; `now` is `datetime.utcnow()`. */
  function Invoke(b: Backend, tool: Tool, args: seq<(string, Value)>, now: int): (r: Result<ToolResult, Exception>)
    ensures r.Ok? && r.value.EventList? ==> r.value.count == |r.value.events|
    ensures r.Ok? ==> (r.value.EventCreated? <==> tool == Create)
    ensures r.Ok? ==> !r.value.Failure?
    ensures tool == ListToday ==> r == ListEvents(b, InWindow(TodayWindow(now)), None)
    ensures tool == ListWeek ==> r == ListEvents(b, InWindow(WeekWindow(now)), None)
    ensures tool == Create ==>
      var bound := Bind("create_event", CreateParams, args);
      && (bound.Err? ==> r == Err(bound.error))
      && (bound.Ok? ==> r == CreateEvent(b, bound.value[0], bound.value[1], bound.value[2], bound.value[3], bound.value[4]))
    ensures tool == Search ==>
      var bound := Bind("search_events", SearchParams, args);
      && (bound.Err? ==> r == Err(bound.error))
      && (bound.Ok? ==> r == ListEvents(b, Matching(bound.value[0], bound.value[1]), Some(bound.value[0])))
  {
    match tool
    case ListToday => ListEvents(b, InWindow(TodayWindow(now)), None)
    case ListWeek => ListEvents(b, InWindow(WeekWindow(now)), None)
    case Create =>
      (match Bind("create_event", CreateParams, args)
       case Err(e) => Err(e)
       case Ok(v) => CreateEvent(b, v[0], v[1], v[2], v[3], v[4]))
    case Search =>
      (match Bind("search_events", SearchParams, args)
       case Err(e) => Err(e)
       case Ok(v) => ListEvents(b, Matching(v[0], v[1]), Some(v[0])))
  }

  /** What the `try` block answers for a handler's outcome: its dict, or
      `{"error": str(e)}` for the exception it raised. */
  function Reply(outcome: Result<ToolResult, Exception>): (r: ToolResult)
    ensures outcome.Ok? ==> r == outcome.value
    ensures outcome.Err? ==> r == Failure(ErrorText(outcome.error))
  {
    match outcome
    case Ok(result) => result
    case Err(e) => Failure(ErrorText(e))
  }

  /** `call_tool`. The service check comes first, so without a service
      every name, known or not, gets the initialisation error; an unknown
      name is answered with an error; anything a handler raises becomes
      `{"error": str(e)}`. The call itself never raises. `service` is what
      `get_calendar_service()` returns (`None` when no credentials). */
  function CallTool(service: Option<Backend>, name: string, args: seq<(string, Value)>, now: int): (r: ToolResult)
    ensures service.None? ==> r == Failure(InitFailure)
    ensures service.Some? && ToolNamed(name).None? ==> r == Failure("Unknown tool: " + name)
    ensures service.Some? && ToolNamed(name).Some? ==>
      r == Reply(Invoke(service.value, ToolNamed(name).value, args, now))
    ensures r.EventList? ==> r.count == |r.events| && ToolNamed(name).Some? && ToolNamed(name).value != Create
    ensures r.EventCreated? ==> ToolNamed(name) == Some(Create)
  {
    match service
    case None => Failure(InitFailure)
    case Some(b) =>
      match ToolNamed(name)
      case None => Failure("Unknown tool: " + name)
      case Some(tool) => Reply(Invoke(b, tool, args, now))
  }

  // ---------------------------------------------------------------------
  // The advertised tools

  /** A tool as `list_tools` advertises it: its name, description, the
      properties of its input schema and the required ones. */
  datatype ToolInfo = ToolInfo(name: string, description: string, properties: seq<string>, required: seq<string>)

  /** `list_tools`: four tools with distinct names, each requiring only
      properties it lists. */
  function ListTools(): (r: seq<ToolInfo>)
    ensures |r| == 4
    ensures forall i, j :: 0 <= i < j < |r| ==> r[i].name != r[j].name
    ensures forall i, n :: 0 <= i < |r| && n in r[i].required ==> n in r[i].properties
  {
    [ ToolInfo("list_today_events", "List all events for today", [], []),
      ToolInfo("list_week_events", "List all events for the current week", [], []),
      ToolInfo("create_event", "Create a new calendar event",
               ["title", "start_time", "end_time", "description", "location"],
               ["title", "start_time", "end_time"]),
      ToolInfo("search_events", "Search for events by query string",
               ["query", "max_results"], ["query"]) ]
  }

  /** The advertised names are exactly the names `call_tool` dispatches. */
  lemma ListedToolsDispatch(name: string)
    ensures ToolNamed(name).Some? <==> exists t :: t in ListTools() && t.name == name
  {
    if ToolNamed(name).Some? {
      var t := ToolNamed(name).value;
      var k := match t case ListToday => 0 case ListWeek => 1 case Create => 2 case Search => 3;
      assert ListTools()[k].name == name;
    }
  }

  /** The names of a signature's parameters, in order. */
  function Properties(params: seq<Param>): (names: seq<string>)
    ensures |names| == |params|
    ensures forall i :: 0 <= i < |params| ==> names[i] == params[i].name
  {
    seq(|params|, i requires 0 <= i < |params| => params[i].name)
  }

  /** The names of the parameters without a default, in order. */
  function Required(params: seq<Param>): (names: seq<string>)
    ensures forall n :: n in names <==> exists i :: 0 <= i < |params| && params[i].name == n && params[i].default.None?
  {
    if |params| == 0 then []
    else
      assert forall i :: 1 <= i < |params| ==> params[i] == params[1..][i - 1];
      (if params[0].default.None? then [params[0].name] else []) + Required(params[1..])
  }

  /** The two tools with arguments advertise exactly their handlers'
      parameters, and as required exactly those without a default. */
  lemma SchemasMatchSignatures()
    ensures ListTools()[2].properties == Properties(CreateParams)
    ensures ListTools()[2].required == Required(CreateParams)
    ensures ListTools()[3].properties == Properties(SearchParams)
    ensures ListTools()[3].required == Required(SearchParams)
  {
  }

  /** A closed, type-blind reading of an input schema: only listed
      properties, every required one present. It is stricter than JSON
      Schema on the advertised schemas, which do not forbid additional
      properties, and it does not look at the declared types. */
  predicate Conforms(info: ToolInfo, args: seq<(string, Value)>)
  {
    && (forall i :: 0 <= i < |args| ==> args[i].0 in info.properties)
    && (forall n :: n in info.required ==> Lookup(args, n).Some?)
  }

  /** Arguments bind without a `TypeError` exactly when they conform to the
      schema derived from the signature. */
  lemma BindsIffConforms(function_name: string, info: ToolInfo, params: seq<Param>, args: seq<(string, Value)>)
    requires info.properties == Properties(params) && info.required == Required(params)
    ensures Conforms(info, args) <==> Bind(function_name, params, args).Ok?
  {
  }

  // ---------------------------------------------------------------------
  // Properties of whole calls

  /** Leaving out `max_results` searches for ten results. */
  lemma SearchDefaultsToTen(b: Backend, query: Value, now: int)
    ensures CallTool(Some(b), "search_events", [("query", query)], now)
         == CallTool(Some(b), "search_events", [("query", query), ("max_results", Int(10))], now)
  {
    var one: seq<(string, Value)> := [("query", query)];
    var two: seq<(string, Value)> := [("query", query), ("max_results", Int(10))];
    SearchBindsTen(query);
    SearchBindsLimit(query, Int(10));
    assert ToolNamed("search_events") == Some(Search);
    assert Invoke(b, Search, one, now) == Invoke(b, Search, two, now);
  }

  /** Without `max_results` the query binds with the default limit. */
  lemma SearchBindsTen(query: Value)
    ensures Bind("search_events", SearchParams, [("query", query)]) == Ok([query, Int(10)])
  {
    var one: seq<(string, Value)> := [("query", query)];
    assert Accepts(SearchParams, "query") by { assert SearchParams[0].name == "query"; }
    assert Lookup(one, "query") == Some(query);
    assert Lookup(one, "max_results") == None;
    var v := Bind("search_events", SearchParams, one);
    assert v.Ok?;
    assert |v.value| == 2 && v.value[0] == query && v.value[1] == Int(10);
    assert v.value == [query, Int(10)];
  }

  /** An explicit `max_results` binds as given. */
  lemma SearchBindsLimit(query: Value, limit: Value)
    ensures Bind("search_events", SearchParams, [("query", query), ("max_results", limit)]) == Ok([query, limit])
  {
    var two: seq<(string, Value)> := [("query", query), ("max_results", limit)];
    assert Accepts(SearchParams, "query") by { assert SearchParams[0].name == "query"; }
    assert Accepts(SearchParams, "max_results") by { assert SearchParams[1].name == "max_results"; }
    assert Lookup(two, "query") == Some(query);
    assert Lookup(two, "max_results") == Some(limit);
    var v := Bind("search_events", SearchParams, two);
    assert v.Ok?;
    assert |v.value| == 2 && v.value[0] == query && v.value[1] == limit;
    assert v.value == [query, limit];
  }

  /** A successful search echoes the query it was given. */
  lemma SearchEchoesQuery(b: Backend, query: Value, args: seq<(string, Value)>, now: int)
    requires Lookup(args, "query") == Some(query)
    ensures CallTool(Some(b), "search_events", args, now).EventList? ==>
      CallTool(Some(b), "search_events", args, now).query == Some(query)
  {
  }

  /** `create_event` called with a title and a start but without
      `end_time` fails with Python's `TypeError` text
      (`create_event() missing 1 required positional argument:
      'end_time'`, by `MissingTextOne`), as a result rather than an
      exception. */
  lemma CreateWithoutEndTime(b: Backend, title: Value, start: Value, now: int)
    ensures CallTool(Some(b), "create_event", [("title", title), ("start_time", start)], now)
         == Failure(MissingText("create_event", ["end_time"]))
  {
    var args: seq<(string, Value)> := [("title", title), ("start_time", start)];
    CreateBindsWithoutEndTime(title, start);
    assert ToolNamed("create_event") == Some(Create);
    assert Invoke(b, Create, args, now) == Err(TypeError(MissingText("create_event", ["end_time"])));
  }

  /** Binding a title and a start alone reports the missing `end_time`. */
  lemma CreateBindsWithoutEndTime(title: Value, start: Value)
    ensures Bind("create_event", CreateParams, [("title", title), ("start_time", start)])
         == Err(TypeError(MissingText("create_event", ["end_time"])))
  {
    var args: seq<(string, Value)> := [("title", title), ("start_time", start)];
    assert FirstRejected(CreateParams, args) == None by {
      assert CreateParams[0].name == "title";
      assert CreateParams[1].name == "start_time";
    }
    MissingEndTime(title, start);
  }

  lemma MissingEndTime(title: Value, start: Value)
    ensures Missing(CreateParams, [("title", title), ("start_time", start)]) == ["end_time"]
  {
    var args: seq<(string, Value)> := [("title", title), ("start_time", start)];
    assert Lookup(args, "title").Some? && Lookup(args, "start_time").Some?;
    assert Lookup(args, "end_time").None?;
    var ps := CreateParams;
    assert Missing(ps[5..], args) == [];
    assert Missing(ps[4..], args) == [];
    assert Missing(ps[3..], args) == [];
    assert Missing(ps[2..], args) == ["end_time"];
    assert Missing(ps[1..], args) == ["end_time"];
  }

  /** An argument the handler does not declare is reported by name. */
  lemma UnexpectedKeyword(b: Backend, v: Value, now: int)
    ensures CallTool(Some(b), "search_events", [("limit", v)], now)
         == Failure(UnexpectedText("search_events", "limit"))
  {
    var args: seq<(string, Value)> := [("limit", v)];
    assert ToolNamed("search_events") == Some(Search);
    assert !Accepts(SearchParams, "limit");
    assert FirstRejected(SearchParams, args) == Some("limit");
    assert "limit" != "service";
  }

  /** What JSON Schema checks of the advertised schemas, leaving types
      aside: the required properties are present. Other keys are allowed. */
  predicate RequiredPresent(info: ToolInfo, args: seq<(string, Value)>)
  {
    forall n :: n in info.required ==> Lookup(args, n).Some?
  }

  /** The advertised `search_events` schema admits an extra key that the
      handler's signature rejects, so binding is stricter than the schema. */
  lemma OpenSchemaAdmitsRejected(function_name: string)
    ensures var args: seq<(string, Value)> := [("query", Str("x")), ("limit", Int(3))];
      && RequiredPresent(ListTools()[3], args)
      && !Conforms(ListTools()[3], args)
      && Bind(function_name, SearchParams, args) == Err(TypeError(UnexpectedText(function_name, "limit")))
  {
    var args: seq<(string, Value)> := [("query", Str("x")), ("limit", Int(3))];
    assert Lookup(args, "query") == Some(Str("x"));
    assert SearchParams[0].name == "query";
    assert Accepts(SearchParams, "query");
    assert |SearchParams| == 2 && SearchParams[1].name == "max_results";
    assert !Accepts(SearchParams, "limit");
    assert FirstRejected(SearchParams, args) == Some("limit");
    assert "limit" != "service";
    assert args[1].0 !in ListTools()[3].properties;
  }

  /** `service` as a keyword collides with the positional argument. */
  lemma ServiceKeywordCollides(b: Backend, v: Value, now: int)
    ensures CallTool(Some(b), "create_event", [("service", v)], now)
         == Failure(MultipleText("create_event"))
  {
    var args: seq<(string, Value)> := [("service", v)];
    assert ToolNamed("create_event") == Some(Create);
    assert !Accepts(CreateParams, "service");
    assert FirstRejected(CreateParams, args) == Some("service");
  }
}
