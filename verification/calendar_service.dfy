/** The Google Calendar service behind the HTTP calendar server
    (servers/calendar/service.py): the window `_get_events_by_date` asks
    for, how it turns API items into `Event`s, which date "today" and
    "tomorrow" mean, what `add_event` inserts and records, and how
    `delete_event` reports. The Calendar API is a parameter; so are the
    clock and `datetime.fromisoformat`. Instants are integer microseconds
    since the epoch (UTC) and zone offsets are seconds east of UTC. */
module CalendarService {
  import opened Wrappers
  import Clock
  import Decimal
  import CalendarServer

  /** `Event(name=..., start=..., end=...)`. Its `start` and `end` fields
      are pydantic `date` fields, so only day numbers are kept. */
  datatype Event = Event(name: string, start: int, end: int)

  /** A `datetime` as `fromisoformat` returns it: the wall-clock reading in
      microseconds since 1970-01-01T00:00 on its own clock, and the UTC
      offset in seconds when the text carried one. */
  datatype DateTime = DateTime(wall: int, offset: Option<int>)

  /** The body `add_event` inserts: the summary and both instants in UTC. */
  datatype NewEvent = NewEvent(summary: string, start: int, end: int, timeZone: string)

  /** The three API calls the service makes. `delete` is `true` when the
      call returns and `false` when it raises. */
  datatype CalendarApi = CalendarApi(
    list: Clock.Window -> Result<CalendarServer.ListResponse, string>,
    insert: NewEvent -> Result<CalendarServer.Inserted, string>,
    delete: string -> bool)

  /** `datetime.fromisoformat`: the datetime, or the `ValueError` text. */
  type Parser = string -> Result<DateTime, string>

  /** The fixed correction `add_event` applies: Moscow time is UTC+3. */
  const Shift: int := 3 * Clock.MicrosPerHour

  const Untitled: string := "(Без названия)"
  const Added: string := "Событие добавлено"
  const Deleted: string := "Событие удалено"
  const DeleteFailed: string := "Произошла ошибка при удалении события"

  /** `fromisoformat(None)` when an event time has neither key. */
  const NotAString: string := "fromisoformat: argument must be str"

  // ---------------------------------------------------------------------
  // Windows and dates

  /** `datetime.combine(date, time.min/time.max, tzinfo=zone)`: the first
      and the last microsecond of local day `date` in a zone `zoneOffset`
      seconds east of UTC. */
  function DayWindow(date: int, zoneOffset: int): (w: Clock.Window)
    ensures w.timeMax - w.timeMin == Clock.MicrosPerDay - 1
  {
    var start := date * Clock.MicrosPerDay - zoneOffset * Clock.MicrosPerSecond;
    Clock.Window(start, start + Clock.MicrosPerDay - 1)
  }

  /** The window holds exactly the instants whose local date is `date`. */
  lemma DayWindowExact(date: int, zoneOffset: int, t: int)
    ensures DayWindow(date, zoneOffset).timeMin <= t <= DayWindow(date, zoneOffset).timeMax
        <==> Clock.DayOf(t + zoneOffset * Clock.MicrosPerSecond) == date
  {
  }

  /** Consecutive days' windows tile the time line: the next one starts one
      microsecond after this one ends. */
  lemma WindowsAdjacent(date: int, zoneOffset: int)
    ensures DayWindow(date + 1, zoneOffset).timeMin == DayWindow(date, zoneOffset).timeMax + 1
  {
  }

  /** The local date of `datetime.now(zone)`, `nowOffset` being the zone's
      offset at that instant. */
  function LocalDate(now: int, nowOffset: int): int
  {
    Clock.DayOf(now + nowOffset * Clock.MicrosPerSecond)
  }

  /** `datetime.now(zone) + timedelta(days=1)`: a day later on the wall
      clock, which is the next local date. */
  lemma TomorrowIsNextDate(now: int, nowOffset: int)
    ensures LocalDate(now + Clock.MicrosPerDay, nowOffset) == LocalDate(now, nowOffset) + 1
  {
  }

  // ---------------------------------------------------------------------
  // From API items to events

  /** `datetime.fromisoformat(s)` for the value of `.get('dateTime',
      .get('date'))`, which is `None` when neither key is there. */
  function ParseTime(s: Option<string>, parse: Parser): (r: Result<DateTime, CalendarServer.Exception>)
    ensures s.None? ==> r == Err(CalendarServer.TypeError(NotAString))
    ensures s.Some? && parse(s.value).Ok? ==> r == Ok(parse(s.value).value)
    ensures s.Some? && parse(s.value).Err? ==> r == Err(CalendarServer.ValueError(parse(s.value).error))
  {
    match s
    case None => Err(CalendarServer.TypeError(NotAString))
    case Some(text) =>
      match parse(text)
      case Ok(t) => Ok(t)
      case Err(message) => Err(CalendarServer.ValueError(message))
  }

  /** pydantic's coercion of a `datetime` to a `date` field: a reading of
      exactly midnight gives its date, any other time of day is refused.
      The offset plays no part. */
  function ToDate(t: DateTime): (r: Option<int>)
    ensures r.Some? <==> Clock.Midnight(t.wall) == t.wall
    ensures r.Some? ==> r.value * Clock.MicrosPerDay == t.wall
  {
    if t.wall % Clock.MicrosPerDay == 0 then Some(Clock.DayOf(t.wall)) else None
  }

  /** pydantic's message for a datetime with a time given to a `date` field. */
  const InexactDate: string := "Datetimes provided to dates should have zero time - e.g. be exact dates"

  /** The `date` fields of `Event` whose datetime has a time, in declaration
      order. */
  function InexactFields(start: DateTime, end: DateTime): (r: seq<string>)
    ensures |r| == 0 <==> ToDate(start).Some? && ToDate(end).Some?
    ensures |r| > 0 ==> r[0] == (if ToDate(start).None? then "start" else "end")
    ensures |r| == 2 <==> ToDate(start).None? && ToDate(end).None?
    ensures |r| == 2 ==> r[1] == "end"
  {
    (if ToDate(start).None? then ["start"] else []) + (if ToDate(end).None? then ["end"] else [])
  }

  /** One field's entry in `str(ValidationError)`: its name, then the
      message on an indented line. */
  function Entry(field: string): string
  {
    "\n" + field + "\n  " + InexactDate
  }

  function FieldLines(fields: seq<string>): string
  {
    if |fields| == 0 then "" else Entry(fields[0]) + FieldLines(fields[1..])
  }

  /** `str(ValidationError)` for `Event`: the count line, then one entry per
      failing field. */
  function ValidationText(fields: seq<string>): string
    requires |fields| > 0
  {
    Decimal.NatToString(|fields|) + " validation error" + (if |fields| == 1 then "" else "s") + " for Event"
      + FieldLines(fields)
  }

  /** The text for one timed field: a singular count line, then the field's
      entry. */
  lemma ValidationTextOne(field: string)
    ensures ValidationText([field]) == "1 validation error for Event" + Entry(field)
  {
    assert Decimal.NatToString(1) == "1";
    assert "1" + " validation error" + "" + " for Event" == "1 validation error for Event";
    assert FieldLines([field]) == Entry(field) + "";
  }

  /** The text for both timed fields: a plural count line, then `start`'s
      entry before `end`'s. */
  lemma ValidationTextBoth()
    ensures ValidationText(["start", "end"]) == "2 validation errors for Event" + Entry("start") + Entry("end")
  {
    assert Decimal.NatToString(2) == "2";
    assert "2" + " validation error" + "s" + " for Event" == "2 validation errors for Event";
    assert ["start", "end"][1..] == ["end"];
    assert FieldLines(["end"]) == Entry("end") + "";
    assert FieldLines(["start", "end"]) == Entry("start") + FieldLines(["end"]);
  }

  /** The loop body of `_get_events_by_date`: both time strings are read
      (a missing `start` or `end` raises `KeyError`), then parsed, start
      first, and `Event(...)` validates the two datetimes as dates; a
      missing summary names the event "(Без названия)". */
  function ToEvent(e: CalendarServer.ApiEvent, parse: Parser): (r: Result<Event, CalendarServer.Exception>)
    ensures e.start.None? ==> r == Err(CalendarServer.KeyError("start"))
    ensures e.start.Some? && e.end.None? ==> r == Err(CalendarServer.KeyError("end"))
    ensures e.start.Some? && e.end.Some? ==>
      var ps := ParseTime(CalendarServer.TimeOf(e.start.value), parse);
      var pe := ParseTime(CalendarServer.TimeOf(e.end.value), parse);
      && (ps.Err? ==> r == Err(ps.error))
      && (ps.Ok? && pe.Err? ==> r == Err(pe.error))
      && (ps.Ok? && pe.Ok? ==>
            && (r.Ok? <==> ToDate(ps.value).Some? && ToDate(pe.value).Some?)
            && (r.Err? ==> r == Err(CalendarServer.ValidationError(ValidationText(InexactFields(ps.value, pe.value)))))
            && (r.Ok? ==> Some(r.value.start) == ToDate(ps.value) && Some(r.value.end) == ToDate(pe.value)))
    ensures r.Ok? ==> && (e.summary.None? ==> r.value.name == Untitled)
                      && (e.summary.Some? ==> r.value.name == e.summary.value)
  {
    match e.start
    case None => Err(CalendarServer.KeyError("start"))
    case Some(start) =>
      match e.end
      case None => Err(CalendarServer.KeyError("end"))
      case Some(end) =>
        match ParseTime(CalendarServer.TimeOf(start), parse)
        case Err(x) => Err(x)
        case Ok(s) =>
          match ParseTime(CalendarServer.TimeOf(end), parse)
          case Err(x) => Err(x)
          case Ok(t) =>
            var failed := InexactFields(s, t);
            if |failed| > 0 then Err(CalendarServer.ValidationError(ValidationText(failed)))
            else Ok(Event(e.summary.GetOr(Untitled), ToDate(s).value, ToDate(t).value))
  }

  /** The whole loop: one event per item, in API order, or the first
      item's exception. */
  function ToEvents(items: seq<CalendarServer.ApiEvent>, parse: Parser): (r: Result<seq<Event>, CalendarServer.Exception>)
    ensures r.Ok? <==> forall i :: 0 <= i < |items| ==> ToEvent(items[i], parse).Ok?
    ensures r.Ok? ==> |r.value| == |items|
    ensures r.Ok? ==> forall i :: 0 <= i < |items| ==> Ok(r.value[i]) == ToEvent(items[i], parse)
    ensures r.Err? ==> exists k :: (0 <= k < |items| && ToEvent(items[k], parse) == Err(r.error)
      && forall j :: 0 <= j < k ==> ToEvent(items[j], parse).Ok?)
  {
    if |items| == 0 then Ok([])
    else
      match ToEvent(items[0], parse)
      case Err(x) => Err(x)
      case Ok(first) =>
        assert forall j :: 1 <= j < |items| ==> items[j] == items[1..][j - 1];
        match ToEvents(items[1..], parse)
        case Err(x) => Err(x)
        case Ok(rest) => Ok([first] + rest)
  }

  /** `_get_events_by_date`: list the day's window and convert what comes
      back (no `items` is an empty list). */
  function EventsOn(api: CalendarApi, date: int, zoneOffset: int, parse: Parser): (r: Result<seq<Event>, CalendarServer.Exception>)
    ensures api.list(DayWindow(date, zoneOffset)).Err? ==>
      r == Err(CalendarServer.ApiError(api.list(DayWindow(date, zoneOffset)).error))
    ensures api.list(DayWindow(date, zoneOffset)).Ok? ==>
      r == ToEvents(api.list(DayWindow(date, zoneOffset)).value.items.GetOr([]), parse)
  {
    match api.list(DayWindow(date, zoneOffset))
    case Err(message) => Err(CalendarServer.ApiError(message))
    case Ok(response) => ToEvents(response.items.GetOr([]), parse)
  }

  /** `get_today_events`: the events of the local day, at now's offset,
      that holds now. */
  function TodayEvents(api: CalendarApi, now: int, nowOffset: int, zoneOffset: int, parse: Parser)
    : (r: Result<seq<Event>, CalendarServer.Exception>)
    ensures exists date :: && DayWindow(date, nowOffset).timeMin <= now <= DayWindow(date, nowOffset).timeMax
                          && r == EventsOn(api, date, zoneOffset, parse)
  {
    var date := LocalDate(now, nowOffset);
    DayWindowExact(date, nowOffset, now);
    EventsOn(api, date, zoneOffset, parse)
  }

  /** `get_tomorrow_events`: the events of the local day after the one that
      holds now. */
  function TomorrowEvents(api: CalendarApi, now: int, nowOffset: int, zoneOffset: int, parse: Parser)
    : (r: Result<seq<Event>, CalendarServer.Exception>)
    ensures exists date :: && DayWindow(date, nowOffset).timeMin <= now <= DayWindow(date, nowOffset).timeMax
                          && r == EventsOn(api, date + 1, zoneOffset, parse)
  {
    var date := LocalDate(now, nowOffset);
    DayWindowExact(date, nowOffset, now);
    TomorrowIsNextDate(now, nowOffset);
    EventsOn(api, LocalDate(now + Clock.MicrosPerDay, nowOffset), zoneOffset, parse)
  }

  /** Tomorrow's query is the day after today's, and its window starts right
      after today's ends. */
  lemma TomorrowFollowsToday(api: CalendarApi, now: int, nowOffset: int, zoneOffset: int, parse: Parser)
    ensures TomorrowEvents(api, now, nowOffset, zoneOffset, parse)
         == EventsOn(api, LocalDate(now, nowOffset) + 1, zoneOffset, parse)
    ensures DayWindow(LocalDate(now, nowOffset) + 1, zoneOffset).timeMin
         == DayWindow(LocalDate(now, nowOffset), zoneOffset).timeMax + 1
  {
    TomorrowIsNextDate(now, nowOffset);
  }

  // ---------------------------------------------------------------------
  // Adding and deleting

  /** The body `add_event` inserts: both ends moved three hours earlier. */
  function ShiftedBody(name: string, start: int, end: int): (body: NewEvent)
    ensures body.summary == name && body.timeZone == "UTC"
    ensures body.start + Shift == start && body.end + Shift == end
  {
    NewEvent(name, start - Shift, end - Shift, "UTC")
  }

  /** The shift keeps the duration and the order of the two ends. */
  lemma ShiftKeepsDuration(name: string, start: int, end: int)
    ensures ShiftedBody(name, start, end).end - ShiftedBody(name, start, end).start == end - start
    ensures ShiftedBody(name, start, end).start <= ShiftedBody(name, start, end).end <==> start <= end
  {
  }

  /** `add_event`: `self.events` afterwards and the reply, or the exception
      the insert raised (nothing is recorded then). */
  function AddEvent(events: map<string, Option<string>>, name: string, start: int, end: int, api: CalendarApi)
    : (r: Result<(map<string, Option<string>>, string), CalendarServer.Exception>)
    ensures r.Ok? <==> api.insert(ShiftedBody(name, start, end)).Ok?
    ensures api.insert(ShiftedBody(name, start, end)).Err? ==>
      r == Err(CalendarServer.ApiError(api.insert(ShiftedBody(name, start, end)).error))
    ensures r.Ok? ==> r.value.1 == Added
    ensures r.Ok? ==> name in r.value.0 && r.value.0[name] == api.insert(ShiftedBody(name, start, end)).value.id
    ensures r.Ok? ==> r.value.0.Keys == events.Keys + {name}
    ensures r.Ok? ==> forall k :: k in events && k != name ==> r.value.0[k] == events[k]
  {
    match api.insert(ShiftedBody(name, start, end))
    case Err(message) => Err(CalendarServer.ApiError(message))
    case Ok(created) => Ok((events[name := created.id], Added))
  }

  /** Adding under a name already recorded replaces its id: two adds under
      one name leave the second id. */
  lemma AddOverwrites(events: map<string, Option<string>>, name: string, s1: int, e1: int, s2: int, e2: int, api: CalendarApi)
    requires AddEvent(events, name, s1, e1, api).Ok?
    requires AddEvent(AddEvent(events, name, s1, e1, api).value.0, name, s2, e2, api).Ok?
    ensures AddEvent(AddEvent(events, name, s1, e1, api).value.0, name, s2, e2, api).value.0
         == events[name := api.insert(ShiftedBody(name, s2, e2)).value.id]
  {
  }

  /** Adds under different names do not interfere: their order does not
      matter. */
  lemma AddsCommute(events: map<string, Option<string>>, a: string, sa: int, ea: int, b: string, sb: int, eb: int, api: CalendarApi)
    requires a != b
    requires api.insert(ShiftedBody(a, sa, ea)).Ok? && api.insert(ShiftedBody(b, sb, eb)).Ok?
    ensures AddEvent(AddEvent(events, a, sa, ea, api).value.0, b, sb, eb, api)
         == AddEvent(AddEvent(events, b, sb, eb, api).value.0, a, sa, ea, api)
  {
    var ida := api.insert(ShiftedBody(a, sa, ea)).value.id;
    var idb := api.insert(ShiftedBody(b, sb, eb)).value.id;
    assert events[a := ida][b := idb] == events[b := idb][a := ida];
  }

  /** `delete_event`: the success reply when the API call returns, the
      failure reply when it raises; it never raises itself. */
  function DeleteEvent(eventId: string, api: CalendarApi): (r: string)
    ensures r == Deleted <==> api.delete(eventId)
    ensures r == DeleteFailed <==> !api.delete(eventId)
  {
    if api.delete(eventId) then Deleted else DeleteFailed
  }
}
