# Pure rules of the Telegram agent bot and its tool servers

The repository is a Telegram bot. It hands chat messages to an LLM agent,
and the agent calls tools: calendar, mail and spreadsheet servers speaking
the Model Context Protocol (MCP), plus a knowledge-base search. Nearly all
of it is glue around third-party SDKs. This project models the small,
deterministic rules inside that glue and proves what they guarantee:

- **Chat escaping** (`Escape`): `escape_markdown` does fifteen ordered
  `str.replace` passes. The model shows they equal one pass that puts a
  backslash before each listed character. From that it proves the output
  length, that unescaping gives back the input, injectivity, that the
  function is not idempotent, and worked examples.
- **Spreadsheet id** (`SheetTools`): `url.split("/")[-2]`, the
  `IndexError` when there is no slash, and the re-join round trip
  (helpers in `Text`).
- **Attachment conversion** (`MailUtils`, `Base64`, `Decimal`):
  - base64 decoding with 1-based `attachment_<i>.bin` names;
  - the stop at the first failure;
  - the missing `return files`, shown both as written and corrected;
  - a strict RFC 4648 section 4 codec whose round trip is proved.
- **Mail service** (`MailService`):
  - which ids `recieve_emails` fetches (Python negative slicing, including
    `limit == 0`) and in what order;
  - which MIME part becomes the body;
  - `str.strip`;
  - the attachment filenames `send_email_with_attachments` uses.
- **Calendar MCP server** (`CalendarServer`, `Clock`):
  - `call_tool`'s dispatch and error mapping;
  - binding of JSON arguments to the handlers' Python signatures, with
    CPython's `TypeError` texts;
  - field defaults and `count` for event listings;
  - the `create_event` body;
  - the UTC day and week windows.
- **Calendar service** (`CalendarService`): the −3 h shift in `add_event`,
  the name→id map, `delete_event`'s replies, the per-date query window,
  what "today" and "tomorrow" mean, and conversion of API items into
  events.
- **MCP connection choice** (`McpClient`): a URL beats command plus args,
  which beats a `ValueError`.
- **Bot replies** (`Router`): `/health`, `/help` and `/today`.
- **Agent tools** (`AgentTools`): the three server connections, joining
  retrieved passages, and the tool list.
- **Vector-store loading** (`VectorStore`): how chunks, metadata and ids
  are laid out in the single `add_texts` call.

External calls become parameters: the Calendar API, SMTP delivery, the
IMAP fetch, the base64 decoder, the text splitter, the retriever, the id
generator, `datetime.fromisoformat` and the clock. Python exceptions become
`Result` values. Instants are integer microseconds since the epoch, and zone
offsets are integer seconds.

`escape_markdown` escapes the fifteen characters `[ ] ( ) ~ > # + - = | { } . !`.
It does not escape `_`, `*` or the backtick. Telegram's MarkdownV2
formatting rules list eighteen characters to escape, including those
three. This model follows the code.

## Model

| member | source | states |
|---|---|---|
| Escape.EscapeMarkdown | app/utils/escape.py:5-10 | the loop of fifteen replace passes, in list order, gives exactly the single-pass escaping `Escaped` |
| Escape.DangerousListed | app/utils/escape.py:5 | a character is escaped exactly when it is one of the fifteen listed characters |
| Escape.EscapeWithListed | app/utils/escape.py:5-8 | a single pass that marks the listed characters is the reference escaping |
| Escape.ReplaceStep | app/utils/escape.py:7-8 | a pass for a character no earlier pass handled escapes only its original occurrences, because no earlier pass inserted one |
| Escape.EscapeWithNothing | app/utils/escape.py:7 | before any pass the text is unchanged |
| Escape.Replace | app/utils/escape.py:8 | `str.replace` for one character: a text without the target is unchanged, and when the replacement lacks the target no occurrence survives |
| Escape.ReplaceLength | app/utils/escape.py:8 | each occurrence of the target changes the length by the replacement's length minus one |
| Escape.EscapedAppend | app/utils/escape.py:7-8 | escaping works character by character: escaping a concatenation concatenates the escapings |
| Escape.EscapedLength | app/utils/escape.py:7-8 | output length is input length plus the number of listed characters in the input |
| Escape.EscapedHeadSafe | app/utils/escape.py:7-8 | a non-empty output never starts with a listed character |
| Escape.EscapedDangerousPreceded | app/utils/escape.py:7-8 | every listed character in the output sits directly after a backslash |
| Escape.UnescapeEscaped | app/utils/escape.py:5-8 | dropping each backslash that precedes a listed character restores the input, so nothing else changes |
| Escape.EscapedInjective | app/utils/escape.py:7-8 | different inputs give different outputs |
| Escape.EscapedUnchangedIff | app/utils/escape.py:7-10 | the text is returned unchanged exactly when it contains no listed character |
| Escape.NoDangerousUnchanged | app/utils/escape.py:7-10 | text without listed characters, including the empty string, is returned as is |
| Escape.CountDangerousZeroIff | app/utils/escape.py:5 | the count of listed characters is zero exactly when no character is listed |
| Escape.CountDangerousEscaped | app/utils/escape.py:7-8 | the inserted backslashes are not listed, so escaping keeps the count of listed characters |
| Escape.CountDangerousAppend | app/utils/escape.py:5 | the count of listed characters adds up over a concatenation |
| Escape.EscapeTwiceDiffers | app/utils/escape.py:7-8 | not idempotent: text with a listed character changes again when escaped twice |
| Escape.MarkupKept | app/utils/escape.py:3-5 | underscore, asterisk, backtick and backslash pass through unescaped |
| Escape.EscapedSegment | app/utils/escape.py:7-8 | a run of safe characters is copied, and the listed character after it gets one backslash |
| Escape.EscapedExampleDot | app/utils/escape.py:5-8 | `a_b.c` becomes `a_b\.c` |
| Escape.EscapedExampleBrackets | app/utils/escape.py:5-8 | `(1-2)` becomes `\(1\-2\)` |
| Text.Split | servers/sheet/main.py:21 | `str.split` on one character yields at least one segment |
| Text.SplitCount | servers/sheet/main.py:21 | splitting yields the separator count plus one segments |
| Text.SplitNoSeparator | servers/sheet/main.py:21 | no segment contains the separator |
| Text.JoinSplit | servers/sheet/main.py:21 | re-joining the segments with `/` reproduces the URL |
| Text.SplitJoin | servers/sheet/main.py:21 | splitting a join of separator-free segments gives those segments back |
| Text.JoinLength | app/agent/tools.py:41 | a join's length is the parts' total length plus one separator between each neighbouring pair |
| Text.JoinSnoc | app/agent/tools.py:41 | joining one more part appends the separator and that part |
| Text.CountZero | servers/sheet/main.py:21 | a character occurs zero times exactly when it is absent |
| SheetTools.SpreadsheetId | servers/sheet/main.py:21 | `IndexError` exactly when the URL has no `/`; otherwise the id contains no `/` |
| SheetTools.ToolCall | servers/sheet/main.py:9-76 | each tool fails exactly when the URL has no `/`, and otherwise passes the extracted id, range and rows on |
| SheetTools.SpreadsheetIdOfSegments | servers/sheet/main.py:21 | for a URL of slash-free segments, the id is the second-to-last segment |
| SheetTools.ToolsAgreeOnId | servers/sheet/main.py:21-69 | all four tools extract the same id from the same URL |
| SheetTools.NoSlashRaises | servers/sheet/main.py:21 | a URL without `/` raises `IndexError` |
| SheetTools.EditLinkId | servers/sheet/main.py:21 | `https://docs.google.com/spreadsheets/d/ID/edit` yields `ID` |
| SheetTools.TrailingSlashShifts | servers/sheet/main.py:21 | `.../d/ID/` yields `ID`, while `.../d/ID` yields `d` |
| Decimal.NatToString | servers/mail/utils.py:18 | the decimal rendering has only digits and no leading zero |
| Decimal.IntToString | servers/calendar/calendar_server.py:286 | an integer rendering starts with `-` exactly for negative values, and reading it back gives the integer |
| Decimal.NatToStringRoundTrip | servers/mail/utils.py:18 | reading the digits back gives the number |
| Decimal.NatToStringInjective | servers/mail/utils.py:18 | distinct numbers render differently |
| Base64.Encode | servers/mail/utils.py:16 | an encoding's length is a multiple of four |
| Base64.SextetCharRoundTrip | servers/mail/utils.py:16 | the alphabet table of RFC 4648 is inverted by the decoder's lookup |
| Base64.GroupRoundTrip | servers/mail/utils.py:16 | decoding a full group undoes its bit packing |
| Base64.PairRoundTrip | servers/mail/utils.py:16 | decoding a two-byte final group undoes its bit packing |
| Base64.DecodeEncode | servers/mail/utils.py:16 | decoding a canonical encoding returns the original bytes |
| Base64.DecodeEncodeOne | servers/mail/utils.py:16 | a one-byte final group with `==` padding round-trips |
| Base64.DecodeEncodeTwo | servers/mail/utils.py:16 | a two-byte final group with `=` padding round-trips |
| Base64.DecodeEncodeGroup | servers/mail/utils.py:16 | a full group in front of a decodable rest decodes to its three bytes followed by the rest |
| Base64.DecodeEncodeStep | servers/mail/utils.py:16 | a whole group in front of a round-tripping rest round-trips |
| Base64.EncodeLength | servers/mail/utils.py:16 | four characters per started group of three bytes |
| Base64.DecodeNeedsQuads | servers/mail/utils.py:16 | a length that is not a multiple of four is rejected |
| Base64.Decode | servers/mail/utils.py:16 | `b64decode` in strict form: a successful decoding had whole groups of four (acceptance is characterised by `DecodeStrict`) |
| Base64.DecodeStrict | servers/mail/utils.py:16 | the decoder succeeds exactly on strict base64 text, both directions |
| Base64.StrictQuad | servers/mail/utils.py:16 | a single group decodes exactly when it is strict: two, one or no trailing `=` |
| Base64.DecodeFront | servers/mail/utils.py:16 | past a first group, decoding needs four alphabet characters and a decodable rest |
| Base64.StrictFront | servers/mail/utils.py:16 | a text of several groups is strict exactly when its first group is four alphabet characters and the rest is strict |
| Base64.StrictTail | servers/mail/utils.py:16 | a strict text of several groups starts with four alphabet characters and has a strict rest |
| Base64.StrictCons | servers/mail/utils.py:16 | four alphabet characters in front of a strict text give a strict text |
| Base64.DecodeEncodings | servers/mail/utils.py:16 | any text that encodes some bytes decodes to those bytes |
| MailUtils.Collect | servers/mail/utils.py:13-21 | succeeds exactly when every entry decodes, giving one buffer per entry in order named `attachment_<i>.bin` (1-based); otherwise it reports the first failing entry's 1-based index and error |
| MailUtils.AttachmentNameReadsBack | servers/mail/utils.py:18 | an attachment name is `attachment_`, a number that reads back as the position, and `.bin` |
| MailUtils.DecodeErrorTextReadsBack | servers/mail/utils.py:20-21 | a decoding error text is the fixed prefix, a number that reads back as the 1-based position, `: ` and then the exception text |
| MailUtils.ConvertAttachments | servers/mail/utils.py:12-22 | as written: `None` exactly when every entry decodes, including empty input; otherwise the error dict for the first failing entry |
| MailUtils.ConvertAttachmentsIntended | servers/mail/utils.py:12-22 | corrected: the named buffers in input order when all decode, else the error dict naming the first failing entry |
| MailUtils.ConvertDiscardsFiles | servers/mail/utils.py:12-22 | when all entries decode, the code returns `None` although the corrected version returns one buffer per entry |
| MailUtils.LaterEntriesIgnored | servers/mail/utils.py:20-21 | after the first failure, appended entries do not change the outcome |
| MailUtils.AttachmentNamesDistinct | servers/mail/utils.py:18 | different positions get different names |
| MailUtils.StrictDecode | servers/mail/utils.py:16 | the decoder succeeds exactly on strict base64 text (`IsStrictBase64`), and an encoding of some bytes decodes to exactly those bytes |
| MailUtils.ConvertEncoded | servers/mail/utils.py:14-19 | converting the encodings of payloads gives back one buffer per payload, in order, named by position |
| MailUtils.MissingReturnExample | servers/mail/utils.py:12-22 | `["QUJD"]` converts to `None`; the corrected version yields `attachment_1.bin` holding `ABC` |
| MailUtils.DecodeAbc | servers/mail/utils.py:16 | `QUJD` decodes strictly to the bytes of `ABC` |
| MailService.SliceStart | servers/mail/service.py:88 | a normalised slice start lies within the list |
| MailService.LatestIds | servers/mail/service.py:88 | `mail_ids[-limit:]` is a suffix of the ids; for `0 <= limit <= n` it holds `limit` ids, or all of them for `limit == 0` |
| MailService.Reverse | servers/mail/service.py:91 | `reversed` puts element `k` at position `n-1-k` |
| MailService.FetchOrder | servers/mail/service.py:88-91 | fetched ids are the newest first. Counts: `limit` of them for `1 <= limit <= n`; all for `limit == 0` or `limit > n`; all but the first `-limit` for negative `limit` |
| MailService.DefaultLimitFetchesFiveNewest | servers/mail/service.py:78-91 | with the default limit of 5, the five newest ids are fetched, newest first |
| MailService.ZeroLimitFetchesAll | servers/mail/service.py:88 | `limit == 0` fetches every id, because `[-0:]` is the whole list |
| MailService.FirstPlainText | servers/mail/service.py:101-107 | the body is the first `text/plain` part without Content-Disposition, or `""` when there is none |
| MailService.StripLeft | servers/mail/service.py:114 | drops exactly the leading whitespace |
| MailService.StripRight | servers/mail/service.py:114 | drops exactly the trailing whitespace |
| MailService.Strip | servers/mail/service.py:114 | the result is an infix whose surroundings are all whitespace, and it neither starts nor ends with whitespace |
| MailService.BodyText | servers/mail/service.py:100-109 | a single-part message's body is its whole payload. A multipart body is the first `text/plain` part without Content-Disposition, or `""` when there is none |
| MailService.Summarize | servers/mail/service.py:101-115 | the dict for one message keeps sender and subject. Its body is the extracted body text with leading and trailing whitespace runs removed, so it neither starts nor ends with whitespace |
| MailService.ReceiveEmails | servers/mail/service.py:90-115 | one summary per fetched id, in fetch order, with a trimmed body |
| MailService.AttachmentParts | servers/mail/service.py:56-65 | one octet-stream attachment per file, in order, under the file's own name or `attachment_<i>.bin` |
| MailService.SummarizeInOrder | servers/mail/service.py:90-115 | one summary per id, in the given order |
| MailService.SendEmailWithAttachments | servers/mail/service.py:49-74 | the message carries sender, recipient, subject and body, and its attachments are exactly `AttachmentParts(files)`; the result is the delivery outcome |
| MailService.SendEmail | servers/mail/service.py:29-44 | the same message without attachments, and the delivery outcome |
| MailService.ConvertedNamesKept | servers/mail/service.py:58 | buffers named by conversion keep their `attachment_<i>.bin` names in the message |
| Clock.Midnight | servers/calendar/calendar_server.py:174 | midnight is the start of the day holding the instant |
| Clock.Weekday | servers/calendar/calendar_server.py:218 | a weekday lies in 0..6 |
| Clock.WeekdayNext | servers/calendar/calendar_server.py:218 | the next day has the next weekday |
| Clock.MidnightShift | servers/calendar/calendar_server.py:218-219 | stepping back whole days keeps the time of day, so midnight moves by the same days |
| Clock.DayOfBounds | servers/calendar/service.py:48-49 | an instant falls on day `d` exactly when it lies in that day's span |
| Clock.DayOfNext | servers/calendar/service.py:81 | one day later is the next day |
| CalendarServer.TimeOf | servers/calendar/calendar_server.py:195-196 | an event time is its `dateTime` if present, else its `date` |
| CalendarServer.Render | servers/calendar/calendar_server.py:286 | an f-string shows a string argument as it is and an integer as digits that read back as that integer |
| CalendarServer.ErrorText | servers/calendar/calendar_server.py:166-167 | `str(e)`: a `KeyError` shows its key between single quotes, the other exceptions their message |
| CalendarServer.FormatEvent | servers/calendar/calendar_server.py:195-205 | missing `start` (checked first) or `end` raises `KeyError`. Otherwise: `No Title` for a missing summary; `''` for missing description, location or status |
| CalendarServer.FormatEvents | servers/calendar/calendar_server.py:193-205 | one formatted event per item in API order, or the first failing item's exception |
| CalendarServer.ListEvents | servers/calendar/calendar_server.py:181-211 | when the API answers, the result succeeds exactly when every item formats: it lists the formatted items with `count` equal to their number and the given query echo; otherwise it is the first item's formatting exception. An API error is passed on |
| CalendarServer.TodayWindow | servers/calendar/calendar_server.py:173-175 | the day window starts at a midnight, lasts one day and contains now |
| CalendarServer.WeekWindow | servers/calendar/calendar_server.py:217-220 | the week window starts at a Monday midnight, lasts seven days and contains now |
| CalendarServer.TodayWithinWeek | servers/calendar/calendar_server.py:173-220 | today's window lies inside this week's |
| CalendarServer.Lookup | servers/calendar/calendar_server.py:158-160 | a keyword is found exactly when some argument has that name |
| CalendarServer.FirstRejected | servers/calendar/calendar_server.py:158-160 | finds the first keyword the handler does not accept, or none when all are accepted |
| CalendarServer.Missing | servers/calendar/calendar_server.py:259-290 | the names of exactly the parameters without a default that no keyword supplies; empty exactly when all are supplied or defaulted |
| CalendarServer.MissingSnoc | servers/calendar/calendar_server.py:259-290 | the missing names come in declaration order: declaring one more parameter last appends its name exactly when it is missing |
| CalendarServer.MissingTextOne | servers/calendar/calendar_server.py:158 | one missing argument gives the singular CPython message naming it |
| CalendarServer.Bind | servers/calendar/calendar_server.py:157-160 | binding succeeds exactly when every keyword is accepted and every parameter without a default is supplied; values come from the arguments or the defaults; failures are `TypeError` with CPython's text: multiple values for a `service` keyword, else the first unexpected keyword, else the list of missing names |
| CalendarServer.CreateEvent | servers/calendar/calendar_server.py:259-287 | inserts summary, description, location, and start and end in `UTC`; reports id, link and `Event '<title>' created successfully`; API errors are passed on |
| CalendarServer.ToolNamed | servers/calendar/calendar_server.py:153-162 | each of the four tool names selects its handler; any other name selects none |
| CalendarServer.Invoke | servers/calendar/calendar_server.py:153-160 | `list_today_events` lists today's window and `list_week_events` this week's, neither echoing a query. `create_event` and `search_events` first bind the arguments, passing a binding error on. `create_event` passes the bound values to the insert. `search_events` searches with the bound query and limit and echoes the query. A success is never an error dict, only `create_event` yields a created-event result, and listings keep `count` equal to the number of events |
| CalendarServer.Reply | servers/calendar/calendar_server.py:164-167 | a handler's exception becomes `{"error": str(e)}` |
| CalendarServer.CallTool | servers/calendar/calendar_server.py:146-167 | without a service, every call gets the init error, unknown names included. Otherwise an unknown name gets `Unknown tool: <name>`, and a known one gets its handler's result or its exception's text. The call never raises |
| CalendarServer.ListTools | servers/calendar/calendar_server.py:94-142 | four tools with distinct names, each requiring only properties it lists |
| CalendarServer.ListedToolsDispatch | servers/calendar/calendar_server.py:94-162 | the advertised tool names are exactly the dispatched ones |
| CalendarServer.Properties | servers/calendar/calendar_server.py:115-140 | one property per parameter, in order |
| CalendarServer.Required | servers/calendar/calendar_server.py:115-140 | the required names are exactly the parameters without a default |
| CalendarServer.SchemasMatchSignatures | servers/calendar/calendar_server.py:115-141 | the advertised properties and required lists match the handler signatures |
| CalendarServer.BindsIffConforms | servers/calendar/calendar_server.py:115-160 | arguments bind without `TypeError` exactly when they satisfy a closed, type-blind reading of the schema derived from the signature: only listed properties, all required ones present |
| CalendarServer.OpenSchemaAdmitsRejected | servers/calendar/calendar_server.py:129-141 | the advertised `search_events` schema admits `{"query": "x", "limit": 3}`, whose keys include the required one, but binding rejects `limit` with the unexpected-keyword text |
| CalendarServer.SearchDefaultsToTen | servers/calendar/calendar_server.py:290-299 | leaving out `max_results` is the same as passing 10 |
| CalendarServer.SearchEchoesQuery | servers/calendar/calendar_server.py:318-323 | a successful search echoes its query |
| CalendarServer.SearchBindsTen | servers/calendar/calendar_server.py:290 | `{"query": q}` binds to the query and a limit of 10 |
| CalendarServer.SearchBindsLimit | servers/calendar/calendar_server.py:290 | an explicit `max_results` binds as given |
| CalendarServer.CreateWithoutEndTime | servers/calendar/calendar_server.py:157-167 | `create_event` without `end_time` returns the missing-argument `TypeError` text as an error result |
| CalendarServer.CreateBindsWithoutEndTime | servers/calendar/calendar_server.py:157-158 | binding only a title and a start fails with the `TypeError` naming `end_time` |
| CalendarServer.MissingEndTime | servers/calendar/calendar_server.py:259 | with title and start supplied, only `end_time` is missing |
| CalendarServer.UnexpectedKeyword | servers/calendar/calendar_server.py:157-167 | an undeclared keyword is reported by name |
| CalendarServer.ServiceKeywordCollides | servers/calendar/calendar_server.py:157-167 | a `service` keyword collides with the positional service argument |
| CalendarService.DayWindow | servers/calendar/service.py:48-49 | the query window runs from the day's first microsecond to its last |
| CalendarService.DayWindowExact | servers/calendar/service.py:48-49 | an instant is in the window exactly when its local date is the queried date |
| CalendarService.WindowsAdjacent | servers/calendar/service.py:48-49 | consecutive days' windows leave no gap and do not overlap |
| CalendarService.TomorrowIsNextDate | servers/calendar/service.py:81 | now plus one day has the next local date |
| CalendarService.TomorrowFollowsToday | servers/calendar/service.py:76-82 | tomorrow's query is for the date after today's, and its window starts right after today's ends |
| CalendarService.ParseTime | servers/calendar/service.py:67-68 | a missing time string raises `TypeError`; a parse error becomes `ValueError` |
| CalendarService.ToDate | servers/calendar/base.py:9-10 | a datetime given to a `date` field is accepted exactly when its wall-clock time is midnight, and then stands for that day |
| CalendarService.InexactFields | servers/calendar/base.py:9-10 | the fields pydantic rejects are exactly those whose datetime has a time of day, `start` before `end` |
| CalendarService.ValidationTextOne | servers/calendar/service.py:70-71 | when one field is timed, the `ValidationError` text is `1 validation error for Event`, then the field's name and pydantic's zero-time message on an indented line |
| CalendarService.ValidationTextBoth | servers/calendar/service.py:70-71 | when both fields are timed, the text says `2 validation errors for Event`, then `start`'s entry before `end`'s |
| CalendarService.ToEvent | servers/calendar/service.py:63-71 | a missing start or end raises `KeyError`, start first. Then the start is parsed and its error raised, then the end's. With both parsed, the event is built exactly when both are at midnight, and holds their dates; otherwise pydantic's `ValidationError` names the timed fields. The name defaults to `(Без названия)` |
| CalendarService.ToEvents | servers/calendar/service.py:59-72 | one event per item in API order, or the first failing item's exception |
| CalendarService.EventsOn | servers/calendar/service.py:46-72 | lists the date's window and converts the items, or passes on the API error |
| CalendarService.TodayEvents | servers/calendar/service.py:76-78 | the events of the local day, at now's offset, whose window holds now |
| CalendarService.TomorrowEvents | servers/calendar/service.py:80-82 | the events of the local day after the one whose window holds now |
| CalendarService.ShiftedBody | servers/calendar/service.py:88-103 | both ends move three hours earlier; the summary is the name; the zone is `UTC` |
| CalendarService.ShiftKeepsDuration | servers/calendar/service.py:88-89 | the shift keeps duration and order |
| CalendarService.AddEvent | servers/calendar/service.py:85-107 | succeeds exactly when the insert does. Then `events[name]` is the returned id, other keys are unchanged, and the reply is `Событие добавлено`. An insert error propagates |
| CalendarService.AddOverwrites | servers/calendar/service.py:106 | re-adding a name keeps only the second id |
| CalendarService.AddsCommute | servers/calendar/service.py:106 | adds under different names do not interfere |
| CalendarService.DeleteEvent | servers/calendar/service.py:109-118 | `Событие удалено` exactly when the API call succeeds, `Произошла ошибка при удалении события` exactly when it raises |
| McpClient.CalendarConnection | app/mcp/calendar.py:16-35 | a set URL gives streamable HTTP; otherwise a command plus args gives stdio with args `[args]`; otherwise a `ValueError` with the fixed message. Transport and timeout pass through |
| McpClient.UrlBeatsCommand | app/mcp/calendar.py:17-24 | once a URL is set, command and args do not matter |
| McpClient.CommandNeedsArgs | app/mcp/calendar.py:25-35 | without a URL, stdio needs both command and args, and an empty string counts as unset |
| Router.HealthReplyDistinct | app/bots/router.py:10-12 | `/health` answers the single line `ok`, which equals no `/help` or `/today` reply |
| Router.HelpReply | app/bots/router.py:16-23 | the help text reads back as exactly the four fixed lines |
| Router.EventLineLayout | app/bots/router.py:34-37 | an event line is `- `, the start, `-`, the end, a space and the title, with the defaults `""` and `(no title)` |
| Router.EventLines | app/bots/router.py:32-37 | one `- {start}-{end} {title}` line per event, in order |
| Router.TodayReply | app/bots/router.py:27-38 | the reply is `No events today.` exactly when there are no events |
| Router.TodayReplyLines | app/bots/router.py:32-38 | when no field of any event holds a line break, a non-empty reply reads back as `Today:` followed by one line per event, in order |
| AgentTools.McpConnections | app/agent/tools.py:13-35 | calendar, mail and sheet, each over streamable HTTP with its configured transport, URL and timeout |
| AgentTools.CalendarConnectionsAgree | app/agent/tools.py:16-20 | with a URL set, the agent's calendar connection is the one the calendar client chooses |
| AgentTools.Contents | app/agent/tools.py:41 | the page contents in retrieval order |
| AgentTools.RagSearch | app/agent/tools.py:37-41 | no documents give `""`; one document gives its content unchanged |
| AgentTools.RagSearchLength | app/agent/tools.py:41 | the reply's length is the passages' total length plus `2(n-1)` |
| AgentTools.RagSearchSnoc | app/agent/tools.py:41 | one more passage appends `\n\n` and that passage |
| AgentTools.GetTools | app/agent/tools.py:44-54 | the MCP tools in order, then the knowledge-base search; length is MCP count plus one |
| AgentTools.KnowledgeBaseOnceAndLast | app/agent/tools.py:52-54 | the knowledge-base search appears exactly once, in last place |
| VectorStore.Chunks | app/vectordb/store.py:39-40 | each content's chunks, per content |
| VectorStore.Numbered | app/vectordb/store.py:41-43 | chunk numbers `0..n-1` |
| VectorStore.Numbering | app/vectordb/store.py:41-43 | numbering restarts at 0 for each content |
| VectorStore.FlattenSnoc | app/vectordb/store.py:39-42 | appending a content's chunks extends the flattened texts by them |
| VectorStore.FlattenAppend | app/vectordb/store.py:39-42 | the texts of two runs of contents are the texts of the first run followed by those of the second |
| VectorStore.FlattenPrefix | app/vectordb/store.py:39-42 | the texts after `k` contents extend the texts after fewer |
| VectorStore.FlattenSameLength | app/vectordb/store.py:42-43 | texts and metadata grow in step |
| VectorStore.FlattenAt | app/vectordb/store.py:39-42 | chunk `j` of content `i` sits after all earlier contents' chunks |
| VectorStore.LoadToStore | app/vectordb/store.py:29-49 | one `add_texts` call: texts are all chunks in input order; metadata numbers chunks within their content; one id per text, drawn in order; equal lengths |
| VectorStore.ChunkPlacement | app/vectordb/store.py:39-44 | chunk `j` of content `i` is stored at `offset(i) + j` with `{"chunk": j}` |
| VectorStore.IdsDistinct | app/vectordb/store.py:44 | an id source that never repeats gives every chunk its own id |

## Left out

- Google OAuth, token files and `get_credentials`: credential I/O. `CallTool` receives the service or `None`. The caching of the global `service` is not modelled.
- CalendarServer.CallTool: an exception raised while `get_calendar_service` builds the service, such as a failed token refresh, would be answered with its text inside the same `try`. The model has no such exception; the service is present or `None`.
- CalendarService.AddEvent: the `print` of the shifted times in `add_event` is console output and is left out.
- CalendarServer.Lookup: takes the first entry with a key. Python's JSON decoding keeps the last of duplicate keys, so the model assumes the arguments, a JSON object, have distinct keys.
- The JSON text of `call_tool`'s `TextContent`: `json.dumps` serialisation. The model returns the dict as a `ToolResult` value.
- CalendarServer.Value: arguments are strings or integers. Other JSON values (booleans, floats, lists, null) and their f-string rendering are not modelled.
- CalendarServer.Bind: CPython's message texts are modelled as of Python 3.10 to 3.12, which use the qualified name. From 3.13 an unexpected keyword close to a parameter name gets the suffix `. Did you mean '<name>'?`, as in `create_event() got an unexpected keyword argument 'titel'. Did you mean 'title'?`; that suffix is not modelled. Positional-only and `**kwargs` signatures do not occur.
- CalendarServer.TodayWindow and CalendarServer.WeekWindow: give instants, not the `isoformat() + 'Z'` text.
- CalendarService.DayWindow: the zone offset is a parameter. With `pytz`, `datetime.combine(..., tzinfo=...)` attaches the zone's first (local mean time) offset. Which offset that is depends on the pytz database, so it is not fixed here. `datetime.now(zone)` uses the real offset, the separate `nowOffset`.
- CalendarService.ShiftedBody: the `isoformat() + "Z"` rendering of the shifted times is not modelled; the instants are.
- `datetime.fromisoformat` is a parameter (`Parser`); ISO-8601 parsing is not modelled.
- CalendarService.ToEvent: models pydantic's coercion of the parsed datetimes to the `date` fields (a midnight datetime becomes its date, a timed one is refused), but the `ValidationError` text leaves out pydantic's bracketed `[type=..., input_value=..., input_type=...]` detail and the documentation URL line; strict mode and the `name` field's validation (always a string here) are not modelled.
- MailService.ReceiveEmails: the IMAP session, `decode_header` (RFC 2047) and payload decoding are a `fetch` parameter; the final log line is left out.
- SMTP delivery is a parameter returning success or failure. Header encoding by `EmailMessage` is not modelled.
- MailUtils.StrictDecode: rejects texts that `base64.b64decode` accepts in its default, non-strict mode. The model does not decode any of them. That mode does the following:
  - it drops characters outside the alphabet;
  - it stops at the first complete padding and ignores the rest, so `QQ==QUJD` gives `A`;
  - it accepts surplus `=`, so `QQ===` gives `A`;
  - it skips an `=` that comes before a group's second data character, so `=QUJD` and `QUJD====` give `ABC`.

  For such a string, `convert_attachments` as written goes on and returns `None` when nothing else fails, while `ConvertAttachments` with `StrictDecode` returns the error dict. The round trip is stated for canonical encodings, which both decoders accept alike.
- Settings: app/configs/settings.py defines only `bot_token` and `environment`. The fields `mcp_calendar`, `mcp_mail`, `mcp_sheet`, `collection_name` and the per-server transport, URL, command, arguments and timeout are inferred from their use in app/mcp/calendar.py, app/agent/tools.py and scripts/load_pdf.py. The model takes them as given settings values.
- MailUtils.StrictDecode: every failure carries the one text `Invalid base64-encoded string`. CPython's texts differ by case: `Incorrect padding`, the count of data characters that is one more than a multiple of four, or a `ValueError` for non-ASCII input. So the error dict's message is modelled only up to that text.
- `load_config` (file reading) in servers/mail/utils.py: I/O.
- The wrapping of results in servers/mail/main.py, servers/calendar/main.py and servers/sheet/service.py: thin tool wrappers. This includes mail's `send_email_with_attachments` passing `None` on to the service.
- The Sheets API calls behind `GoogleSheetService`: network I/O. `SheetTools.ToolCall` stops at the request it builds.
- `MultiServerMCPClient` and its handling of the connection value: library code. `CalendarMcpClient` passes a single connection where `get_mcp_client` passes a name→connection map; what the library does with each is not modelled.
- `get_store`, Qdrant and embeddings, and the recursive splitter's algorithm: external. The splitter is a parameter configured as `LoaderSplitter`.
- The retriever is a parameter. The call passes `k=5` to `as_retriever`, and whether that bounds the number of documents depends on the library; the model fixes no count.
- The source of `today_cmd`'s events: app/services/calendar_service.py does not work as written, so the events are an input. Any non-string value passed through `str(...)` is not modelled.
- Agent orchestration, Redis memory, the Telegram transport, app/bots/command_router.py (a duplicate of `/health` and `/help`) and the startup scripts: outside the core.

## Findings

| source | as written | input that shows it | evidently intended | confidence | as-written member | corrected member |
|---|---|---|---|---|---|---|
| servers/mail/utils.py:12-22 | `convert_attachments` has no `return files` after the loop, so when every attachment decodes it returns `None` and the buffers it built are lost | `["QUJD"]` (base64 of `ABC`) returns `None` | return the list of named buffers when every attachment decodes | high (not executed) | MailUtils.ConvertAttachments, MailUtils.MissingReturnExample, MailUtils.ConvertDiscardsFiles | MailUtils.ConvertAttachmentsIntended |
