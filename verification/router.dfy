/** The bot's plain command replies (app/bots/router.py): `/health`,
    `/help`, and the text `/today` builds from the day's events. Fetching
    the events is not modelled; they are an input. */
module Router {
  import opened Wrappers
  import Text

  const Newline: char := '\n'

  /** The `/health` reply. */
  const HealthReply: string := "ok"

  /** `/health` answers the single line `ok`, which no `/help` or `/today`
      reply equals. */
  lemma HealthReplyDistinct(events: seq<EventDict>)
    ensures Text.Split(HealthReply, Newline) == [HealthReply]
    ensures HealthReply != HelpReply()
    ensures HealthReply != TodayReply(events)
  {
    Text.SplitCount(HealthReply, Newline);
    Text.CountZero(HealthReply, Newline);
    Text.JoinSplit(HealthReply, Newline);
    assert |Text.Split(HelpReply(), Newline)| == 4;
    if |events| > 0 {
      var lines := [TodayHeader] + EventLines(events);
      Text.JoinLength(lines, [Newline]);
      assert Text.TotalLength(lines) >= |TodayHeader|;
    }
  }

  /** The four lines of the `/help` reply. */
  const HelpLines: seq<string> := [
    "Commands:",
    "/health - check status",
    "/help - show this help",
    "/today - show today calendar (MCP stub)"]

  /** The `/help` reply: the lines above, one per line. */
  function HelpReply(): (r: string)
    ensures Text.Split(r, Newline) == HelpLines
  {
    assert Newline !in HelpLines[0] && Newline !in HelpLines[1];
    assert Newline !in HelpLines[2] && Newline !in HelpLines[3];
    Text.SplitJoin(HelpLines, Newline);
    Text.Join(HelpLines, [Newline])
  }

  const NoEvents: string := "No events today."
  const TodayHeader: string := "Today:"

  /** One event dict as `/today` reads it; `None` is a missing key. */
  datatype EventDict = EventDict(title: Option<string>, start: Option<string>, end: Option<string>)

  /** `f"- {start}-{end} {title}"` with the defaults "(no title)" and "". */
  function EventLine(e: EventDict): string
  {
    "- " + e.start.GetOr("") + "-" + e.end.GetOr("") + " " + e.title.GetOr("(no title)")
  }

  /** Where the three fields land in an event line: the start after the
      dash and space, the end after the next dash, the title last. */
  lemma EventLineLayout(e: EventDict)
    ensures var r, start, end, title := EventLine(e), e.start.GetOr(""), e.end.GetOr(""), e.title.GetOr("(no title)");
      && |r| == |start| + |end| + |title| + 4
      && r[..2] == "- " && r[2..2 + |start|] == start && r[2 + |start|] == '-'
      && r[3 + |start|..3 + |start| + |end|] == end && r[3 + |start| + |end|] == ' '
      && r[|r| - |title|..] == title
  {
  }

  /** The loop that collects one line per event, in order. */
  function EventLines(events: seq<EventDict>): (lines: seq<string>)
    ensures |lines| == |events|
    ensures forall i :: 0 <= i < |events| ==> lines[i] == EventLine(events[i])
  {
    seq(|events|, i requires 0 <= i < |events| => EventLine(events[i]))
  }

  /** The `/today` reply. */
  function TodayReply(events: seq<EventDict>): (r: string)
    ensures |events| == 0 <==> r == NoEvents
  {
    if |events| == 0 then NoEvents
    else
      var r := Text.Join([TodayHeader] + EventLines(events), [Newline]);
      assert r[0] == 'T' by {
        assert r == TodayHeader + [Newline] + Text.Join(EventLines(events), [Newline]);
      }
      assert NoEvents[0] == 'N';
      r
  }

  /** No field holds a line break. */
  predicate SingleLine(e: EventDict)
  {
    && (e.title.Some? ==> Newline !in e.title.value)
    && (e.start.Some? ==> Newline !in e.start.value)
    && (e.end.Some? ==> Newline !in e.end.value)
  }

  /** Read back line by line, a non-empty reply is the header followed by
      one line per event, in order, as long as no field holds a line
      break. */
  lemma TodayReplyLines(events: seq<EventDict>)
    requires |events| > 0
    requires forall i :: 0 <= i < |events| ==> SingleLine(events[i])
    ensures Text.Split(TodayReply(events), Newline) == [TodayHeader] + EventLines(events)
  {
    var lines := [TodayHeader] + EventLines(events);
    forall i | 0 <= i < |lines|
      ensures Newline !in lines[i]
    {
      if i > 0 {
        var e := events[i - 1];
        assert lines[i] == "- " + e.start.GetOr("") + "-" + e.end.GetOr("") + " " + e.title.GetOr("(no title)");
      }
    }
    Text.SplitJoin(lines, Newline);
  }
}
