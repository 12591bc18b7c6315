/** The four spreadsheet tools (servers/sheet/main.py). Each one takes the
    spreadsheet id from its URL argument as `url.split("/")[-2]` and hands
    it, with the range and data, to the Sheets service. The service itself
    (network calls) is not modelled; a tool call is reduced to the service
    request it builds, or to the `IndexError` the extraction raises. */
module SheetTools {
  import opened Wrappers
  import Text

  const Slash: char := '/'

  /** `list index out of range`, raised by `[-2]` on a one-element list. */
  datatype SheetError = IndexError

  /** The four tools, with the rows the writing ones carry. */
  datatype SheetOp =
    | GetData
    | SetData(rows: seq<seq<string>>)
    | AppendData(rows: seq<seq<string>>)
    | ClearData

  /** What a tool hands to `GoogleSheetService(spreadsheet_id, range_name)`. */
  datatype ServiceRequest = ServiceRequest(spreadsheetId: string, rangeName: string, op: SheetOp)

  /** `spredsheet_url.split("/")[-2]`: the second-to-last `/`-separated
      segment. Python's negative index needs at least two segments, that is,
      at least one `/`; otherwise `IndexError`. */
  function SpreadsheetId(url: string): (r: Result<string, SheetError>)
    ensures r.Err? <==> Slash !in url
    ensures r.Ok? ==> Slash !in r.value
  {
    var parts := Text.Split(url, Slash);
    Text.SplitCount(url, Slash);
    Text.CountZero(url, Slash);
    Text.SplitNoSeparator(url, Slash);
    if |parts| < 2 then Err(IndexError) else Ok(parts[|parts| - 2])
  }

  /** A tool call (`get_data`, `set_data`, `append_data`, `clear_data`):
      every tool extracts the id the same way and passes range and rows on
      unchanged. */
  function ToolCall(url: string, rangeName: string, op: SheetOp): (r: Result<ServiceRequest, SheetError>)
    ensures r.Err? <==> Slash !in url
    ensures r.Ok? ==> Ok(r.value.spreadsheetId) == SpreadsheetId(url)
    ensures r.Ok? ==> r.value.rangeName == rangeName && r.value.op == op
  {
    match SpreadsheetId(url)
    case Err(e) => Err(e)
    case Ok(id) => Ok(ServiceRequest(id, rangeName, op))
  }

  /** For a URL made of slash-free segments, the id is the second-to-last
      segment; every URL is of this form (`Text.JoinSplit`). */
  lemma SpreadsheetIdOfSegments(segments: seq<string>)
    requires |segments| >= 2
    requires Text.NoSeparator(segments, Slash)
    ensures SpreadsheetId(Text.Join(segments, [Slash])) == Ok(segments[|segments| - 2])
  {
    var url := Text.Join(segments, [Slash]);
    Text.SplitJoin(segments, Slash);
    assert Text.Split(url, Slash) == segments;
    assert Slash in url by {
      Text.SplitCount(url, Slash);
      Text.CountZero(url, Slash);
    }
  }

  /** All four tools derive the same id from the same URL. */
  lemma ToolsAgreeOnId(url: string, rangeName: string, rows: seq<seq<string>>)
    ensures ToolCall(url, rangeName, GetData).Ok? ==>
      && ToolCall(url, rangeName, SetData(rows)).value.spreadsheetId == ToolCall(url, rangeName, GetData).value.spreadsheetId
      && ToolCall(url, rangeName, AppendData(rows)).value.spreadsheetId == ToolCall(url, rangeName, GetData).value.spreadsheetId
      && ToolCall(url, rangeName, ClearData).value.spreadsheetId == ToolCall(url, rangeName, GetData).value.spreadsheetId
  {
  }

  /** A URL without any `/` has one segment, so `[-2]` raises. */
  lemma NoSlashRaises()
    ensures SpreadsheetId("spreadsheet") == Err(IndexError)
  {
    var url := "spreadsheet";
    assert forall i :: 0 <= i < |url| ==> url[i] != Slash;
  }

  /** The usual edit link: the id sits between `/d/` and `/edit`. */
  lemma EditLinkId()
    ensures SpreadsheetId(Text.Join(["https:", "", "docs.google.com", "spreadsheets", "d", "ID", "edit"], "/")) == Ok("ID")
  {
    SpreadsheetIdOfSegments(["https:", "", "docs.google.com", "spreadsheets", "d", "ID", "edit"]);
  }

  /** A trailing slash shifts the segments: `.../d/ID/` still yields the id
      (its last segment is empty), while `.../d/ID` yields `d`. */
  lemma TrailingSlashShifts()
    ensures SpreadsheetId(Text.Join(["docs", "d", "ID", ""], "/")) == Ok("ID")
    ensures SpreadsheetId(Text.Join(["docs", "d", "ID"], "/")) == Ok("d")
  {
    SpreadsheetIdOfSegments(["docs", "d", "ID", ""]);
    SpreadsheetIdOfSegments(["docs", "d", "ID"]);
  }
}
