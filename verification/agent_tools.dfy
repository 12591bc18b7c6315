/** The agent's tool set (app/agent/tools.py): the three MCP server
    connections, the knowledge-base search that joins retrieved passages,
    and the final tool list with that search appended after the MCP tools.
    Retrieval and the MCP client's tool discovery are parameters. */
module AgentTools {
  import opened Wrappers
  import Text
  import McpClient

  /** A retrieved document; only its text is used. */
  datatype Document = Document(pageContent: string)

  /** A tool offered to the agent. */
  datatype Tool = Tool(name: string, description: string)

  const PassageSeparator: string := "\n\n"

  /** `store.as_retriever(k=5)`. */
  const RetrieverK: nat := 5

  const KnowledgeBaseName: string := "knowledge_base_search"
  const KnowledgeBase: Tool := Tool(KnowledgeBaseName, "Useful for searching internal knowledge base for reports and documentation.")

  /** The settings `get_mcp_client` reads, one per server. */
  datatype ServerSettings = ServerSettings(calendar: McpClient.McpSettings, mail: McpClient.McpSettings, sheet: McpClient.McpSettings)

  /** A streamable-HTTP connection straight from one server's settings. */
  function HttpConnection(s: McpClient.McpSettings): McpClient.Connection
  {
    McpClient.StreamableHttp(s.transport, s.url, s.timeoutSec)
  }

  /** `get_mcp_client`'s connection map: the calendar, mail and sheet
      servers, each over streamable HTTP with its configured transport,
      URL and timeout. The URL is passed as configured, set or not. */
  function McpConnections(settings: ServerSettings): (r: seq<(string, McpClient.Connection)>)
    ensures |r| == 3 && r[0].0 == "calendar" && r[1].0 == "mail" && r[2].0 == "sheet"
    ensures forall i :: 0 <= i < 3 ==> r[i].1.StreamableHttp?
    ensures r[0].1.url == settings.calendar.url && r[1].1.url == settings.mail.url && r[2].1.url == settings.sheet.url
    ensures r[0].1.transport == settings.calendar.transport && r[1].1.transport == settings.mail.transport
      && r[2].1.transport == settings.sheet.transport
    ensures r[0].1.timeout == settings.calendar.timeoutSec && r[1].1.timeout == settings.mail.timeoutSec
      && r[2].1.timeout == settings.sheet.timeoutSec
  {
    [("calendar", HttpConnection(settings.calendar)),
     ("mail", HttpConnection(settings.mail)),
     ("sheet", HttpConnection(settings.sheet))]
  }

  /** Where the calendar client of app/mcp/calendar.py would connect over
      HTTP, the agent's calendar connection is the same one. */
  lemma CalendarConnectionsAgree(settings: ServerSettings)
    requires McpClient.IsSet(settings.calendar.url)
    ensures McpClient.CalendarConnection(settings.calendar) == Ok(McpConnections(settings)[0].1)
  {
  }

  /** The page contents, in retrieval order. */
  function Contents(docs: seq<Document>): (r: seq<string>)
    ensures |r| == |docs|
    ensures forall i :: 0 <= i < |docs| ==> r[i] == docs[i].pageContent
  {
    seq(|docs|, i requires 0 <= i < |docs| => docs[i].pageContent)
  }

  /** `rag_search`: the retrieved passages joined by blank lines.
      `retrieve` stands for the vector-store retriever, asked for at most
      `RetrieverK` documents. */
  function RagSearch(query: string, retrieve: (string, nat) -> seq<Document>): (r: string)
    ensures |retrieve(query, RetrieverK)| == 0 ==> r == ""
    ensures |retrieve(query, RetrieverK)| == 1 ==> r == retrieve(query, RetrieverK)[0].pageContent
  {
    Text.Join(Contents(retrieve(query, RetrieverK)), PassageSeparator)
  }

  /** Length of the reply: every passage plus two characters between each
      neighbouring pair. */
  lemma RagSearchLength(query: string, retrieve: (string, nat) -> seq<Document>)
    requires |retrieve(query, RetrieverK)| > 0
    ensures |RagSearch(query, retrieve)|
         == Text.TotalLength(Contents(retrieve(query, RetrieverK))) + 2 * (|retrieve(query, RetrieverK)| - 1)
  {
    Text.JoinLength(Contents(retrieve(query, RetrieverK)), PassageSeparator);
  }

  /** One more passage extends the reply by a separator and that passage. */
  lemma RagSearchSnoc(docs: seq<Document>, d: Document)
    requires |docs| > 0
    ensures Text.Join(Contents(docs + [d]), PassageSeparator)
         == Text.Join(Contents(docs), PassageSeparator) + PassageSeparator + d.pageContent
  {
    assert Contents(docs + [d]) == Contents(docs) + [d.pageContent];
    Text.JoinSnoc(Contents(docs), d.pageContent, PassageSeparator);
  }

  /** `get_tools`: the MCP tools as discovered, then the knowledge-base
      search. */
  function GetTools(mcpTools: seq<Tool>): (r: seq<Tool>)
    ensures |r| == |mcpTools| + 1
    ensures r[..|mcpTools|] == mcpTools
    ensures r[|mcpTools|] == KnowledgeBase
  {
    mcpTools + [KnowledgeBase]
  }

  /** Unless an MCP server already offers a tool of that name, the
      knowledge-base search appears exactly once, in last place. */
  lemma KnowledgeBaseOnceAndLast(mcpTools: seq<Tool>)
    requires forall i :: 0 <= i < |mcpTools| ==> mcpTools[i].name != KnowledgeBaseName
    ensures forall i :: 0 <= i < |GetTools(mcpTools)| ==>
      (GetTools(mcpTools)[i].name == KnowledgeBaseName <==> i == |mcpTools|)
  {
  }
}
