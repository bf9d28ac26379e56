/** The VirusTotal IP lookup tool. It turns the API's report into a short
    summary for the language model and never raises: a missing key and every
    failure come back as a message string.

    The HTTP request is a parameter `fetch` from the request to its reply.
    The reply's body is modelled as the parsed JSON record the summariser
    reads, with `None` for a key that is absent. Serialising the summary to
    JSON text is left out: the tool's result is the summary record itself. */
module VirusTotal {
  import opened Common

  datatype Stats = Stats(harmless: Option<int>, malicious: Option<int>, suspicious: Option<int>, undetected: Option<int>)
  datatype Attributes = Attributes(lastAnalysisStats: Option<Stats>, reputation: Option<int>)
  datatype DataObject = DataObject(attributes: Option<Attributes>)
  datatype ReportBody = ReportBody(data: Option<DataObject>)

  /** What the request can yield: a 4xx/5xx status, any other failure
      (connection, body that is not JSON), or a parsed report. */
  datatype HttpReply = HttpFailure(detail: string) | RequestFailed(detail: string) | Report(body: ReportBody)

  datatype VtRequest = VtRequest(url: string, apiKeyHeader: string)

  datatype VtSummary = VtSummary(
    ipAddress: string,
    reputation: Option<int>,
    harmless: int,
    malicious: int,
    suspicious: int,
    undetected: int,
    isMalicious: bool)

  datatype ToolOutput = Summary(summary: VtSummary) | Message(text: string)

  const MissingKeyMessage: string := "Error: VirusTotal API key not found in environment variables."
  const ApiBase: string := "https://www.virustotal.com/api/v3/ip_addresses/"

  /** `analysis_stats.get(name, 0)`. */
  function Count(c: Option<int>): (n: int)
    ensures c.Some? ==> n == c.value
    ensures c.None? ==> n == 0
  {
    c.GetOr(0)
  }

  /** The nested lookups with empty-dictionary defaults. A report without
      `data`, `attributes` or `last_analysis_stats` reads as empty stats. */
  function StatsOf(body: ReportBody): (stats: Stats)
    ensures stats != Stats(None, None, None, None) ==>
      body.data.Some? && body.data.value.attributes.Some? && body.data.value.attributes.value.lastAnalysisStats.Some?
    ensures body.data.Some? && body.data.value.attributes.Some? && body.data.value.attributes.value.lastAnalysisStats.Some? ==>
      stats == body.data.value.attributes.value.lastAnalysisStats.value
  {
    if body.data.Some? && body.data.value.attributes.Some? && body.data.value.attributes.value.lastAnalysisStats.Some?
    then body.data.value.attributes.value.lastAnalysisStats.value
    else Stats(None, None, None, None)
  }

  /** `attributes.get("reputation")`, absent when there are no attributes. */
  function ReputationOf(body: ReportBody): (reputation: Option<int>)
    ensures reputation.Some? ==> body.data.Some? && body.data.value.attributes.Some?
    ensures body.data.Some? && body.data.value.attributes.Some? ==> reputation == body.data.value.attributes.value.reputation
  {
    if body.data.Some? && body.data.value.attributes.Some? then body.data.value.attributes.value.reputation else None
  }

  /** The summary of one report: the address echoed unchanged, every count
      defaulting to zero, and the verdict raised exactly when some scanner
      called the address malicious or suspicious. */
  function Summarise(ip: string, body: ReportBody): (v: VtSummary)
    ensures v.ipAddress == ip
    ensures v.reputation == ReputationOf(body)
    ensures v.harmless == Count(StatsOf(body).harmless) && v.malicious == Count(StatsOf(body).malicious)
    ensures v.suspicious == Count(StatsOf(body).suspicious) && v.undetected == Count(StatsOf(body).undetected)
    ensures v.isMalicious <==> v.malicious > 0 || v.suspicious > 0
  {
    var stats := StatsOf(body);
    VtSummary(ip, ReputationOf(body), Count(stats.harmless), Count(stats.malicious), Count(stats.suspicious),
              Count(stats.undetected), Count(stats.malicious) > 0 || Count(stats.suspicious) > 0)
  }

  /** The tool. An unset or empty key gives the fixed message without any
      request; otherwise one request to the address's report URL, carrying
      the key, and its reply decides: a report is summarised, an HTTP error
      and any other failure become messages with their two prefixes. */
  function VirusTotalLookup(ip: string, apiKey: Option<string>, fetch: VtRequest -> HttpReply): (r: ToolOutput)
    ensures apiKey.None? || apiKey.value == "" ==> r == Message(MissingKeyMessage)
    ensures apiKey.Some? && apiKey.value != "" ==>
      match fetch(VtRequest(ApiBase + ip, apiKey.value))
      case Report(body) => r == Summary(Summarise(ip, body))
      case HttpFailure(detail) => r == Message("HTTP error occurred: " + detail)
      case RequestFailed(detail) => r == Message("An unexpected error occurred: " + detail)
  {
    if apiKey.None? || apiKey.value == "" then Message(MissingKeyMessage)
    else
      match fetch(VtRequest(ApiBase + ip, apiKey.value))
      case HttpFailure(detail) => Message("HTTP error occurred: " + detail)
      case RequestFailed(detail) => Message("An unexpected error occurred: " + detail)
      case Report(body) => Summary(Summarise(ip, body))
  }

  /** Without a key the result does not depend on the network at all. */
  lemma NoKeyNoRequest(ip: string, apiKey: Option<string>, fetch1: VtRequest -> HttpReply, fetch2: VtRequest -> HttpReply)
    requires apiKey.None? || apiKey.value == ""
    ensures VirusTotalLookup(ip, apiKey, fetch1) == VirusTotalLookup(ip, apiKey, fetch2)
  {
  }

  /** A report without data or attributes summarises to all-zero counts and
      a benign verdict. */
  lemma EmptyReportIsBenign(ip: string, body: ReportBody)
    requires body.data.None? || body.data.value.attributes.None?
    ensures var v := Summarise(ip, body);
      v.harmless == 0 && v.malicious == 0 && v.suspicious == 0 && v.undetected == 0 && !v.isMalicious
      && v.reputation.None?
  {
  }

  /** The two failure messages are never confused: their prefixes differ
      whatever the details. */
  lemma FailureMessagesDistinct(detail1: string, detail2: string)
    ensures "HTTP error occurred: " + detail1 != "An unexpected error occurred: " + detail2
  {
    assert ("HTTP error occurred: " + detail1)[0] == 'H';
    assert ("An unexpected error occurred: " + detail2)[0] == 'A';
  }

  /** Summarising keeps every count of a complete report. */
  lemma SummaryKeepsCounts(ip: string, stats: Stats, reputation: Option<int>)
    requires stats.harmless.Some? && stats.malicious.Some? && stats.suspicious.Some? && stats.undetected.Some?
    ensures var v := Summarise(ip, ReportBody(Some(DataObject(Some(Attributes(Some(stats), reputation))))));
      Stats(Some(v.harmless), Some(v.malicious), Some(v.suspicious), Some(v.undetected)) == stats
      && v.reputation == reputation
  {
  }
}
