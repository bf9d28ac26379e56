/** The Threat Analyst node: a tool-calling agent looks the indicator up,
    a formatter turns the raw tool answer into a `ThreatIntel` verdict, and
    the node returns that verdict with one conclusion line for the trace.

    Both language-model chains are parameters. `toolUser` stands for the
    agent executor invoked with `{"input": indicator}` and yields its
    `output` text; `formatter` stands for the structured-output chain invoked
    with the indicator and that text. Either may raise, which `Err` models. */
module ThreatAnalystStep {
  import opened Common
  import opened Records
  import opened State

  const ThreatLinePrefix: string := "Threat Analyst conclusion: The indicator '"

  function Verdict(malicious: bool): string {
    if malicious then "malicious" else "benign"
  }

  /** The conclusion line written to the trace: the fixed prefix, then the
      indicator. */
  function ThreatTraceLine(indicator: string, malicious: bool): (line: string)
    ensures |ThreatLinePrefix| + |indicator| < |line|
    ensures line[..|ThreatLinePrefix|] == ThreatLinePrefix
    ensures line[|ThreatLinePrefix|..|ThreatLinePrefix| + |indicator|] == indicator
  {
    ThreatLinePrefix + indicator + "' is " + Verdict(malicious) + "."
  }

  predicate EndsWith(s: string, suffix: string) {
    |suffix| <= |s| && s[|s| - |suffix|..] == suffix
  }

  /** A suffix of a concatenation no longer than its right part is a suffix
      of that part. */
  lemma SuffixOfConcat(a: string, b: string, k: nat)
    requires k <= |b|
    ensures (a + b)[|a + b| - k..] == b[|b| - k..]
  {
  }

  /** The line ends with "benign." exactly when the verdict is not
      malicious, and with "malicious." exactly when it is. */
  lemma ThreatTraceLineVerdict(indicator: string, malicious: bool)
    ensures var line := ThreatTraceLine(indicator, malicious);
      (EndsWith(line, "benign.") <==> !malicious) && (EndsWith(line, "malicious.") <==> malicious)
  {
    var head := ThreatLinePrefix + indicator;
    if malicious {
      var tail := "' is malicious.";
      assert ThreatTraceLine(indicator, malicious) == head + tail;
      SuffixOfConcat(head, tail, 7);
      SuffixOfConcat(head, tail, 10);
      assert tail[|tail| - 7..] == "icious.";
    } else {
      var tail := "' is benign.";
      assert ThreatTraceLine(indicator, malicious) == head + tail;
      SuffixOfConcat(head, tail, 7);
      SuffixOfConcat(head, tail, 10);
      assert tail[|tail| - 10..] == "is benign.";
    }
  }

  /** The line names the indicator right after its fixed prefix and ends
      with "benign." exactly when the verdict is not malicious. */
  lemma ThreatTraceLineShape(indicator: string, malicious: bool)
    ensures var line := ThreatTraceLine(indicator, malicious);
      line[..|ThreatLinePrefix|] == ThreatLinePrefix
      && line[|ThreatLinePrefix|..|ThreatLinePrefix| + |indicator|] == indicator
      && (EndsWith(line, "benign.") <==> !malicious)
      && (EndsWith(line, "malicious.") <==> malicious)
  {
    var line := ThreatTraceLine(indicator, malicious);
    assert line == ThreatLinePrefix + indicator + ("' is " + Verdict(malicious) + ".");
    ThreatTraceLineVerdict(indicator, malicious);
  }



  /** The node. Reading `state["indicator"]` raises when the key is absent;
      otherwise the tool runs once on the indicator, the formatter once on
      the indicator and the tool's text, and the update holds exactly the
      formatter's verdict, unchanged, and a one-line trace part naming the
      indicator and that verdict. */
  function RunThreatAnalyst(s: GraphState, toolUser: string -> Result<string, string>,
                            formatter: (string, string) -> Result<ThreatIntel, string>): (r: Result<Update, string>)
    ensures s.indicator.None? ==> r == Err("'indicator'")
    ensures s.indicator.Some? && toolUser(s.indicator.value).Err? ==> r == Err(toolUser(s.indicator.value).error)
    ensures r.Ok? <==>
      s.indicator.Some? && toolUser(s.indicator.value).Ok?
      && formatter(s.indicator.value, toolUser(s.indicator.value).value).Ok?
    ensures r.Ok? ==>
      var intel := formatter(s.indicator.value, toolUser(s.indicator.value).value).value;
      Keys(r.value) == {"intel", "investigation_trace"}
      && r.value.intel == Some(intel)
      && r.value.trace == Some([ThreatTraceLine(s.indicator.value, intel.isMalicious)])
  {
    match s.indicator
    case None => Err("'indicator'")
    case Some(indicator) =>
      match toolUser(indicator)
      case Err(e) => Err(e)
      case Ok(rawData) =>
        match formatter(indicator, rawData)
        case Err(e) => Err(e)
        case Ok(intel) =>
          Ok(Update(Some(intel), None, None, None, Some([ThreatTraceLine(indicator, intel.isMalicious)]), None))
  }

  /** The node reads nothing from the state but the indicator: two states
      with the same indicator give the same update, whatever their logs,
      earlier verdicts or trace. */
  lemma ThreatAnalystReadsOnlyIndicator(s1: GraphState, s2: GraphState, toolUser: string -> Result<string, string>,
                                        formatter: (string, string) -> Result<ThreatIntel, string>)
    requires s1.indicator == s2.indicator
    ensures RunThreatAnalyst(s1, toolUser, formatter) == RunThreatAnalyst(s2, toolUser, formatter)
  {
  }

  /** A benign verdict puts "benign" at the end of the trace. */
  lemma BenignVerdictInTrace(s: GraphState, toolUser: string -> Result<string, string>,
                             formatter: (string, string) -> Result<ThreatIntel, string>)
    requires RunThreatAnalyst(s, toolUser, formatter).Ok?
    requires !RunThreatAnalyst(s, toolUser, formatter).value.intel.value.isMalicious
    ensures var part := TracePart(RunThreatAnalyst(s, toolUser, formatter).value);
      |part| == 1 && EndsWith(part[|part| - 1], "benign.")
  {
    var u := RunThreatAnalyst(s, toolUser, formatter).value;
    ThreatTraceLineShape(s.indicator.value, u.intel.value.isMalicious);
  }
}
