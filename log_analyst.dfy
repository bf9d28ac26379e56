/** The Log Analyst node: a structured-output chain reviews the raw logs and
    returns a `LogAnalysis` verdict. With no logs to read the node does
    nothing at all. The chain is a parameter; `Err` models it raising. */
module LogAnalystStep {
  import opened Common
  import opened Records
  import opened State

  /** Python's truthiness test on `state.get("logs", "")`: an absent key, a
      null value and the empty string all mean there is nothing to analyse. */
  predicate NoLogs(s: GraphState) {
    s.logs.None? || s.logs.value == ""
  }

  /** "True" or "False", as Python formats a boolean. */
  function PyBool(b: bool): string {
    if b then "True" else "False"
  }

  const LogLinePrefix: string := "Log Analyst conclusion: Anomaly detected: "

  /** The conclusion line: the fixed prefix, then `T` exactly when an
      anomaly was found, and a closing period. */
  function AnomalyTraceLine(anomaly: bool): (line: string)
    ensures |LogLinePrefix| < |line| && line[..|LogLinePrefix|] == LogLinePrefix
    ensures line[|LogLinePrefix|] == 'T' <==> anomaly
    ensures line[|line| - 1] == '.'
  {
    LogLinePrefix + PyBool(anomaly) + "."
  }

  /** The two possible lines are distinct and each gives its verdict back. */
  lemma AnomalyTraceLineVerdict(anomaly: bool)
    ensures AnomalyTraceLine(anomaly) == LogLinePrefix + (if anomaly then "True." else "False.")
    ensures AnomalyTraceLine(true) != AnomalyTraceLine(false)
  {
    assert AnomalyTraceLine(true)[|LogLinePrefix|] == 'T';
    assert AnomalyTraceLine(false)[|LogLinePrefix|] == 'F';
  }

  /** The node. Without logs it returns the empty update and never calls the
      chain; otherwise it calls the chain once, on the logs alone, and the
      update holds exactly the chain's verdict and one trace line naming
      whether an anomaly was found. */
  function RunLogAnalyst(s: GraphState, chain: string -> Result<LogAnalysis, string>): (r: Result<Update, string>)
    ensures NoLogs(s) ==> r == Ok(NoUpdate)
    ensures !NoLogs(s) ==> (r.Ok? <==> chain(s.logs.value).Ok?)
    ensures !NoLogs(s) && chain(s.logs.value).Err? ==> r == Err(chain(s.logs.value).error)
    ensures !NoLogs(s) && r.Ok? ==>
      var analysis := chain(s.logs.value).value;
      Keys(r.value) == {"log_summary", "investigation_trace"}
      && r.value.logSummary == Some(analysis)
      && r.value.trace == Some([AnomalyTraceLine(analysis.containsAnomaly)])
  {
    if NoLogs(s) then Ok(NoUpdate)
    else
      match chain(s.logs.value)
      case Err(e) => Err(e)
      case Ok(analysis) =>
        Ok(Update(None, Some(analysis), None, None, Some([AnomalyTraceLine(analysis.containsAnomaly)]), None))
  }

  /** The update depends on the logs only, and on the chain only through its
      answer for those logs: two states with the same logs, and two chains
      that agree there, give the same update. */
  lemma LogAnalystReadsOnlyLogs(s1: GraphState, s2: GraphState,
                                chain1: string -> Result<LogAnalysis, string>, chain2: string -> Result<LogAnalysis, string>)
    requires s1.logs == s2.logs
    requires !NoLogs(s1) ==> chain1(s1.logs.value) == chain2(s1.logs.value)
    ensures RunLogAnalyst(s1, chain1) == RunLogAnalyst(s2, chain2)
  {
  }

  /** Without logs, the node leaves the state exactly as it was: in
      particular the log summary stays absent. */
  lemma NoLogsNoChange(s: GraphState, chain: string -> Result<LogAnalysis, string>)
    requires NoLogs(s)
    ensures RunLogAnalyst(s, chain).Ok? && Merge(s, RunLogAnalyst(s, chain).value) == s
  {
    MergeNothing(s);
  }
}
