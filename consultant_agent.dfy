/** The Consultant node: it assembles an incident summary from whatever
    verdicts are present, asks the retrieval chain over the playbooks, and
    stores the answer as the playbook steps. The retrieval chain is a
    parameter yielding the answer's text; `Err` models it raising. */
module ConsultantStep {
  import opened Common
  import opened Records
  import opened State

  /** The summary points, in order: an intel line when there is intel, then
      a log line when there is a log summary; with neither, the joined trace
      is the single point. */
  function SummaryPoints(s: GraphState): (points: seq<string>)
    ensures 1 <= |points| <= 2
    ensures s.intel.Some? ==> points[0] == "Threat Intel Summary: " + s.intel.value.summary
    ensures s.logSummary.Some? ==> points[|points| - 1] == "Log Analysis Summary: " + s.logSummary.value.summary
    ensures |points| == 2 <==> s.intel.Some? && s.logSummary.Some?
    ensures s.intel.None? && s.logSummary.None? ==> points == [JoinLines(s.trace)]
  {
    var intelPoints := if s.intel.Some? then ["Threat Intel Summary: " + s.intel.value.summary] else [];
    var logPoints := if s.logSummary.Some? then ["Log Analysis Summary: " + s.logSummary.value.summary] else [];
    if intelPoints + logPoints == [] then [JoinLines(s.trace)] else intelPoints + logPoints
  }

  /** The incident summary handed to the retrieval chain: the one present
      verdict's line, or with neither verdict the trace lines joined. */
  function IncidentSummary(s: GraphState): (summary: string)
    ensures s.intel.Some? && s.logSummary.None? ==> summary == "Threat Intel Summary: " + s.intel.value.summary
    ensures s.intel.None? && s.logSummary.Some? ==> summary == "Log Analysis Summary: " + s.logSummary.value.summary
    ensures s.intel.None? && s.logSummary.None? ==> summary == JoinLines(s.trace)
  {
    JoinLines(SummaryPoints(s))
  }

  /** The node, building its list of points by conditional appends as the
      source does. It asks the retrieval chain once, on the incident summary,
      and writes only the playbook steps: a one-element list holding the
      answer, with no trace line. */
  method RunConsultantAgent(s: GraphState, rag: string -> Result<string, string>) returns (r: Result<Update, string>)
    ensures r.Ok? <==> rag(IncidentSummary(s)).Ok?
    ensures r.Err? ==> r.error == rag(IncidentSummary(s)).error
    ensures r.Ok? ==>
      Keys(r.value) == {"playbook_steps"}
      && r.value.playbookSteps == Some([rag(IncidentSummary(s)).value])
      && TracePart(r.value) == []
  {
    var points: seq<string> := [];
    if s.intel.Some? {
      points := points + ["Threat Intel Summary: " + s.intel.value.summary];
    }
    if s.logSummary.Some? {
      points := points + ["Log Analysis Summary: " + s.logSummary.value.summary];
    }
    if |points| == 0 {
      points := points + [JoinLines(s.trace)];
    }
    assert points == SummaryPoints(s);
    var summary := JoinLines(points);
    match rag(summary) {
      case Err(e) => r := Err(e);
      case Ok(content) => r := Ok(Update(None, None, Some([content]), None, None, None));
    }
  }

  /** With both verdicts present, the summary is the intel line, a newline,
      and the log line. */
  lemma IncidentSummaryBothVerdicts(s: GraphState)
    requires s.intel.Some? && s.logSummary.Some?
    ensures IncidentSummary(s) ==
      "Threat Intel Summary: " + s.intel.value.summary + "\n" + "Log Analysis Summary: " + s.logSummary.value.summary
  {
    var p := SummaryPoints(s);
    assert p[1..] == [p[1]];
    assert JoinLines(p) == p[0] + "\n" + p[1];
  }
}
