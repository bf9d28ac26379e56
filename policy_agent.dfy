/** The Policy Agent node: a structured-output chain writes a firewall rule
    from the indicator and the investigation so far, and the node records it
    with one trace line. The chain is a parameter; it returns the rule as
    emitted, before the schema's literal fields are checked, and `Err`
    models it raising. */
module PolicyStep {
  import opened Common
  import opened Records
  import opened State

  const PolicyLinePrefix: string := "Policy Agent generated rule: "

  /** The trace line embeds the rule's name, which can be read back after
      the fixed prefix. */
  function PolicyTraceLine(ruleName: string): (line: string)
    ensures |PolicyLinePrefix| <= |line| && line[..|PolicyLinePrefix|] == PolicyLinePrefix
    ensures line[|PolicyLinePrefix|..] == ruleName
  {
    PolicyLinePrefix + ruleName
  }

  /** Different rule names give different trace lines. */
  lemma PolicyTraceLineName(name1: string, name2: string)
    requires PolicyTraceLine(name1) == PolicyTraceLine(name2)
    ensures name1 == name2
  {
    assert name1 == PolicyTraceLine(name1)[|PolicyLinePrefix|..];
  }

  /** The investigation summary the chain reads: the trace lines joined by
      newlines. */
  function TraceText(s: GraphState): string {
    JoinLines(s.trace)
  }

  /** Nothing of the trace is lost or reordered in that summary, as long as
      no line holds a newline itself. */
  lemma TraceTextKeepsLines(s: GraphState)
    requires |s.trace| >= 1
    requires forall i :: 0 <= i < |s.trace| ==> '\n' !in s.trace[i]
    ensures SplitLines(TraceText(s)) == s.trace
  {
    SplitJoin(s.trace);
  }

  /** The node. `state["indicator"]` raises when absent; otherwise the chain
      runs once on the indicator and the joined trace, a rule whose action or
      protocol is outside its enumeration fails validation, and a valid rule
      becomes the `policy` with one trace line naming it. */
  function RunPolicyAgent(s: GraphState, chain: (string, string) -> Result<RawRule, string>): (r: Result<Update, string>)
    ensures s.indicator.None? ==> r == Err("'indicator'")
    ensures r.Ok? <==>
      s.indicator.Some? && chain(s.indicator.value, TraceText(s)).Ok?
      && ValidateRule(chain(s.indicator.value, TraceText(s)).value).Some?
    ensures r.Ok? ==>
      var raw := chain(s.indicator.value, TraceText(s)).value;
      Keys(r.value) == {"policy", "investigation_trace"}
      && r.value.policy == ValidateRule(raw)
      && RuleToRaw(r.value.policy.value) == raw
      && r.value.trace == Some([PolicyTraceLine(raw.name)])
  {
    match s.indicator
    case None => Err("'indicator'")
    case Some(indicator) =>
      match chain(indicator, TraceText(s))
      case Err(e) => Err(e)
      case Ok(raw) =>
        match ValidateRule(raw)
        case None => Err("validation error for FirewallRule")
        case Some(rule) => Ok(Update(None, None, None, Some(rule), Some([PolicyTraceLine(rule.name)]), None))
  }

  /** Whatever the chain emits, a recorded policy always has an action and
      a protocol from their enumerations, and its trace line names it. */
  lemma RecordedPolicyIsWellFormed(s: GraphState, chain: (string, string) -> Result<RawRule, string>)
    requires RunPolicyAgent(s, chain).Ok?
    ensures var u := RunPolicyAgent(s, chain).value;
      var rule := u.policy.value;
      ActionLabel(rule.action) in {"BLOCK", "ALLOW", "LOG"}
      && ProtocolLabel(rule.protocol) in {"TCP", "UDP", "ANY"}
      && TracePart(u) == [PolicyLinePrefix + rule.name]
  {
  }
}
