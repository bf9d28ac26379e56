/** The structured outputs the specialist agents produce: the threat-intel
    verdict, the log-analysis verdict and the firewall rule with its two
    closed enumerations. */
module Records {
  import opened Common

  /** The Threat Analyst's verdict on an indicator. */
  datatype ThreatIntel = ThreatIntel(summary: string, isMalicious: bool)

  /** The Log Analyst's verdict on the raw logs. */
  datatype LogAnalysis = LogAnalysis(summary: string, containsAnomaly: bool)

  datatype Action = Block | Allow | Log
  datatype Protocol = Tcp | Udp | Any

  /** A firewall rule once its enumerated fields have been validated. */
  datatype FirewallRule = FirewallRule(name: string, action: Action, sourceIp: string, protocol: Protocol)

  /** A firewall rule as the policy chain emits it, before the structured
      output schema checks its literal fields. */
  datatype RawRule = RawRule(name: string, action: string, sourceIp: string, protocol: string)

  function ActionLabel(a: Action): string {
    match a
    case Block => "BLOCK"
    case Allow => "ALLOW"
    case Log => "LOG"
  }

  function ProtocolLabel(p: Protocol): string {
    match p
    case Tcp => "TCP"
    case Udp => "UDP"
    case Any => "ANY"
  }

  /** The `Literal["BLOCK", "ALLOW", "LOG"]` check: exactly the three labels
      are accepted, each as the action it names. */
  function ParseAction(s: string): (r: Option<Action>)
    ensures r.Some? <==> s == "BLOCK" || s == "ALLOW" || s == "LOG"
    ensures r.Some? ==> ActionLabel(r.value) == s
  {
    if s == "BLOCK" then Some(Block)
    else if s == "ALLOW" then Some(Allow)
    else if s == "LOG" then Some(Log)
    else None
  }

  /** The `Literal["TCP", "UDP", "ANY"]` check. */
  function ParseProtocol(s: string): (r: Option<Protocol>)
    ensures r.Some? <==> s == "TCP" || s == "UDP" || s == "ANY"
    ensures r.Some? ==> ProtocolLabel(r.value) == s
  {
    if s == "TCP" then Some(Tcp)
    else if s == "UDP" then Some(Udp)
    else if s == "ANY" then Some(Any)
    else None
  }

  function RuleToRaw(rule: FirewallRule): RawRule {
    RawRule(rule.name, ActionLabel(rule.action), rule.sourceIp, ProtocolLabel(rule.protocol))
  }

  /** Schema validation of a raw rule: it succeeds exactly when both literal
      fields are in their enumerations, and then keeps every field. */
  function ValidateRule(raw: RawRule): (r: Option<FirewallRule>)
    ensures r.Some? <==> ParseAction(raw.action).Some? && ParseProtocol(raw.protocol).Some?
    ensures r.Some? ==> RuleToRaw(r.value) == raw
  {
    match (ParseAction(raw.action), ParseProtocol(raw.protocol))
    case (Some(a), Some(p)) => Some(FirewallRule(raw.name, a, raw.sourceIp, p))
    case _ => None
  }

  /** Every validated rule survives the round trip through its raw form. */
  lemma ValidateRuleToRaw(rule: FirewallRule)
    ensures ValidateRule(RuleToRaw(rule)) == Some(rule)
  {
    match rule.action {
      case Block => case Allow => case Log =>
    }
  }
}
