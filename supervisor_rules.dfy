/** The supervisor's vocabulary and its rule tables.

    The supervisor reduces the investigation to a handful of yes/no facts and
    picks the next specialist by an ordered rule list, first match winning.
    The repository holds two such lists: the one written in the supervisor
    prompt (with a mandatory playbook consultation) and the "fast-track" one
    its end-to-end tests pin (no consultation, log analysis skipped once the
    intel is already malicious). Both are kept here as data, side by side,
    and never blended. */
module SupervisorRules {
  import opened Common

  /** The five labels of the `Route` schema. */
  datatype Route = ToThreatAnalyst | ToLogAnalyst | ToConsultant | ToPolicyAgent | EndInvestigation

  function RouteLabel(r: Route): string {
    match r
    case ToThreatAnalyst => "Threat_Analyst"
    case ToLogAnalyst => "Log_Analyst"
    case ToConsultant => "Consultant_Agent"
    case ToPolicyAgent => "Policy_Agent"
    case EndInvestigation => "end_investigation"
  }

  /** Structured-output validation of the supervisor's answer: a label is
      accepted exactly when it is one of the five, and then as that route. */
  function ParseRoute(answer: string): (r: Option<Route>)
    ensures r.Some? ==> RouteLabel(r.value) == answer
    ensures r.None? ==> forall route :: RouteLabel(route) != answer
  {
    if answer == "Threat_Analyst" then Some(ToThreatAnalyst)
    else if answer == "Log_Analyst" then Some(ToLogAnalyst)
    else if answer == "Consultant_Agent" then Some(ToConsultant)
    else if answer == "Policy_Agent" then Some(ToPolicyAgent)
    else if answer == "end_investigation" then Some(EndInvestigation)
    else None
  }

  lemma ParseRouteLabel(r: Route)
    ensures ParseRoute(RouteLabel(r)) == Some(r)
  {
  }

  /** The four facts the supervisor is given. */
  datatype Facts = Facts(intelAvailable: bool, logSummaryAvailable: bool, threatDetected: bool, policyGenerated: bool)

  /** The guards that occur in either rule table. `playbookConsulted` is the
      extra fact the prompt's table reads. */
  datatype Guard =
    | NoIntel                  // no threat intelligence gathered yet
    | BenignAwaitingLogs       // intel shows no threat and the logs are unanalysed
    | ThreatAwaitingPlaybook   // threat detected, playbook not consulted
    | ThreatWithPlaybook       // threat detected, playbook consulted
    | ThreatAwaitingPolicy     // threat detected, no policy generated yet
    | AnalysisComplete         // no threat after both analyses, or a threat answered by a policy

  predicate Holds(g: Guard, f: Facts, playbookConsulted: bool) {
    match g
    case NoIntel => !f.intelAvailable
    case BenignAwaitingLogs => f.intelAvailable && !f.threatDetected && !f.logSummaryAvailable
    case ThreatAwaitingPlaybook => f.threatDetected && !playbookConsulted
    case ThreatWithPlaybook => f.threatDetected && playbookConsulted
    case ThreatAwaitingPolicy => f.threatDetected && !f.policyGenerated
    case AnalysisComplete =>
      (!f.threatDetected && f.intelAvailable && f.logSummaryAvailable) || (f.threatDetected && f.policyGenerated)
  }

  datatype Rule = Rule(guard: Guard, route: Route)

  /** The table the end-to-end tests pin. */
  const FastTrackTable: seq<Rule> := [
    Rule(NoIntel, ToThreatAnalyst),
    Rule(BenignAwaitingLogs, ToLogAnalyst),
    Rule(ThreatAwaitingPolicy, ToPolicyAgent),
    Rule(AnalysisComplete, EndInvestigation)
  ]

  /** The table written in the supervisor prompt, rules 1 to 5 in order. */
  const PromptTable: seq<Rule> := [
    Rule(NoIntel, ToThreatAnalyst),
    Rule(BenignAwaitingLogs, ToLogAnalyst),
    Rule(ThreatAwaitingPlaybook, ToConsultant),
    Rule(ThreatWithPlaybook, ToPolicyAgent),
    Rule(AnalysisComplete, EndInvestigation)
  ]

  /** The prompt's table with rule 5 checked before rules 3 and 4, so that a
      threat answered by a policy ends the investigation. */
  const CorrectedPromptTable: seq<Rule> := [
    Rule(NoIntel, ToThreatAnalyst),
    Rule(BenignAwaitingLogs, ToLogAnalyst),
    Rule(AnalysisComplete, EndInvestigation),
    Rule(ThreatAwaitingPlaybook, ToConsultant),
    Rule(ThreatWithPlaybook, ToPolicyAgent)
  ]

  /** First-match evaluation of an ordered rule list: the result is the
      route of the earliest rule whose guard holds, and there is none exactly
      when no guard holds. */
  function FirstMatch(table: seq<Rule>, f: Facts, playbookConsulted: bool): (r: Option<Route>)
    ensures r.Some? <==> exists i :: 0 <= i < |table| && Holds(table[i].guard, f, playbookConsulted)
    ensures r.Some? ==>
      exists i :: 0 <= i < |table| && table[i].route == r.value && Holds(table[i].guard, f, playbookConsulted)
        && forall j :: 0 <= j < i ==> !Holds(table[j].guard, f, playbookConsulted)
  {
    if |table| == 0 then None
    else if Holds(table[0].guard, f, playbookConsulted) then Some(table[0].route)
    else
      var r := FirstMatch(table[1..], f, playbookConsulted);
      assert forall i :: 1 <= i < |table| ==> table[i] == table[1..][i - 1];
      r
  }

  /** The three tables, evaluated rule by rule. */
  lemma FastTrackTableUnfolds(f: Facts, playbookConsulted: bool)
    ensures FirstMatch(FastTrackTable, f, playbookConsulted) ==
      if Holds(NoIntel, f, playbookConsulted) then Some(ToThreatAnalyst)
      else if Holds(BenignAwaitingLogs, f, playbookConsulted) then Some(ToLogAnalyst)
      else if Holds(ThreatAwaitingPolicy, f, playbookConsulted) then Some(ToPolicyAgent)
      else if Holds(AnalysisComplete, f, playbookConsulted) then Some(EndInvestigation)
      else None
  {
    var t := FastTrackTable;
    assert t[1..] == [t[1], t[2], t[3]];
    assert t[1..][1..] == [t[2], t[3]];
    assert t[1..][1..][1..] == [t[3]];
    assert t[1..][1..][1..][1..] == [];
  }

  lemma PromptTableUnfolds(f: Facts, playbookConsulted: bool)
    ensures FirstMatch(PromptTable, f, playbookConsulted) ==
      if Holds(NoIntel, f, playbookConsulted) then Some(ToThreatAnalyst)
      else if Holds(BenignAwaitingLogs, f, playbookConsulted) then Some(ToLogAnalyst)
      else if Holds(ThreatAwaitingPlaybook, f, playbookConsulted) then Some(ToConsultant)
      else if Holds(ThreatWithPlaybook, f, playbookConsulted) then Some(ToPolicyAgent)
      else if Holds(AnalysisComplete, f, playbookConsulted) then Some(EndInvestigation)
      else None
  {
    var t := PromptTable;
    assert t[1..] == [t[1], t[2], t[3], t[4]];
    assert t[1..][1..] == [t[2], t[3], t[4]];
    assert t[1..][1..][1..] == [t[3], t[4]];
    assert t[1..][1..][1..][1..] == [t[4]];
    assert t[1..][1..][1..][1..][1..] == [];
  }

  lemma CorrectedPromptTableUnfolds(f: Facts, playbookConsulted: bool)
    ensures FirstMatch(CorrectedPromptTable, f, playbookConsulted) ==
      if Holds(NoIntel, f, playbookConsulted) then Some(ToThreatAnalyst)
      else if Holds(BenignAwaitingLogs, f, playbookConsulted) then Some(ToLogAnalyst)
      else if Holds(AnalysisComplete, f, playbookConsulted) then Some(EndInvestigation)
      else if Holds(ThreatAwaitingPlaybook, f, playbookConsulted) then Some(ToConsultant)
      else if Holds(ThreatWithPlaybook, f, playbookConsulted) then Some(ToPolicyAgent)
      else None
  {
    var t := CorrectedPromptTable;
    assert t[1..] == [t[1], t[2], t[3], t[4]];
    assert t[1..][1..] == [t[2], t[3], t[4]];
    assert t[1..][1..][1..] == [t[3], t[4]];
    assert t[1..][1..][1..][1..] == [t[4]];
    assert t[1..][1..][1..][1..][1..] == [];
  }

  /** Every combination of facts matches some rule of each table, so the
      fallback "end anyway" branch is never taken. */
  lemma TablesAreExhaustive(f: Facts, playbookConsulted: bool)
    ensures FirstMatch(FastTrackTable, f, playbookConsulted).Some?
    ensures FirstMatch(PromptTable, f, playbookConsulted).Some?
    ensures FirstMatch(CorrectedPromptTable, f, playbookConsulted).Some?
  {
    if !f.intelAvailable {
      assert Holds(FastTrackTable[0].guard, f, playbookConsulted);
      assert Holds(PromptTable[0].guard, f, playbookConsulted);
      assert Holds(CorrectedPromptTable[0].guard, f, playbookConsulted);
    } else if !f.threatDetected {
      var k := if f.logSummaryAvailable then 3 else 1;
      assert Holds(FastTrackTable[k].guard, f, playbookConsulted);
      assert Holds(PromptTable[if f.logSummaryAvailable then 4 else 1].guard, f, playbookConsulted);
      assert Holds(CorrectedPromptTable[if f.logSummaryAvailable then 2 else 1].guard, f, playbookConsulted);
    } else {
      assert Holds(FastTrackTable[if f.policyGenerated then 3 else 2].guard, f, playbookConsulted);
      assert Holds(PromptTable[if playbookConsulted then 3 else 2].guard, f, playbookConsulted);
      assert Holds(CorrectedPromptTable[if f.policyGenerated then 2 else if playbookConsulted then 4 else 3].guard, f, playbookConsulted);
    }
  }

  /** The fast-track decision. Each route is characterised outright: the
      intel is gathered first, a malicious verdict skips log analysis, a
      threat from either source goes to policy generation once, and the run
      ends exactly when the analyses are complete. The playbook fact is not
      read and the consultant is never chosen. */
  function DecideFastTrack(f: Facts): (r: Route)
    ensures r == ToThreatAnalyst <==> !f.intelAvailable
    ensures r == ToLogAnalyst <==> f.intelAvailable && !f.threatDetected && !f.logSummaryAvailable
    ensures r == ToPolicyAgent <==> f.intelAvailable && f.threatDetected && !f.policyGenerated
    ensures r == EndInvestigation <==>
      f.intelAvailable && (if f.threatDetected then f.policyGenerated else f.logSummaryAvailable)
    ensures r != ToConsultant
  {
    if !f.intelAvailable then ToThreatAnalyst
    else if !f.threatDetected && !f.logSummaryAvailable then ToLogAnalyst
    else if f.threatDetected && !f.policyGenerated then ToPolicyAgent
    else EndInvestigation
  }

  /** The fast-track decision is the first match of its rule table, whatever
      the playbook fact. */
  lemma FastTrackIsTable(f: Facts, playbookConsulted: bool)
    ensures FirstMatch(FastTrackTable, f, playbookConsulted) == Some(DecideFastTrack(f))
  {
    FastTrackTableUnfolds(f, playbookConsulted);
  }

  /** The decision of the prompt's table. A policy is only ever requested
      after the playbook, and the investigation only ends when no threat was
      found. */
  function DecidePromptVariant(f: Facts, playbookConsulted: bool): (r: Route)
    ensures r == ToThreatAnalyst <==> !f.intelAvailable
    ensures r == ToLogAnalyst <==> f.intelAvailable && !f.threatDetected && !f.logSummaryAvailable
    ensures r == ToConsultant <==> f.intelAvailable && f.threatDetected && !playbookConsulted
    ensures r == ToPolicyAgent <==> f.intelAvailable && f.threatDetected && playbookConsulted
    ensures r == EndInvestigation <==> f.intelAvailable && !f.threatDetected && f.logSummaryAvailable
  {
    if !f.intelAvailable then ToThreatAnalyst
    else if !f.threatDetected && !f.logSummaryAvailable then ToLogAnalyst
    else if f.threatDetected && !playbookConsulted then ToConsultant
    else if f.threatDetected && playbookConsulted then ToPolicyAgent
    else EndInvestigation
  }

  /** The prompt's decision is the first match of the prompt's table. */
  lemma PromptVariantIsTable(f: Facts, playbookConsulted: bool)
    ensures FirstMatch(PromptTable, f, playbookConsulted) == Some(DecidePromptVariant(f, playbookConsulted))
  {
    PromptTableUnfolds(f, playbookConsulted);
  }

  /** The corrected prompt table: as the prompt's, except that a threat
      answered by a policy ends the investigation. */
  function DecidePromptVariantCorrected(f: Facts, playbookConsulted: bool): (r: Route)
    ensures r == ToThreatAnalyst <==> !f.intelAvailable
    ensures r == ToLogAnalyst <==> f.intelAvailable && !f.threatDetected && !f.logSummaryAvailable
    ensures r == ToConsultant <==>
      f.intelAvailable && f.threatDetected && !f.policyGenerated && !playbookConsulted
    ensures r == ToPolicyAgent <==>
      f.intelAvailable && f.threatDetected && !f.policyGenerated && playbookConsulted
    ensures r == EndInvestigation <==>
      f.intelAvailable && (if f.threatDetected then f.policyGenerated else f.logSummaryAvailable)
  {
    if !f.intelAvailable then ToThreatAnalyst
    else if !f.threatDetected && !f.logSummaryAvailable then ToLogAnalyst
    else if (!f.threatDetected && f.logSummaryAvailable) || (f.threatDetected && f.policyGenerated) then EndInvestigation
    else if !playbookConsulted then ToConsultant
    else ToPolicyAgent
  }

  /** The corrected decision is the first match of the corrected table. */
  lemma CorrectedIsTable(f: Facts, playbookConsulted: bool)
    ensures FirstMatch(CorrectedPromptTable, f, playbookConsulted) == Some(DecidePromptVariantCorrected(f, playbookConsulted))
  {
    CorrectedPromptTableUnfolds(f, playbookConsulted);
  }

  /** As written, rule 4 shadows rule 5: with a threat, a consulted playbook
      and a generated policy, the completion rule holds and yet the prompt's
      table asks for another policy. */
  lemma PromptVariantShadowsCompletion()
    ensures var f := Facts(true, false, true, true);
      Holds(AnalysisComplete, f, true) && FirstMatch(PromptTable, f, true) == Some(ToPolicyAgent)
      && DecidePromptVariant(f, true) == ToPolicyAgent
  {
    PromptVariantIsTable(Facts(true, false, true, true), true);
  }

  // ---------------------------------------------------------------------
  // Fact-level decision paths: what each table does over a whole
  // investigation, given the two verdicts the analysts will return.
  // ---------------------------------------------------------------------

  datatype Variant = FastTrack | PromptVariant | PromptVariantCorrected

  /** What the supervisor knows: the four facts and whether the playbook was
      consulted. */
  datatype Knowledge = Knowledge(facts: Facts, playbookConsulted: bool)

  const Start := Knowledge(Facts(false, false, false, false), false)

  function Decide(v: Variant, k: Knowledge): Route {
    match v
    case FastTrack => DecideFastTrack(k.facts)
    case PromptVariant => DecidePromptVariant(k.facts, k.playbookConsulted)
    case PromptVariantCorrected => DecidePromptVariantCorrected(k.facts, k.playbookConsulted)
  }

  /** The effect of running the chosen specialist on the facts, when the
      intel verdict is `maliciousIntel` and the log verdict `anomalousLogs`. */
  function Effect(r: Route, k: Knowledge, maliciousIntel: bool, anomalousLogs: bool): Knowledge {
    var f := k.facts;
    match r
    case ToThreatAnalyst =>
      k.(facts := f.(intelAvailable := true, threatDetected := f.threatDetected || maliciousIntel))
    case ToLogAnalyst =>
      k.(facts := f.(logSummaryAvailable := true, threatDetected := f.threatDetected || anomalousLogs))
    case ToConsultant => k.(playbookConsulted := true)
    case ToPolicyAgent => k.(facts := f.(policyGenerated := true))
    case EndInvestigation => k
  }

  /** The routes chosen in turn, at most `fuel` of them, the last one being
      `EndInvestigation` if the table ends within the budget. */
  function DecisionPath(v: Variant, k: Knowledge, maliciousIntel: bool, anomalousLogs: bool, fuel: nat): seq<Route>
    decreases fuel
  {
    if fuel == 0 then []
    else
      var r := Decide(v, k);
      if r == EndInvestigation then [r]
      else [r] + DecisionPath(v, Effect(r, k, maliciousIntel, anomalousLogs), maliciousIntel, anomalousLogs, fuel - 1)
  }

  /** The fast-track table visits the intel, then the logs unless the intel
      is malicious, then the policy if either verdict is a threat, and ends. */
  lemma FastTrackPaths(maliciousIntel: bool, anomalousLogs: bool, fuel: nat)
    requires fuel >= 4
    ensures DecisionPath(FastTrack, Start, maliciousIntel, anomalousLogs, fuel) ==
      [ToThreatAnalyst] + (if maliciousIntel then [] else [ToLogAnalyst])
      + (if maliciousIntel || anomalousLogs then [ToPolicyAgent] else []) + [EndInvestigation]
  {
    var mi, al := maliciousIntel, anomalousLogs;
    PathStep(FastTrack, Start, mi, al, fuel);
    var k1 := Effect(ToThreatAnalyst, Start, mi, al);
    PathStep(FastTrack, k1, mi, al, fuel - 1);
    if mi {
      PathEnds(FastTrack, Effect(ToPolicyAgent, k1, mi, al), mi, al, fuel - 2);
    } else {
      var k2 := Effect(ToLogAnalyst, k1, mi, al);
      if al {
        PathStep(FastTrack, k2, mi, al, fuel - 2);
        PathEnds(FastTrack, Effect(ToPolicyAgent, k2, mi, al), mi, al, fuel - 3);
      } else {
        PathEnds(FastTrack, k2, mi, al, fuel - 2);
      }
    }
  }


  /** Once a threat, a consulted playbook and a policy are all known, the
      prompt's table asks for the policy agent on every further round. */
  lemma {:induction false} PromptVariantRepeatsPolicy(k: Knowledge, maliciousIntel: bool, anomalousLogs: bool, fuel: nat)
    requires k.facts.intelAvailable && k.facts.threatDetected && k.playbookConsulted
    ensures forall i :: 0 <= i < |DecisionPath(PromptVariant, k, maliciousIntel, anomalousLogs, fuel)| ==>
      DecisionPath(PromptVariant, k, maliciousIntel, anomalousLogs, fuel)[i] == ToPolicyAgent
    ensures |DecisionPath(PromptVariant, k, maliciousIntel, anomalousLogs, fuel)| == fuel
    decreases fuel
  {
    if fuel > 0 {
      PromptVariantRepeatsPolicy(Effect(ToPolicyAgent, k, maliciousIntel, anomalousLogs), maliciousIntel, anomalousLogs, fuel - 1);
    }
  }

  /** One round of a decision path that does not end. */
  lemma PathStep(v: Variant, k: Knowledge, maliciousIntel: bool, anomalousLogs: bool, fuel: nat)
    requires fuel > 0 && Decide(v, k) != EndInvestigation
    ensures DecisionPath(v, k, maliciousIntel, anomalousLogs, fuel) ==
      [Decide(v, k)] + DecisionPath(v, Effect(Decide(v, k), k, maliciousIntel, anomalousLogs), maliciousIntel, anomalousLogs, fuel - 1)
  {
  }

  lemma PathEnds(v: Variant, k: Knowledge, maliciousIntel: bool, anomalousLogs: bool, fuel: nat)
    requires fuel > 0 && Decide(v, k) == EndInvestigation
    ensures DecisionPath(v, k, maliciousIntel, anomalousLogs, fuel) == [EndInvestigation]
  {
  }

  /** Under the prompt's table, a threat with no playbook yet leads to the
      consultant and from then on to the policy agent, never to the end. */
  lemma PromptVariantFromThreat(k: Knowledge, maliciousIntel: bool, anomalousLogs: bool, fuel: nat)
    requires k.facts.intelAvailable && k.facts.threatDetected && !k.playbookConsulted
    ensures EndInvestigation !in DecisionPath(PromptVariant, k, maliciousIntel, anomalousLogs, fuel)
  {
    if fuel > 0 {
      PathStep(PromptVariant, k, maliciousIntel, anomalousLogs, fuel);
      PromptVariantRepeatsPolicy(Effect(ToConsultant, k, maliciousIntel, anomalousLogs), maliciousIntel, anomalousLogs, fuel - 1);
    }
  }

  /** Consequently, whenever either verdict is a threat, the prompt's table
      never ends the investigation, however many rounds it is given. */
  lemma PromptVariantNeverEndsOnThreat(maliciousIntel: bool, anomalousLogs: bool, fuel: nat)
    requires maliciousIntel || anomalousLogs
    ensures EndInvestigation !in DecisionPath(PromptVariant, Start, maliciousIntel, anomalousLogs, fuel)
  {
    if fuel > 0 {
      var k1 := Effect(ToThreatAnalyst, Start, maliciousIntel, anomalousLogs);
      PathStep(PromptVariant, Start, maliciousIntel, anomalousLogs, fuel);
      PromptVariantAfterIntel(k1, maliciousIntel, anomalousLogs, fuel - 1);
    }
  }

  lemma PromptVariantAfterIntel(k: Knowledge, maliciousIntel: bool, anomalousLogs: bool, fuel: nat)
    requires maliciousIntel || anomalousLogs
    requires k.facts.intelAvailable && !k.facts.logSummaryAvailable && !k.playbookConsulted
    requires k.facts.threatDetected == maliciousIntel
    ensures EndInvestigation !in DecisionPath(PromptVariant, k, maliciousIntel, anomalousLogs, fuel)
  {
    if maliciousIntel {
      PromptVariantFromThreat(k, maliciousIntel, anomalousLogs, fuel);
    } else if fuel > 0 {
      PathStep(PromptVariant, k, maliciousIntel, anomalousLogs, fuel);
      PromptVariantFromThreat(Effect(ToLogAnalyst, k, maliciousIntel, anomalousLogs), maliciousIntel, anomalousLogs, fuel - 1);
    }
  }

  /** Under the corrected table, a threat with no playbook yet leads to the
      consultant, then the policy agent, then the end. */
  lemma CorrectedFromThreat(k: Knowledge, maliciousIntel: bool, anomalousLogs: bool, fuel: nat)
    requires fuel >= 3
    requires k.facts.intelAvailable && k.facts.threatDetected && !k.facts.policyGenerated && !k.playbookConsulted
    ensures DecisionPath(PromptVariantCorrected, k, maliciousIntel, anomalousLogs, fuel) ==
      [ToConsultant, ToPolicyAgent, EndInvestigation]
  {
    var v := PromptVariantCorrected;
    PathStep(v, k, maliciousIntel, anomalousLogs, fuel);
    var k3 := Effect(ToConsultant, k, maliciousIntel, anomalousLogs);
    PathStep(v, k3, maliciousIntel, anomalousLogs, fuel - 1);
    PathEnds(v, Effect(ToPolicyAgent, k3, maliciousIntel, anomalousLogs), maliciousIntel, anomalousLogs, fuel - 2);
  }

  /** The corrected table consults the playbook before the policy and then
      ends. */
  lemma CorrectedPromptPaths(maliciousIntel: bool, anomalousLogs: bool, fuel: nat)
    requires fuel >= 5
    ensures DecisionPath(PromptVariantCorrected, Start, maliciousIntel, anomalousLogs, fuel) ==
      [ToThreatAnalyst] + (if maliciousIntel then [] else [ToLogAnalyst])
      + (if maliciousIntel || anomalousLogs then [ToConsultant, ToPolicyAgent] else []) + [EndInvestigation]
  {
    var v, mi, al := PromptVariantCorrected, maliciousIntel, anomalousLogs;
    PathStep(v, Start, mi, al, fuel);
    var k1 := Effect(ToThreatAnalyst, Start, mi, al);
    if mi {
      CorrectedFromThreat(k1, mi, al, fuel - 1);
    } else {
      PathStep(v, k1, mi, al, fuel - 1);
      var k2 := Effect(ToLogAnalyst, k1, mi, al);
      if al {
        CorrectedFromThreat(k2, mi, al, fuel - 2);
      } else {
        PathEnds(v, k2, mi, al, fuel - 2);
      }
    }
  }
}
