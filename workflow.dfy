/** The incident-response graph: the supervisor node, the routing of its
    decision through the dispatch table, the three specialist nodes wired
    back to the supervisor, and the run that folds each node's update into
    the shared state until the supervisor ends it, a node raises, or the
    step ceiling is reached.

    Each node execution is one step of the run. A run emits one event per
    completed step, naming the node and its update, and then either ends
    normally or is aborted with a failure. The language-model chains are the
    fields of `Oracles`. */
module Workflow {
  import opened Common
  import opened Records
  import opened SupervisorRules
  import opened State
  import opened ThreatAnalystStep
  import opened LogAnalystStep
  import opened PolicyStep

  // ---------------------------------------------------------------------
  // The supervisor's view of the state
  // ---------------------------------------------------------------------

  /** A threat is detected when the intel is malicious or the logs show an
      anomaly. */
  predicate ThreatDetected(s: GraphState) {
    (s.intel.Some? && s.intel.value.isMalicious) || (s.logSummary.Some? && s.logSummary.value.containsAnomaly)
  }

  function YesNo(b: bool): string {
    if b then "Yes" else "No"
  }

  /** The four facts the supervisor reads: three results present or not,
      and a threat when the intel is malicious or the logs anomalous. */
  function FactsOf(s: GraphState): (f: Facts)
    ensures f.intelAvailable <==> s.intel.Some?
    ensures f.logSummaryAvailable <==> s.logSummary.Some?
    ensures f.policyGenerated <==> s.policy.Some?
    ensures f.threatDetected <==>
      (s.intel.Some? && s.intel.value.isMalicious) || (s.logSummary.Some? && s.logSummary.value.containsAnomaly)
  {
    Facts(s.intel.Some?, s.logSummary.Some?, ThreatDetected(s), s.policy.Some?)
  }

  /** The variables the supervisor node passes to its chain. */
  const SuppliedVariables: set<string> :=
    {"intel_available", "log_summary_available", "policy_generated", "threat_detected", "investigation_trace"}

  /** The variables the supervisor prompt's template refers to. */
  const PromptVariables: set<string> := SuppliedVariables + {"playbook_consulted"}

  /** The chain's input: four Yes/No answers and the trace joined by
      newlines. */
  function SupervisorInputs(s: GraphState): (m: map<string, string>)
    ensures m.Keys == SuppliedVariables
    ensures m["intel_available"] == "Yes" <==> s.intel.Some?
    ensures m["log_summary_available"] == "Yes" <==> s.logSummary.Some?
    ensures m["policy_generated"] == "Yes" <==> s.policy.Some?
    ensures m["threat_detected"] == "Yes" <==>
      (s.intel.Some? && s.intel.value.isMalicious) || (s.logSummary.Some? && s.logSummary.value.containsAnomaly)
    ensures forall k :: k in m && k != "investigation_trace" ==> m[k] == "Yes" || m[k] == "No"
    ensures m["investigation_trace"] == JoinLines(s.trace)
  {
    map["intel_available" := YesNo(s.intel.Some?),
        "log_summary_available" := YesNo(s.logSummary.Some?),
        "policy_generated" := YesNo(s.policy.Some?),
        "threat_detected" := YesNo(ThreatDetected(s)),
        "investigation_trace" := JoinLines(s.trace)]
  }

  /** The prompt refers to `playbook_consulted`, and it is the one variable
      the supervisor node never supplies. */
  lemma PlaybookConsultedNeverSupplied(s: GraphState)
    ensures PromptVariables - SupervisorInputs(s).Keys == {"playbook_consulted"}
    ensures "playbook_consulted" !in SupervisorInputs(s)
  {
  }

  /** How a rule table reads the four facts back from the chain's input. */
  function ReadFacts(m: map<string, string>): (f: Option<Facts>)
    ensures f.Some? <==>
      "intel_available" in m && "log_summary_available" in m && "threat_detected" in m && "policy_generated" in m
  {
    if "intel_available" in m && "log_summary_available" in m && "threat_detected" in m && "policy_generated" in m
    then Some(Facts(m["intel_available"] == "Yes", m["log_summary_available"] == "Yes",
                    m["threat_detected"] == "Yes", m["policy_generated"] == "Yes"))
    else None
  }

  /** Reading the facts back from the supervisor's input gives exactly the
      facts of the state. */
  lemma ReadFactsOfInputs(s: GraphState)
    ensures ReadFacts(SupervisorInputs(s)) == Some(FactsOf(s))
  {
  }

  /** The error a prompt template raises when a variable is not supplied. */
  const MissingVariables: string := "Input to ChatPromptTemplate is missing variables"

  /** The supervisor chain when it follows the fast-track table: it needs the
      four facts and answers with the label of the table's decision. */
  function FastTrackChain(m: map<string, string>): (r: Result<string, string>)
    ensures r.Ok? <==> SuppliedVariables <= m.Keys
    ensures r.Err? ==> r.error == MissingVariables
    ensures r.Ok? ==> ParseRoute(r.value) == Some(DecideFastTrack(ReadFacts(m).value))
  {
    if SuppliedVariables <= m.Keys then
      ParseRouteLabel(DecideFastTrack(ReadFacts(m).value));
      Ok(RouteLabel(DecideFastTrack(ReadFacts(m).value)))
    else Err(MissingVariables)
  }

  /** The supervisor chain when it follows the prompt's own table: its
      template also needs `playbook_consulted`. */
  function PromptVariantChain(m: map<string, string>): (r: Result<string, string>)
    ensures r.Ok? <==> PromptVariables <= m.Keys
    ensures r.Err? ==> r.error == MissingVariables
    ensures r.Ok? ==>
      ParseRoute(r.value) == Some(DecidePromptVariant(ReadFacts(m).value, m["playbook_consulted"] == "Yes"))
  {
    if PromptVariables <= m.Keys then
      var route := DecidePromptVariant(ReadFacts(m).value, m["playbook_consulted"] == "Yes");
      ParseRouteLabel(route);
      Ok(RouteLabel(route))
    else Err(MissingVariables)
  }

  /** Fed by the supervisor node, the prompt's chain always raises. */
  lemma PromptVariantChainAlwaysFails(s: GraphState)
    ensures PromptVariantChain(SupervisorInputs(s)) == Err(MissingVariables)
  {
    PlaybookConsultedNeverSupplied(s);
  }

  // ---------------------------------------------------------------------
  // Nodes and routing
  // ---------------------------------------------------------------------

  /** The language-model chains the nodes call. */
  datatype Oracles = Oracles(
    supervisor: map<string, string> -> Result<string, string>,
    toolUser: string -> Result<string, string>,
    formatter: (string, string) -> Result<ThreatIntel, string>,
    logChain: string -> Result<LogAnalysis, string>,
    policyChain: (string, string) -> Result<RawRule, string>)

  /** The four registered nodes. The consultant is not among them. */
  datatype Node = SupervisorNode | ThreatAnalystNode | LogAnalystNode | PolicyAgentNode

  function NodeName(n: Node): string {
    match n
    case SupervisorNode => "supervisor"
    case ThreatAnalystNode => "threat_analyst"
    case LogAnalystNode => "log_analyst"
    case PolicyAgentNode => "policy_agent"
  }

  /** Where a routing label leads: a node, or the end of the graph. */
  datatype Target = Goto(node: Node) | Finish

  /** The path map of the supervisor's conditional edges. */
  const DispatchTable: map<string, Target> := map[
    "Threat_Analyst" := Goto(ThreatAnalystNode),
    "Log_Analyst" := Goto(LogAnalystNode),
    "Policy_Agent" := Goto(PolicyAgentNode),
    "end_investigation" := Finish]

  /** Every route but the consultant has a dispatch entry; each entry leads
      to the node that route names, or to the end, and never back to the
      supervisor. */
  lemma DispatchCoversRoutes(r: Route)
    ensures RouteLabel(r) in DispatchTable <==> r != ToConsultant
    ensures r == ToThreatAnalyst ==> DispatchTable[RouteLabel(r)] == Goto(ThreatAnalystNode)
    ensures r == ToLogAnalyst ==> DispatchTable[RouteLabel(r)] == Goto(LogAnalystNode)
    ensures r == ToPolicyAgent ==> DispatchTable[RouteLabel(r)] == Goto(PolicyAgentNode)
    ensures r == EndInvestigation ==> DispatchTable[RouteLabel(r)] == Finish
    ensures forall branch :: branch in DispatchTable ==> DispatchTable[branch] != Goto(SupervisorNode)
  {
  }

  /** What a node does to the run when it completes, or why it did not. */
  datatype Failure =
    | StepRaised(node: Node, message: string)   // a node's code or chain raised
    | InvalidRoute(answer: string)             // the supervisor's answer is not a `Route` label
    | UnknownBranch(branch: string)            // the label has no dispatch entry
    | RecursionLimitReached                    // the step ceiling was hit before the end

  /** The supervisor node: it asks its chain for the next step and returns
      only the `next_node` key with the decision, which must be one of the
      five labels. It never touches the trace. */
  function RunSupervisor(s: GraphState, chain: map<string, string> -> Result<string, string>): (r: Result<Update, Failure>)
    ensures chain(SupervisorInputs(s)).Err? ==> r == Err(StepRaised(SupervisorNode, chain(SupervisorInputs(s)).error))
    ensures chain(SupervisorInputs(s)).Ok? && ParseRoute(chain(SupervisorInputs(s)).value).None? ==>
      r == Err(InvalidRoute(chain(SupervisorInputs(s)).value))
    ensures r.Ok? <==> chain(SupervisorInputs(s)).Ok? && ParseRoute(chain(SupervisorInputs(s)).value).Some?
    ensures r.Ok? ==> r.value == Decision(ParseRoute(chain(SupervisorInputs(s)).value).value)
  {
    match chain(SupervisorInputs(s))
    case Err(e) => Err(StepRaised(SupervisorNode, e))
    case Ok(answer) =>
      match ParseRoute(answer)
      case None => Err(InvalidRoute(answer))
      case Some(route) => Ok(Decision(route))
  }

  /** The supervisor's update `{"next_node": route}`. */
  function Decision(route: Route): Update {
    Update(None, None, None, None, None, Some(route))
  }

  /** The supervisor's update holds the single key `next_node` and appends
      nothing to the trace. */
  lemma DecisionKeys(route: Route)
    ensures Keys(Decision(route)) == {"next_node"} && TracePart(Decision(route)) == []
  {
  }

  /** The conditional edge's routing function. It reads `state['next_node']`
      before falling back to its default, so an absent decision raises; the
      supervisor always writes one first, so the default is never used. */
  function RouteOf(s: GraphState): (r: Result<string, string>)
    ensures s.nextNode.Some? ==> r == Ok(RouteLabel(s.nextNode.value))
    ensures s.nextNode.None? ==> r.Err?
  {
    match s.nextNode
    case None => Err("'next_node'")
    case Some(route) => Ok(RouteLabel(route))
  }

  /** The event a completed step emits: the node and its update. */
  datatype StepEvent = StepEvent(node: Node, update: Update)

  datatype StepResult = Emitted(event: StepEvent, next: Target) | Raised(failure: Failure)

  function Lift(n: Node, r: Result<Update, string>): StepResult {
    match r
    case Err(e) => Raised(StepRaised(n, e))
    case Ok(u) => Emitted(StepEvent(n, u), Goto(SupervisorNode))
  }

  /** One step of the run: execute the node, and for the supervisor route
      its decision through the dispatch table within the same step, so that
      a decision without an entry fails the step. */
  function Superstep(s: GraphState, at: Node, o: Oracles): (r: StepResult)
    ensures r.Emitted? ==> r.event.node == at
    ensures r.Emitted? && at == SupervisorNode ==>
      r.next != Goto(SupervisorNode) && r.event.update.nextNode.Some?
      && r.event.update == Decision(r.event.update.nextNode.value)
    ensures r.Emitted? && at != SupervisorNode ==>
      r.next == Goto(SupervisorNode) && r.event.update.nextNode.None? && |TracePart(r.event.update)| <= 1
    ensures r.Emitted? ==> (|TracePart(r.event.update)| == 1 <==> r.event.update.trace.Some?)
  {
    match at
    case SupervisorNode =>
      (match RunSupervisor(s, o.supervisor)
       case Err(f) => Raised(f)
       case Ok(u) =>
         match RouteOf(Merge(s, u))
         case Err(e) => Raised(StepRaised(SupervisorNode, e))
         case Ok(branch) =>
           if branch in DispatchTable then
             DispatchCoversRoutes(u.nextNode.value);
             Emitted(StepEvent(SupervisorNode, u), DispatchTable[branch])
           else Raised(UnknownBranch(branch)))
    case ThreatAnalystNode => Lift(ThreatAnalystNode, RunThreatAnalyst(s, o.toolUser, o.formatter))
    case LogAnalystNode => Lift(LogAnalystNode, RunLogAnalyst(s, o.logChain))
    case PolicyAgentNode => Lift(PolicyAgentNode, RunPolicyAgent(s, o.policyChain))
  }

  /** A decision for the consultant, which the supervisor's `Route` allows,
      has no dispatch entry and fails the step. */
  lemma ConsultantDecisionFails(s: GraphState, o: Oracles)
    requires o.supervisor(SupervisorInputs(s)) == Ok("Consultant_Agent")
    ensures Superstep(s, SupervisorNode, o) == Raised(UnknownBranch("Consultant_Agent"))
  {
    DispatchCoversRoutes(ToConsultant);
  }

  // ---------------------------------------------------------------------
  // Runs
  // ---------------------------------------------------------------------

  /** The step ceiling the server sets, which is also the library default. */
  const RecursionLimit: nat := 25

  datatype Ending = Completed | Aborted(failure: Failure)

  /** The events a run emits, how it ends, and the last state it reached. */
  datatype Outcome = Outcome(events: seq<StepEvent>, ending: Ending, final: GraphState)

  /** The run loop of a compiled graph whose steps go as `step` says, from
      node `at` with `fuel` steps left. Reaching the ceiling with the end not
      yet chosen aborts the run; a failing step emits nothing and aborts it
      with the state as it was before that step. */
  function RunWith(step: (GraphState, Node) -> StepResult, s: GraphState, at: Node, fuel: nat): (r: Outcome)
    ensures |r.events| <= fuel
    ensures r.events == [] <==> fuel == 0 || step(s, at).Raised?
    ensures |r.events| == fuel ==> r.ending == Completed || r.ending == Aborted(RecursionLimitReached)
    ensures r.ending == Completed ==> |r.events| >= 1
    decreases fuel
  {
    if fuel == 0 then Outcome([], Aborted(RecursionLimitReached), s)
    else
      match step(s, at)
      case Raised(f) => Outcome([], Aborted(f), s)
      case Emitted(ev, Finish) => Outcome([ev], Completed, Merge(s, ev.update))
      case Emitted(ev, Goto(n)) =>
        var rest := RunWith(step, Merge(s, ev.update), n, fuel - 1);
        Outcome([ev] + rest.events, rest.ending, rest.final)
  }

  /** The investigation graph's steps. */
  function GraphStep(o: Oracles): (GraphState, Node) -> StepResult {
    (s: GraphState, at: Node) => Superstep(s, at, o)
  }

  /** The run of the investigation graph from node `at`. */
  function RunFrom(s: GraphState, at: Node, fuel: nat, o: Oracles): Outcome {
    RunWith(GraphStep(o), s, at, fuel)
  }

  /** The run loop. Each iteration executes one node, folds its update into
      the state and follows the edge it chose; the loop stops when the end
      is chosen, a node raises, or `limit` steps have been taken, and what it
      emitted is exactly the run `RunWith` describes from the entry edge to
      the supervisor. */
  method RunGraph(step: (GraphState, Node) -> StepResult, init: GraphState, limit: nat)
    returns (events: seq<StepEvent>, ending: Ending, final: GraphState)
    ensures Outcome(events, ending, final) == RunWith(step, init, SupervisorNode, limit)
  {
    ghost var spec := RunWith(step, init, SupervisorNode, limit);
    var s, at, fuel := init, SupervisorNode, limit;
    var running := true;
    events, ending := [], Completed;
    assert [] + spec.events == spec.events;
    while running
      invariant running ==> spec == After(events, RunWith(step, s, at, fuel))
      invariant !running ==> spec == Outcome(events, ending, s)
      decreases fuel, running
    {
      if fuel == 0 {
        AfterNothing(events, s, Aborted(RecursionLimitReached));
        ending, running := Aborted(RecursionLimitReached), false;
      } else {
        match step(s, at) {
          case Raised(f) =>
            AfterNothing(events, s, Aborted(f));
            ending, running := Aborted(f), false;
          case Emitted(ev, Finish) =>
            events, s := events + [ev], Merge(s, ev.update);
            ending, running := Completed, false;
          case Emitted(ev, Goto(n)) =>
            AfterAfter(events, ev, RunWith(step, Merge(s, ev.update), n, fuel - 1));
            events, s, at, fuel := events + [ev], Merge(s, ev.update), n, fuel - 1;
        }
      }
    }
    final := s;
  }

  /** The investigation as the server starts it: the graph's run with the
      step ceiling of 25. */
  method Investigate(init: GraphState, o: Oracles) returns (events: seq<StepEvent>, ending: Ending, final: GraphState)
    ensures Outcome(events, ending, final) == RunFrom(init, SupervisorNode, RecursionLimit, o)
  {
    events, ending, final := RunGraph(GraphStep(o), init, RecursionLimit);
  }

  /** A run prefixed by events already emitted. */
  function After(done: seq<StepEvent>, rest: Outcome): Outcome {
    Outcome(done + rest.events, rest.ending, rest.final)
  }

  lemma AfterNothing(done: seq<StepEvent>, s: GraphState, e: Ending)
    ensures After(done, Outcome([], e, s)) == Outcome(done, e, s)
  {
    assert done + [] == done;
  }

  lemma AfterAfter(done: seq<StepEvent>, ev: StepEvent, rest: Outcome)
    ensures After(done, After([ev], rest)) == After(done + [ev], rest)
  {
    assert done + ([ev] + rest.events) == (done + [ev]) + rest.events;
  }

  // ---------------------------------------------------------------------
  // What every run does, whatever the chains answer
  // ---------------------------------------------------------------------

  function Nodes(evs: seq<StepEvent>): (ns: seq<Node>)
    ensures |ns| == |evs| && forall i :: 0 <= i < |evs| ==> ns[i] == evs[i].node
  {
    if evs == [] then [] else [evs[0].node] + Nodes(evs[1..])
  }

  /** What the graph guarantees of a single step at node `at`: the event is
      that node's, a supervisor step goes to a specialist or finishes and a
      specialist step returns to the supervisor, and the event writes only
      its own node's keys. */
  predicate StepKeepsShape(r: StepResult, at: Node) {
    r.Emitted? ==>
      r.event.node == at && WritesItsOwnKeys(r.event)
      && (at == SupervisorNode <==> r.next != Goto(SupervisorNode))
  }

  ghost predicate KeepsShape(step: (GraphState, Node) -> StepResult) {
    forall t, n {:trigger step(t, n)} :: StepKeepsShape(step(t, n), n)
  }

  /** Every superstep of the graph keeps that shape. */
  lemma GraphStepKeepsShape(o: Oracles)
    ensures KeepsShape(GraphStep(o))
  {
    forall t, n ensures StepKeepsShape(GraphStep(o)(t, n), n) {
      var r := Superstep(t, n, o);
      assert GraphStep(o)(t, n) == r;
    }
  }

  /** What every event of a run satisfies: a supervisor event carries only
      `next_node` and no trace line; no other node writes `next_node`, and
      each appends at most one trace line, exactly when it writes the
      trace. */
  predicate WritesItsOwnKeys(ev: StepEvent) {
    if ev.node == SupervisorNode then ev.update.nextNode.Some? && ev.update == Decision(ev.update.nextNode.value)
    else
      ev.update.nextNode.None? && |TracePart(ev.update)| <= 1
      && (|TracePart(ev.update)| == 1 <==> ev.update.trace.Some?)
  }

  lemma WritesItsOwnKeysMeans(ev: StepEvent)
    requires WritesItsOwnKeys(ev)
    ensures ev.node == SupervisorNode ==> Keys(ev.update) == {"next_node"} && TracePart(ev.update) == []
    ensures ev.node != SupervisorNode ==> "next_node" !in Keys(ev.update)
  {
    if ev.node == SupervisorNode {
      DecisionKeys(ev.update.nextNode.value);
    }
  }

  lemma AllWriteOwnKeys(ev: StepEvent, rest: seq<StepEvent>)
    requires WritesItsOwnKeys(ev)
    requires forall i :: 0 <= i < |rest| ==> WritesItsOwnKeys(rest[i])
    ensures forall i :: 0 <= i < |[ev] + rest| ==> WritesItsOwnKeys(([ev] + rest)[i])
  {
    var evs := [ev] + rest;
    assert forall i :: 1 <= i < |evs| ==> evs[i] == rest[i - 1];
  }

  /** For any step function keeping the shape: the run starts at its entry
      node, alternates strictly between the supervisor and a specialist, and
      every event writes only its own node's keys. */
  lemma {:induction false} RunKeepsShape(step: (GraphState, Node) -> StepResult, s: GraphState, at: Node, fuel: nat)
    requires KeepsShape(step)
    ensures var evs := RunWith(step, s, at, fuel).events;
      (|evs| > 0 ==> evs[0].node == at)
      && (forall i :: 0 <= i < |evs| - 1 ==> (evs[i].node == SupervisorNode <==> evs[i + 1].node != SupervisorNode))
      && (forall i :: 0 <= i < |evs| ==> WritesItsOwnKeys(evs[i]))
    decreases fuel
  {
    if fuel > 0 {
      var r := step(s, at);
      assert StepKeepsShape(r, at);
      if r.Emitted? && r.next.Goto? {
        var s' := Merge(s, r.event.update);
        RunKeepsShape(step, s', r.next.node, fuel - 1);
        var rest := RunWith(step, s', r.next.node, fuel - 1).events;
        AllWriteOwnKeys(r.event, rest);
        var evs := [r.event] + rest;
        assert forall i :: 1 <= i < |evs| ==> evs[i] == rest[i - 1];
      }
    }
  }

  /** The run starts at its entry node and alternates strictly: a supervisor
      step is always followed by a specialist and a specialist by the
      supervisor. */
  lemma RunAlternates(s: GraphState, at: Node, fuel: nat, o: Oracles)
    ensures var evs := RunFrom(s, at, fuel, o).events;
      (|evs| > 0 ==> evs[0].node == at)
      && forall i :: 0 <= i < |evs| - 1 ==> (evs[i].node == SupervisorNode <==> evs[i + 1].node != SupervisorNode)
  {
    GraphStepKeepsShape(o);
    RunKeepsShape(GraphStep(o), s, at, fuel);
  }

  /** Every event of every run writes only its own node's keys. */
  lemma SupervisorWritesOnlyNextNode(s: GraphState, at: Node, fuel: nat, o: Oracles)
    ensures var evs := RunFrom(s, at, fuel, o).events;
      forall i :: 0 <= i < |evs| ==> WritesItsOwnKeys(evs[i])
  {
    GraphStepKeepsShape(o);
    RunKeepsShape(GraphStep(o), s, at, fuel);
  }

  /** The state after folding a sequence of updates in order. */
  function MergeAll(s: GraphState, evs: seq<StepEvent>): GraphState
    decreases |evs|
  {
    if evs == [] then s else MergeAll(Merge(s, evs[0].update), evs[1..])
  }

  /** The trace lines a sequence of events appends, in order. */
  function TraceOf(evs: seq<StepEvent>): seq<string>
    decreases |evs|
  {
    if evs == [] then [] else TracePart(evs[0].update) + TraceOf(evs[1..])
  }

  /** How many events write the given key. */
  function Writes(evs: seq<StepEvent>, key: string): (n: nat)
    ensures n <= |evs|
    decreases |evs|
  {
    if evs == [] then 0 else (if key in Keys(evs[0].update) then 1 else 0) + Writes(evs[1..], key)
  }

  /** Folding updates keeps the old trace and appends the events' lines. */
  lemma {:induction false} MergeAllTrace(s: GraphState, evs: seq<StepEvent>)
    ensures MergeAll(s, evs).trace == s.trace + TraceOf(evs)
    decreases |evs|
  {
    if evs != [] {
      MergeAllTrace(Merge(s, evs[0].update), evs[1..]);
      assert s.trace + TracePart(evs[0].update) + TraceOf(evs[1..]) == s.trace + (TracePart(evs[0].update) + TraceOf(evs[1..]));
    }
  }

  /** For any step function, the final state of a run is the initial state
      with every emitted update folded in, in order; the trace is therefore
      the old one followed by the lines of the events. */
  lemma {:induction false} RunWithFinalState(step: (GraphState, Node) -> StepResult, s: GraphState, at: Node, fuel: nat)
    ensures var out := RunWith(step, s, at, fuel);
      out.final == MergeAll(s, out.events) && out.final.trace == s.trace + TraceOf(out.events)
    decreases fuel
  {
    var out := RunWith(step, s, at, fuel);
    if fuel > 0 {
      var r := step(s, at);
      if r.Emitted? {
        var s' := Merge(s, r.event.update);
        if r.next.Goto? {
          RunWithFinalState(step, s', r.next.node, fuel - 1);
          assert out.events[1..] == RunWith(step, s', r.next.node, fuel - 1).events;
        } else {
          assert out.events[1..] == [];
        }
      }
    }
    MergeAllTrace(s, out.events);
  }

  /** The lines of a sequence of events, one for each event that writes the
      trace, when every event writes only its own keys. */
  lemma {:induction false} TraceOfCounts(evs: seq<StepEvent>)
    requires forall i :: 0 <= i < |evs| ==> WritesItsOwnKeys(evs[i])
    ensures |TraceOf(evs)| == Writes(evs, "investigation_trace")
    decreases |evs|
  {
    if evs != [] {
      assert forall i :: 1 <= i < |evs| ==> evs[1..][i - 1] == evs[i];
      assert WritesItsOwnKeys(evs[0]);
      TraceOfCounts(evs[1..]);
    }
  }

  /** The final state of a run of the graph is the initial state with every
      emitted update folded in, in order; the trace is the old one followed by
      the lines of the events, one line for each event that writes the
      trace. */
  lemma RunFinalState(s: GraphState, at: Node, fuel: nat, o: Oracles)
    ensures var out := RunFrom(s, at, fuel, o);
      out.final == MergeAll(s, out.events)
      && out.final.trace == s.trace + TraceOf(out.events)
      && |TraceOf(out.events)| == Writes(out.events, "investigation_trace")
  {
    RunWithFinalState(GraphStep(o), s, at, fuel);
    SupervisorWritesOnlyNextNode(s, at, fuel, o);
    TraceOfCounts(RunFrom(s, at, fuel, o).events);
  }
}
