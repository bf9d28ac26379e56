/** The web server around the graph: it builds the initial state from a
    client's investigation request, runs the graph with a step ceiling of
    25, and streams every step's update to the client as plain data,
    followed by exactly one terminal event.

    Values crossing the socket are modelled as a small JSON-like datatype
    with one extra case for a validated model object, whose dump is the
    plain data `model_dump` produces. The socket transport, the delay
    between events and the background task are left out: the server's
    behaviour is the sequence of events it emits. */
module Server {
  import opened Common
  import opened Records
  import opened SupervisorRules
  import opened State
  import opened LogAnalystStep
  import opened Workflow
  import opened WorkflowRuns

  // ---------------------------------------------------------------------
  // Serialisation
  // ---------------------------------------------------------------------

  /** A Python value as the serialiser meets it. `Dict` keeps its keys in
      insertion order; `Model` is a validated object with its dump. */
  datatype Value =
    | Null
    | Bool(b: bool)
    | Int(i: int)
    | Str(s: string)
    | List(items: seq<Value>)
    | Dict(entries: seq<(string, Value)>)
    | Model(dump: Value)

  /** No model object occurs at any depth. */
  predicate NoModels(v: Value)
    decreases v
  {
    match v
    case Model(_) => false
    case List(items) => forall i :: 0 <= i < |items| ==> NoModels(items[i])
    case Dict(entries) => forall i :: 0 <= i < |entries| ==> NoModels(entries[i].1)
    case _ => true
  }

  /** Every model object at any depth dumps to plain data, as `model_dump`
      does. */
  predicate DumpsPlain(v: Value)
    decreases v
  {
    match v
    case Model(dump) => NoModels(dump)
    case List(items) => forall i :: 0 <= i < |items| ==> DumpsPlain(items[i])
    case Dict(entries) => forall i :: 0 <= i < |entries| ==> DumpsPlain(entries[i].1)
    case _ => true
  }

  /** The recursive serialiser. A model becomes its dump, which is not
      converted further; a dictionary keeps its keys in order and converts
      each value; a list keeps its length and order and converts each item;
      anything else is returned as it is. */
  function Convert(v: Value): (r: Value)
    ensures v.Model? ==> r == v.dump
    ensures v.Dict? ==>
      (r.Dict? && |r.entries| == |v.entries|
       && forall i :: 0 <= i < |v.entries| ==> r.entries[i].0 == v.entries[i].0 && r.entries[i].1 == Convert(v.entries[i].1))
    ensures v.List? ==>
      (r.List? && |r.items| == |v.items|
       && forall i :: 0 <= i < |v.items| ==> r.items[i] == Convert(v.items[i]))
    ensures !v.Model? && !v.Dict? && !v.List? ==> r == v
    decreases v
  {
    match v
    case Model(dump) => dump
    case Dict(entries) => Dict(seq(|entries|, i requires 0 <= i < |entries| => (entries[i].0, Convert(entries[i].1))))
    case List(items) => List(seq(|items|, i requires 0 <= i < |items| => Convert(items[i])))
    case _ => v
  }

  /** When every model dumps to plain data, nothing of a model is left
      after conversion. */
  lemma {:induction false} ConvertRemovesModels(v: Value)
    requires DumpsPlain(v)
    ensures NoModels(Convert(v))
    decreases v
  {
    match v {
      case Model(_) =>
      case List(items) =>
        forall i | 0 <= i < |items| ensures NoModels(Convert(v).items[i]) {
          ConvertRemovesModels(items[i]);
        }
      case Dict(entries) =>
        forall i | 0 <= i < |entries| ensures NoModels(Convert(v).entries[i].1) {
          ConvertRemovesModels(entries[i].1);
        }
      case _ =>
    }
  }

  /** Plain data passes through unchanged. */
  lemma {:induction false} ConvertKeepsPlain(v: Value)
    requires NoModels(v)
    ensures Convert(v) == v
    decreases v
  {
    match v {
      case Model(_) =>
      case List(items) =>
        forall i | 0 <= i < |items| ensures Convert(items[i]) == items[i] {
          ConvertKeepsPlain(items[i]);
        }
        assert Convert(v).items == items;
      case Dict(entries) =>
        forall i | 0 <= i < |entries| ensures Convert(entries[i].1) == entries[i].1 {
          ConvertKeepsPlain(entries[i].1);
        }
        assert Convert(v).entries == entries;
      case _ =>
    }
  }

  /** Converting twice is converting once. */
  lemma ConvertIdempotent(v: Value)
    requires DumpsPlain(v)
    ensures Convert(Convert(v)) == Convert(v)
  {
    ConvertRemovesModels(v);
    ConvertKeepsPlain(Convert(v));
  }

  // ---------------------------------------------------------------------
  // The graph's updates as values
  // ---------------------------------------------------------------------

  function IntelValue(t: ThreatIntel): Value {
    Model(Dict([("summary", Str(t.summary)), ("is_malicious", Bool(t.isMalicious))]))
  }

  function LogSummaryValue(a: LogAnalysis): Value {
    Model(Dict([("summary", Str(a.summary)), ("contains_anomaly", Bool(a.containsAnomaly))]))
  }

  function PolicyValue(r: FirewallRule): Value {
    Model(Dict([("name", Str(r.name)), ("action", Str(ActionLabel(r.action))),
                ("source_ip", Str(r.sourceIp)), ("protocol", Str(ProtocolLabel(r.protocol)))]))
  }

  function Strings(lines: seq<string>): (v: Value)
    ensures v.List? && |v.items| == |lines| && forall i :: 0 <= i < |lines| ==> v.items[i] == Str(lines[i])
  {
    List(seq(|lines|, i requires 0 <= i < |lines| => Str(lines[i])))
  }

  /** The entry for one key, present exactly when the update holds it. */
  function Entry<T>(key: string, field: Option<T>, toValue: T -> Value): seq<(string, Value)> {
    if field.Some? then [(key, toValue(field.value))] else []
  }

  /** A node's returned dictionary, with its keys in the order the nodes
      write them. */
  function UpdateValue(u: Update): Value {
    Dict(Entry("intel", u.intel, IntelValue)
         + Entry("log_summary", u.logSummary, LogSummaryValue)
         + Entry("playbook_steps", u.playbookSteps, Strings)
         + Entry("policy", u.policy, PolicyValue)
         + Entry("investigation_trace", u.trace, Strings)
         + Entry("next_node", u.nextNode, (r: Route) => Str(RouteLabel(r))))
  }

  /** What the stream yields for one step: the node's name mapped to its
      update. */
  function EventValue(ev: StepEvent): Value {
    Dict([(NodeName(ev.node), UpdateValue(ev.update))])
  }

  /** Every value of the entries dumps plain. */
  predicate EntriesDumpPlain(es: seq<(string, Value)>) {
    forall i :: 0 <= i < |es| ==> DumpsPlain(es[i].1)
  }

  lemma EntryDumpsPlain<T>(key: string, field: Option<T>, toValue: T -> Value)
    requires field.Some? ==> DumpsPlain(toValue(field.value))
    ensures EntriesDumpPlain(Entry(key, field, toValue))
  {
  }

  lemma AppendDumpsPlain(a: seq<(string, Value)>, b: seq<(string, Value)>)
    requires EntriesDumpPlain(a) && EntriesDumpPlain(b)
    ensures EntriesDumpPlain(a + b)
  {
    assert forall i :: |a| <= i < |a + b| ==> (a + b)[i] == b[i - |a|];
  }

  /** The models in an event are the three records, whose dumps are plain. */
  lemma EventValueDumpsPlain(ev: StepEvent)
    ensures DumpsPlain(EventValue(ev))
  {
    var u := ev.update;
    var e1 := Entry("intel", u.intel, IntelValue);
    var e2 := Entry("log_summary", u.logSummary, LogSummaryValue);
    var e3 := Entry("playbook_steps", u.playbookSteps, Strings);
    var e4 := Entry("policy", u.policy, PolicyValue);
    var e5 := Entry("investigation_trace", u.trace, Strings);
    var e6 := Entry("next_node", u.nextNode, (r: Route) => Str(RouteLabel(r)));
    EntryDumpsPlain("intel", u.intel, IntelValue);
    EntryDumpsPlain("log_summary", u.logSummary, LogSummaryValue);
    EntryDumpsPlain("playbook_steps", u.playbookSteps, Strings);
    EntryDumpsPlain("policy", u.policy, PolicyValue);
    EntryDumpsPlain("investigation_trace", u.trace, Strings);
    EntryDumpsPlain("next_node", u.nextNode, (r: Route) => Str(RouteLabel(r)));
    AppendDumpsPlain(e1, e2);
    AppendDumpsPlain(e1 + e2, e3);
    AppendDumpsPlain(e1 + e2 + e3, e4);
    AppendDumpsPlain(e1 + e2 + e3 + e4, e5);
    AppendDumpsPlain(e1 + e2 + e3 + e4 + e5, e6);
    assert UpdateValue(u).entries == e1 + e2 + e3 + e4 + e5 + e6;
  }

  // ---------------------------------------------------------------------
  // Requests and streamed runs
  // ---------------------------------------------------------------------

  /** A client's investigation request: each field is `None` when the
      request does not carry it. */
  datatype Request = Request(prompt: Option<string>, indicator: Option<string>, logs: Option<string>)

  /** The initial state of a requested investigation: a manual alert
      carrying the prompt, the indicator and the logs defaulting to the
      empty string, and no result yet. */
  function InitialState(req: Request): (s: GraphState)
    ensures s.alert.source == "manual" && s.alert.details == req.prompt
    ensures s.indicator.Some? && (req.indicator.Some? ==> s.indicator == req.indicator)
    ensures req.indicator.None? ==> s.indicator == Some("")
    ensures req.logs.Some? ==> s.logs == req.logs
    ensures req.logs.None? ==> s.logs == Some("") && NoLogs(s)
    ensures s.intel.None? && s.logSummary.None? && s.playbookSteps.None? && s.policy.None?
    ensures s.trace == [] && s.nextNode.None?
  {
    GraphState(Alert("manual", req.prompt), Some(req.indicator.GetOr("")), Some(req.logs.GetOr("")),
               None, None, None, None, [], None)
  }

  /** A request without logs, or with empty logs, and an indicator the
      intel calls benign never completes: the run hits the step ceiling. */
  lemma RequestWithoutLogsLivelocks(req: Request, o: Oracles)
    requires req.logs.None? || req.logs == Some("")
    requires o.supervisor == FastTrackChain && IntelAnswers(o, false)
    ensures Livelocks(RunFrom(InitialState(req), SupervisorNode, RecursionLimit, o), InitialState(req), RecursionLimit)
  {
    EmptyLogsNeverEnd(InitialState(req), o);
  }

  /** A request without logs, or with empty logs, for an indicator the
      intel calls malicious completes: the Threat Analyst, then the Policy
      Agent, each after a supervisor step, and a last supervisor step. */
  lemma RequestWithoutLogsMaliciousCompletes(req: Request, o: Oracles, anomalousLogs: bool)
    requires req.logs.None? || req.logs == Some("")
    requires Mocks(o, true, anomalousLogs)
    ensures var out := RunFrom(InitialState(req), SupervisorNode, RecursionLimit, o);
      out.ending == Completed
      && Nodes(out.events) == [SupervisorNode, ThreatAnalystNode, SupervisorNode, PolicyAgentNode, SupervisorNode]
      && |out.final.trace| == 2
  {
    var s := InitialState(req);
    assert Consistent(s, true, anomalousLogs);
    MaliciousFreshNodes(anomalousLogs);
    FastTrackScenario(s, o, true, anomalousLogs);
  }

  /** What the server emits to the client. */
  datatype SocketEvent = GraphEvent(data: Value) | GraphFinished | GraphError(data: Value)

  predicate IsTerminal(e: SocketEvent) {
    !e.GraphEvent?
  }

  /** The message of the exception that ended a run: a node's own message
      unchanged, and a fixed text naming the answer, the branch or the
      ceiling otherwise. */
  function ErrorText(f: Failure): (text: string)
    ensures f.StepRaised? ==> text == f.message
    ensures f.InvalidRoute? ==> |f.answer| <= |text| && text[|text| - |f.answer|..] == f.answer
    ensures f.UnknownBranch? ==> |text| == |f.branch| + 2 && text[1..|text| - 1] == f.branch
    ensures f == RecursionLimitReached ==>
      |"Recursion limit of 25"| <= |text| && text[..|"Recursion limit of 25"|] == "Recursion limit of 25"
  {
    match f
    case StepRaised(_, message) => message
    case InvalidRoute(answer) => "validation error for Route: " + answer
    case UnknownBranch(branch) => "'" + branch + "'"
    case RecursionLimitReached => "Recursion limit of 25" + " reached without hitting a stop condition."
  }

  function Terminal(e: Ending): SocketEvent {
    match e
    case Completed => GraphFinished
    case Aborted(f) => GraphError(Dict([("error", Str(ErrorText(f)))]))
  }

  /** The `graph_event` for one step: its update, converted. */
  function Sent(ev: StepEvent): SocketEvent {
    GraphEvent(Convert(EventValue(ev)))
  }

  /** The events a streamed run sends: one converted event per step the run
      emitted, then the terminal event for the way it ended. */
  function StreamEvents(out: Outcome): (r: seq<SocketEvent>)
    ensures |r| == |out.events| + 1 && r[|out.events|] == Terminal(out.ending)
    ensures forall i :: 0 <= i < |out.events| ==> r[i] == Sent(out.events[i])
  {
    seq(|out.events|, i requires 0 <= i < |out.events| => Sent(out.events[i]))
    + [Terminal(out.ending)]
  }

  /** The events emitted one by one, then the terminal one, are the
      stream. */
  lemma StreamOfEvents(out: Outcome, sent: seq<SocketEvent>)
    requires |sent| == |out.events|
    requires forall j :: 0 <= j < |sent| ==> sent[j] == Sent(out.events[j])
    ensures sent + [Terminal(out.ending)] == StreamEvents(out)
  {
  }

  /** A stream has exactly one terminal event, the last one; it is
      `graph_finished` exactly when the run completed, and otherwise an
      error carrying the message. Every event before it names the step's
      node and holds only plain data. */
  lemma StreamShape(out: Outcome)
    ensures var r := StreamEvents(out);
      |r| == |out.events| + 1
      && (forall i :: 0 <= i < |r| ==> (IsTerminal(r[i]) <==> i == |r| - 1))
      && (r[|r| - 1] == GraphFinished <==> out.ending == Completed)
      && (out.ending.Aborted? ==> r[|r| - 1] == GraphError(Dict([("error", Str(ErrorText(out.ending.failure)))])))
      && (forall i :: 0 <= i < |out.events| ==>
            r[i].data.Dict? && |r[i].data.entries| == 1 && r[i].data.entries[0].0 == NodeName(out.events[i].node)
            && NoModels(r[i].data))
  {
    var r := StreamEvents(out);
    forall i | 0 <= i < |out.events|
      ensures r[i].data.Dict? && |r[i].data.entries| == 1 && r[i].data.entries[0].0 == NodeName(out.events[i].node)
              && NoModels(r[i].data)
    {
      EventValueDumpsPlain(out.events[i]);
      ConvertRemovesModels(EventValue(out.events[i]));
    }
  }

  /** The streaming task: it runs the graph with the ceiling of 25 and
      emits every step's converted update as it comes, then `graph_finished`,
      or `graph_error` with the message if the run raised. */
  method RunGraphStreaming(init: GraphState, o: Oracles) returns (emitted: seq<SocketEvent>)
    ensures emitted == StreamEvents(RunFrom(init, SupervisorNode, RecursionLimit, o))
  {
    var events, ending, final := Investigate(init, o);
    emitted := EmitEvents(events);
    StreamOfEvents(Outcome(events, ending, final), emitted);
    emitted := emitted + [Terminal(ending)];
  }

  /** The loop over the run's events: one converted `graph_event` per step,
      in order. */
  method EmitEvents(events: seq<StepEvent>) returns (emitted: seq<SocketEvent>)
    ensures |emitted| == |events|
    ensures forall j :: 0 <= j < |events| ==> emitted[j] == Sent(events[j])
  {
    emitted := [];
    for i := 0 to |events|
      invariant |emitted| == i
      invariant forall j :: 0 <= j < i ==> emitted[j] == Sent(events[j])
    {
      emitted := emitted + [Sent(events[i])];
    }
  }

}
