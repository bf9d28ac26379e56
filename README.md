# Cypher incident-response orchestrator, modelled in Dafny

Cypher is a security operations assistant. A security alert (an IP address
and some log lines) goes into a graph of agents:

- a **supervisor** reads Yes/No facts about the investigation and picks the
  next step as a `Route` label;
- the **threat analyst** looks the indicator up on VirusTotal, and a
  formatter turns the answer into a `ThreatIntel` verdict;
- the **log analyst** classifies the logs as a `LogAnalysis`;
- the **policy agent** writes a `FirewallRule`;
- the **consultant** asks a playbook retriever for the steps to follow.

Every specialist returns to the supervisor. The run stops when the
supervisor chooses `end_investigation`, when a node raises, or after 25
node executions. A web server builds the initial state from a client's
request and streams each step's update to the client, followed by one
terminal event.

The model has one module per source file:

| module | file | what it holds |
|---|---|---|
| `Common` | common.dfy | `Option`, `Result`, newline join and split |
| `Records` | records.dfy | `ThreatIntel`, `LogAnalysis`, `FirewallRule`, with its closed action and protocol enumerations, and the validation of a raw rule |
| `SupervisorRules` | supervisor_rules.dfy | the `Route` labels and their parsing, the rule tables as data with first-match evaluation, the decision functions, and the route paths each table takes |
| `State` | state.dfy | the graph state, partial updates, and the merge that overwrites fields and appends to the trace |
| `ThreatAnalystStep`, `LogAnalystStep`, `PolicyStep`, `ConsultantStep` | threat_analyst.dfy, log_analyst.dfy, policy_agent.dfy, consultant_agent.dfy | each node as a function from state to a partial update |
| `VirusTotal` | tools.dfy | the VirusTotal lookup tool and its summary |
| `Workflow` | workflow.dfy | the supervisor node, the dispatch table, one step of the graph, the run as a function, and the run loop as a method proved equal to it |
| `WorkflowRuns` | workflow_runs.dfy | whole-run properties: the four end-to-end scenarios, the livelock on empty logs, the failure of the prompt's table, and "each result is written at most once" |
| `Server` | server.dfy | the recursive serialiser, the initial state built from a request, and the streamed event sequence |

The language models are not modelled. Each chain is a function that
returns either a value or an error. The five chains the running graph uses
are function-typed fields of `Workflow.Oracles`. The consultant's retrieval
chain is a parameter of `ConsultantStep.RunConsultantAgent`, because the
consultant is not part of the graph. The table
the supervisor's model follows is pinned by two deterministic chains:

- `Workflow.FastTrackChain`, the table the end-to-end tests expect;
- `Workflow.PromptVariantChain`, the table written in the supervisor's
  prompt.

## Model

| member | source | states |
|---|---|---|
| `Common.JoinLines` | app/main.py:30 | joining no parts gives the empty string; otherwise the result starts with the first part and ends with the last |
| `Common.SplitJoin` | app/agents/policy_agent.py:49 | splitting a newline-joined list of newline-free lines gives the list back |
| `Common.SplitLines` | app/agents/policy_agent.py:49 | splitting yields at least one part, and no part holds a newline |
| `Common.SplitSingleLine` | app/agents/policy_agent.py:49 | a string without a newline splits into itself alone |
| `Common.SplitAfterLine` | app/agents/policy_agent.py:49 | splitting a line, a newline and a rest gives the line followed by the rest's split |
| `Records.ParseAction` | app/agents/policy_agent.py:21 | an action is accepted exactly when it is BLOCK, ALLOW or LOG, and its label is the input |
| `Records.ParseProtocol` | app/agents/policy_agent.py:23 | a protocol is accepted exactly when it is TCP, UDP or ANY, and its label is the input |
| `Records.ValidateRule` | app/agents/policy_agent.py:18-23 | a raw rule validates exactly when both enumerations accept it, and the validated rule prints back to the raw rule |
| `Records.ValidateRuleToRaw` | app/agents/policy_agent.py:18-23 | every validated rule survives printing and re-validation unchanged |
| `SupervisorRules.ParseRoute` | app/agents/supervisor.py:16-17 | an answer is accepted only when it is one of the five labels, and then as that route; any other answer is rejected |
| `SupervisorRules.ParseRouteLabel` | app/agents/supervisor.py:16-17 | every route's label parses back to that route |
| `SupervisorRules.FirstMatch` | app/agents/supervisor.py:25-35 | the result is the route of the earliest rule whose guard holds, and there is none exactly when no guard holds |
| `SupervisorRules.FastTrackTableUnfolds` | tests/test_e2e_workflow.py:28-63 | the table the tests pin reads as a chain of if-then-else in rule order |
| `SupervisorRules.PromptTableUnfolds` | app/agents/supervisor.py:27-35 | the prompt's five rules read as a chain of if-then-else in numbered order |
| `SupervisorRules.CorrectedPromptTableUnfolds` | app/agents/supervisor.py:27-35 | the corrected table reads as its if-then-else chain, with completion checked before rules 3 and 4 |
| `SupervisorRules.TablesAreExhaustive` | app/agents/supervisor.py:25-35 | in every table, some rule matches whatever the facts |
| `SupervisorRules.DecideFastTrack` | tests/test_e2e_workflow.py:16-63 | one iff per route: threat analyst iff no intel; log analyst iff intel, no threat and no log summary; policy iff intel, threat and no policy; end iff intel and, for a threat, a policy, otherwise a log summary; never the consultant |
| `SupervisorRules.FastTrackIsTable` | tests/test_e2e_workflow.py:16-63 | the decision function is first-match evaluation of the pinned table |
| `SupervisorRules.DecidePromptVariant` | app/agents/supervisor.py:27-35 | one iff per route for the prompt's first-match order; it ends only when there is no threat and both analyses are in, so rule 4 shadows rule 5 |
| `SupervisorRules.PromptVariantIsTable` | app/agents/supervisor.py:27-35 | the decision function is first-match evaluation of the prompt's table |
| `SupervisorRules.DecidePromptVariantCorrected` | app/agents/supervisor.py:27-35 | one iff per route when completion is checked first: a threat with a policy ends, and the consultant and policy steps run only while no policy exists |
| `SupervisorRules.CorrectedIsTable` | app/agents/supervisor.py:27-35 | the corrected decision is first-match evaluation of the corrected table |
| `SupervisorRules.PromptVariantShadowsCompletion` | app/agents/supervisor.py:33-35 | with a threat, a consulted playbook and a policy, rule 5 holds, yet the prompt's table picks the policy agent again |
| `SupervisorRules.FastTrackPaths` | tests/test_e2e_workflow.py:16-63 | from the start, the pinned table takes threat analyst, then log analyst unless intel is malicious, then policy agent if either verdict is a threat, then end |
| `SupervisorRules.PromptVariantRepeatsPolicy` | app/agents/supervisor.py:33 | once a threat is known and the playbook consulted, the prompt's table picks the policy agent at every remaining step |
| `SupervisorRules.PathStep` | app/agents/supervisor.py:25-35 | a path that does not end now is the current choice followed by the path from its effect |
| `SupervisorRules.PathEnds` | app/agents/supervisor.py:35 | a path whose first choice is the end is that choice alone |
| `SupervisorRules.PromptVariantFromThreat` | app/agents/supervisor.py:31-35 | from a detected threat with no playbook consulted, the prompt's table never reaches the end |
| `SupervisorRules.PromptVariantAfterIntel` | app/agents/supervisor.py:29-35 | after intel, when either verdict is a threat, the prompt's table never reaches the end |
| `SupervisorRules.PromptVariantNeverEndsOnThreat` | app/agents/supervisor.py:27-35 | from the start, when either verdict is a threat, the prompt's table never reaches the end |
| `SupervisorRules.CorrectedFromThreat` | app/agents/supervisor.py:31-35 | under the corrected table a fresh threat takes the consultant, then the policy agent, then the end |
| `SupervisorRules.CorrectedPromptPaths` | app/agents/supervisor.py:27-35 | from the start, the corrected table takes threat analyst, log analyst unless intel is malicious, consultant and policy agent on a threat, then the end |
| `State.Keys` | app/agents/threat_analyst.py:75-78 | an update's key set holds exactly the fields it sets, within the six state keys, and is empty only for the empty update |
| `State.Merge` | app/agents/threat_analyst.py:77 | merging keeps alert, indicator and logs, overwrites each field the update sets, keeps the others, and appends the update's trace part |
| `State.MergeThen` | app/agents/threat_analyst.py:77 | merging two updates in turn equals merging their combination |
| `State.MergeNothing` | app/agents/log_analyst.py:43-44 | merging the empty update leaves the state unchanged |
| `ThreatAnalystStep.ThreatTraceLine` | app/agents/threat_analyst.py:72 | the line is the fixed prefix, then the indicator, then more text |
| `ThreatAnalystStep.ThreatTraceLineVerdict` | app/agents/threat_analyst.py:72 | the trace line ends with "benign." iff the verdict is benign, and with "malicious." iff it is malicious |
| `ThreatAnalystStep.ThreatTraceLineShape` | app/agents/threat_analyst.py:72 | the trace line is the fixed prefix, then the indicator, then the verdict ending |
| `ThreatAnalystStep.RunThreatAnalyst` | app/agents/threat_analyst.py:63-78 | a missing indicator raises; otherwise the tool runs on the indicator and the formatter on the indicator and the tool's text, and the step succeeds iff both do; the update has exactly the keys intel and trace, the intel is the formatter's output unchanged, and the trace part is one line naming the indicator and that verdict |
| `ThreatAnalystStep.ThreatAnalystReadsOnlyIndicator` | app/agents/threat_analyst.py:66 | two states with the same indicator give the same result |
| `ThreatAnalystStep.BenignVerdictInTrace` | tests/test_analyst_agent.py:59-61 | a benign verdict appends one line ending in "benign." |
| `LogAnalystStep.AnomalyTraceLine` | app/agents/log_analyst.py:48 | the line is the fixed prefix, then a `T` exactly when an anomaly was found, and ends with a period |
| `LogAnalystStep.AnomalyTraceLineVerdict` | app/agents/log_analyst.py:48 | the line ends "True." or "False." as the verdict says, and the two lines differ |
| `LogAnalystStep.RunLogAnalyst` | app/agents/log_analyst.py:39-54 | missing or empty logs give the empty update without calling the chain; otherwise the step succeeds iff the chain on the logs does, its error is passed on, and the update has exactly the keys log summary and trace, holding the chain's verdict and one line naming the anomaly flag |
| `LogAnalystStep.LogAnalystReadsOnlyLogs` | app/agents/log_analyst.py:42-46 | the result depends only on the logs and on the chain's answer for them |
| `LogAnalystStep.NoLogsNoChange` | app/agents/log_analyst.py:42-44 | without logs the step succeeds and the merged state equals the old one, so the log summary stays absent |
| `PolicyStep.PolicyTraceLine` | app/agents/policy_agent.py:52 | the trace line is the fixed prefix followed by the rule's name |
| `PolicyStep.PolicyTraceLineName` | app/agents/policy_agent.py:52 | different rule names give different trace lines |
| `PolicyStep.TraceTextKeepsLines` | app/agents/policy_agent.py:47-50 | the joined trace given to the chain splits back into the trace lines, in execution order |
| `PolicyStep.RunPolicyAgent` | app/agents/policy_agent.py:43-58 | a missing indicator raises; otherwise the chain runs on the indicator and the joined trace, and the step succeeds iff the chain does and its rule validates; the update has exactly the keys policy and trace, the policy prints back to the chain's rule, and one line names it |
| `PolicyStep.RecordedPolicyIsWellFormed` | app/agents/policy_agent.py:21-23 | a recorded policy's action and protocol lie in their enumerations, and its trace part is the one line naming it |
| `ConsultantStep.SummaryPoints` | app/agents/consultant_agent.py:67-75 | an intel point iff there is intel, first; a log point iff there is a log summary, last; two points iff both exist; with neither, the joined trace is the only point |
| `ConsultantStep.IncidentSummary` | app/agents/consultant_agent.py:66-77 | with only intel, the summary is the intel line; with only a log summary, the log line; with neither, the trace lines joined |
| `ConsultantStep.RunConsultantAgent` | app/agents/consultant_agent.py:60-83 | the node, built by conditional appends, succeeds iff the retrieval chain does on the summary; it writes only playbook steps, a one-element list holding the answer, with no trace line |
| `ConsultantStep.IncidentSummaryBothVerdicts` | app/agents/consultant_agent.py:67-77 | with both verdicts, the summary is the intel line, a newline and the log line |
| `VirusTotal.Count` | app/tools.py:34-37 | an absent count reads as 0, and a present one as itself |
| `VirusTotal.StatsOf` | app/tools.py:26-27 | the stats are those of the report when it has data, attributes and last_analysis_stats, and are otherwise empty |
| `VirusTotal.ReputationOf` | app/tools.py:26-28 | the reputation is the attributes' reputation, and is absent without attributes |
| `VirusTotal.Summarise` | app/tools.py:26-40 | the address is echoed, the reputation carried, every count defaults to 0, and the address is malicious iff the malicious or the suspicious count is positive |
| `VirusTotal.VirusTotalLookup` | app/tools.py:7-47 | an unset or empty key gives the fixed message; otherwise one request to the address's URL with the key; a report is summarised, an HTTP error and any other failure become messages with their prefixes |
| `VirusTotal.NoKeyNoRequest` | app/tools.py:12-14 | without a key the result is the same whatever the network does |
| `VirusTotal.EmptyReportIsBenign` | app/tools.py:26-28 | a report without data or attributes gives zero counts, no reputation and a benign verdict |
| `VirusTotal.FailureMessagesDistinct` | app/tools.py:44-47 | an HTTP error message never equals an unexpected-error message |
| `VirusTotal.SummaryKeepsCounts` | app/tools.py:33-38 | a complete report's counts and reputation are carried into the summary unchanged |
| `Workflow.FactsOf` | app/main.py:22-23 | each availability fact holds iff its field is present, and threat detected holds iff the intel is malicious or the logs anomalous |
| `Workflow.SupervisorInputs` | app/main.py:22-31 | the chain gets exactly the five variables; each availability fact is Yes iff its field is present; threat detected is Yes iff the intel is malicious or the logs anomalous; the trace is joined |
| `Workflow.PlaybookConsultedNeverSupplied` | app/main.py:25-31 | of the prompt's variables, only playbook_consulted is missing from what the node supplies |
| `Workflow.ReadFacts` | app/agents/supervisor.py:38-42 | the facts can be read exactly when all four Yes/No variables are present |
| `Workflow.ReadFactsOfInputs` | app/main.py:22-31 | reading the supplied variables gives back the facts of the state |
| `Workflow.FastTrackChain` | tests/test_e2e_workflow.py:16-63 | the pinned chain answers iff its variables are supplied, and then with the label of the fast-track decision |
| `Workflow.PromptVariantChain` | app/agents/supervisor.py:20-45 | the prompt's chain answers iff all six variables are supplied, and then with the label of the prompt's decision |
| `Workflow.PromptVariantChainAlwaysFails` | app/main.py:25-31 | on the node's inputs, the prompt's chain always fails for a missing variable |
| `Workflow.DispatchCoversRoutes` | app/main.py:47-56 | every route except the consultant has a dispatch entry, each leads to the node it names or to the end, and none leads back to the supervisor |
| `Workflow.RunSupervisor` | app/main.py:16-33 | the node raises when the chain does, fails on an answer that is not a label, and otherwise returns only next_node set to the parsed route |
| `Workflow.DecisionKeys` | app/main.py:33 | the supervisor's update has the single key next_node and appends nothing to the trace |
| `Workflow.RouteOf` | app/main.py:35-38 | routing reads next_node as its label, and raises when it is absent |
| `Workflow.Superstep` | app/main.py:41-59 | an emitted step is named after its node; the supervisor's update is only its decision and never leads back to itself; a specialist writes no next_node, appends at most one line, and returns to the supervisor |
| `Workflow.ConsultantDecisionFails` | app/main.py:47-56 | a Consultant_Agent answer fails the step as an unknown branch |
| `Workflow.RunWith` | app/api/server.py:45 | a run emits at most as many events as its step budget; it emits nothing iff the budget is zero or the first step raises; after using the whole budget it has either completed or hit the ceiling; a completed run has at least one event |
| `Workflow.RunGraph` | app/main.py:41-59 | the run loop, executing one node per iteration and merging its update, emits exactly the run that the run function describes |
| `Workflow.Investigate` | app/api/server.py:45 | the loop with the ceiling of 25 gives the graph's run from the supervisor |
| `Workflow.Nodes` | app/main.py:41-59 | the node list has one entry per event, each the event's node |
| `Workflow.GraphStepKeepsShape` | app/main.py:41-59 | every step of the graph is named after its node, writes only its own keys, and leaves the supervisor iff it was the supervisor |
| `Workflow.WritesItsOwnKeysMeans` | app/main.py:33 | a supervisor event sets only next_node and appends nothing; a specialist event never sets next_node |
| `Workflow.RunKeepsShape` | app/main.py:46-59 | for any step function that keeps that shape, a run starts at its entry node, alternates supervisor and specialist, and every event writes only its own keys |
| `Workflow.RunAlternates` | app/main.py:46-59 | a graph run starts at its entry node and strictly alternates supervisor and specialist |
| `Workflow.SupervisorWritesOnlyNextNode` | app/main.py:33 | in every run, each supervisor event writes only next_node and each specialist event writes no next_node |
| `Workflow.Writes` | app/main.py:41-59 | a key is written in at most as many events as there are |
| `Workflow.MergeAllTrace` | app/agents/threat_analyst.py:77 | folding a run's updates into the state appends all their trace parts, in order |
| `Workflow.RunWithFinalState` | app/main.py:41-59 | a run's final state is its events folded onto the initial state, and its trace is the old trace followed by the events' lines |
| `Workflow.TraceOfCounts` | tests/test_e2e_workflow.py:120 | when every event writes its own keys, the lines a run appends are as many as the events that write the trace |
| `Workflow.RunFinalState` | tests/test_e2e_workflow.py:120 | for the graph, the final state is the fold of the events, and the trace grows by one line per trace-writing event |
| `WorkflowRuns.RunTwoSteps` | app/main.py:57-59 | a run that emits two steps is those two events followed by the run from the state after them |
| `WorkflowRuns.FastTrackSupervisorStep` | app/main.py:16-38 | with the pinned chain, the supervisor's step records the fast-track decision and goes to its node, or finishes on the end |
| `WorkflowRuns.ThreatAnalystAnswers` | app/agents/threat_analyst.py:63-78 | with answering tool and formatter, the threat analyst step records the formatter's verdict, leaves the other results alone and adds one line |
| `WorkflowRuns.ThreatAnalystMocked` | tests/test_e2e_workflow.py:85-90 | with the test's mocks, the threat analyst step sets the mocked verdict and keeps the state consistent with the mocks |
| `WorkflowRuns.LogAnalystMocked` | tests/test_e2e_workflow.py:92-93 | with the test's mocks and logs present, the log analyst step sets the mocked log verdict and adds one line |
| `WorkflowRuns.PolicyAgentMocked` | tests/test_e2e_workflow.py:95-102 | with the test's mocks, the policy step records the mocked rule and adds one line |
| `WorkflowRuns.SpecialistMocked` | tests/test_e2e_workflow.py:85-102 | the specialist the pinned table picks applies the effect the decision path predicts |
| `WorkflowRuns.MockedRoundBehaves` | tests/test_e2e_workflow.py:85-114 | with the mocks, each supervisor-and-specialist round follows the pinned table's effect on the facts |
| `WorkflowRuns.AfterTwo` | app/main.py:57-59 | two events put before a run become its first two events |
| `WorkflowRuns.PrefixRound` | app/main.py:46-59 | a round put before a run that follows a path makes the run follow that path with the round's route in front |
| `WorkflowRuns.EndRound` | app/main.py:54 | when the table chooses the end, the run completes after the supervisor's single event |
| `WorkflowRuns.SpecialistRound` | app/main.py:57-59 | when the table chooses a specialist, the run is that round followed by the run from the state after it |
| `WorkflowRuns.PathAfterRound` | app/agents/supervisor.py:25-35 | a path that reaches the end is its first route followed by the shorter path from that route's effect |
| `WorkflowRuns.RunFollowsPath` | app/main.py:41-59 | when every round behaves, a run with enough steps visits the nodes of the decision path in order and completes |
| `WorkflowRuns.FastTrackRunFollowsTable` | tests/test_e2e_workflow.py:114-120 | with the mocks, the graph run completes and its nodes and trace follow the pinned table's path |
| `WorkflowRuns.ExpandCons` | app/main.py:46-59 | the node sequence of a path is the supervisor, the route's node unless it is the end, then the rest |
| `WorkflowRuns.FreshPathNodes` | app/main.py:46-59 | a fresh investigation's path visits supervisor, threat analyst, supervisor, log analyst if intel is benign, supervisor, policy agent on a threat, supervisor |
| `WorkflowRuns.FastTrackScenario` | tests/test_e2e_workflow.py:114-120 | a fresh run with the mocks, with logs present unless the intel is malicious (a malicious indicator may come with no logs at all), completes within 25 steps, visits exactly those nodes, and adds one line for intel, one for logs when intel is benign, and one for a policy on a threat |
| `WorkflowRuns.MockOraclesAreMocks` | tests/test_e2e_workflow.py:85-102 | the test's mock answers satisfy the mock assumptions |
| `WorkflowRuns.VisitsAppend` | tests/test_e2e_workflow.py:117-119 | visits to a node in two runs joined are the sum of the visits |
| `WorkflowRuns.FreshVisits` | tests/test_e2e_workflow.py:117-119 | a fresh run visits the threat analyst once, the log analyst unless intel is malicious, and the policy agent iff some verdict is a threat |
| `WorkflowRuns.TestScenariosHold` | tests/test_e2e_workflow.py:15-63 | each of the four test rows completes, and its call counts and trace length equal the row's expected values |
| `WorkflowRuns.PromptVariantRunFails` | app/main.py:25-31 | with the prompt's chain, every run fails at the first supervisor step, emits nothing and leaves the state unchanged |
| `WorkflowRuns.GraphStepLoopsOnLogs` | app/agents/log_analyst.py:43-44 | with the pinned chain, while logs are empty and intel benign, the supervisor picks the log analyst and the log analyst changes nothing |
| `WorkflowRuns.StuckRun` | app/agents/supervisor.py:29 | from such a stuck state, a run alternates supervisor and log analyst until the ceiling aborts it, with the state's results and trace unchanged |
| `WorkflowRuns.IntelThenStuck` | app/api/server.py:45 | when the first round records benign intel and the logs are empty, the run livelocks until the ceiling |
| `WorkflowRuns.EmptyLogsNeverEnd` | app/agents/log_analyst.py:42-44 | with empty logs and benign intel, a run never completes: it takes 25 steps, alternating supervisor and log analyst after the intel, and aborts at the ceiling with one trace line |
| `WorkflowRuns.FastTrackDispatchesPending` | app/main.py:47-56 | with the pinned chain, the supervisor only dispatches a specialist whose result is still absent |
| `WorkflowRuns.SpecialistWritesOwnResult` | app/main.py:41-59 | each specialist writes at most its own result field and one trace line |
| `WorkflowRuns.GraphStepWritesOnce` | app/main.py:41-59 | with the pinned chain, every step writes only a still-absent result |
| `WorkflowRuns.WritesCons` | app/main.py:41-59 | the writes of a key in an event followed by a run are the event's plus the run's |
| `WorkflowRuns.WrittenOnceCons` | app/main.py:41-59 | a pending step written once before a run written once gives a run written once |
| `WorkflowRuns.WrittenOnceLast` | app/main.py:41-59 | a single pending step writes each result at most once |
| `WorkflowRuns.RunWritesOnce` | app/main.py:41-59 | for any step function that writes only absent results, each result is written at most once in a run |
| `WorkflowRuns.WritesAtMostOnce` | tests/test_e2e_workflow.py:120 | with the pinned chain, intel, log summary and policy are each written at most once, and a run adds at most three trace lines |
| `Server.Convert` | app/api/server.py:27-37 | a model becomes its dump; a dict keeps its keys and order and converts each value; a list keeps its length and order; anything else is returned unchanged |
| `Server.ConvertRemovesModels` | app/api/server.py:31-32 | when every model dumps to plain data, the converted value has no model at any depth |
| `Server.ConvertKeepsPlain` | app/api/server.py:37 | a value without models is returned unchanged |
| `Server.ConvertIdempotent` | app/api/server.py:27-37 | converting twice is converting once |
| `Server.Strings` | app/agents/threat_analyst.py:77 | a list of lines becomes a list of strings of the same length and order |
| `Server.EventValueDumpsPlain` | app/api/server.py:47 | every streamed event's models dump to plain data |
| `Server.InitialState` | app/api/server.py:73-77 | the alert is manual and carries the prompt; indicator and logs are copied or default to the empty string; no result, no trace and no next node yet |
| `Server.RequestWithoutLogsMaliciousCompletes` | app/api/server.py:73-77 | a request without logs, for an indicator the intel calls malicious, completes after supervisor, threat analyst, supervisor, policy agent, supervisor, with two trace lines |
| `Server.RequestWithoutLogsLivelocks` | app/api/server.py:73-77 | a request without logs, for an indicator the intel calls benign, never completes and aborts at the ceiling |
| `Server.ErrorText` | app/api/server.py:53-55 | a node's exception message is sent unchanged; the route, branch and ceiling messages carry the rejected answer, the branch and the limit of 25 |
| `Server.StreamEvents` | app/api/server.py:45-55 | the stream is one converted event per step, in order, followed by the terminal event for the run's ending |
| `Server.StreamOfEvents` | app/api/server.py:45-55 | the events sent one by one, then the terminal event, are the stream |
| `Server.StreamShape` | app/api/server.py:45-55 | a stream has exactly one terminal event, the last; it is graph_finished iff the run completed, otherwise an error with the message; every event before it has one entry named after its node and holds no model |
| `Server.EmitEvents` | app/api/server.py:45-48 | the loop sends one converted `graph_event` per step, in order |
| `Server.RunGraphStreaming` | app/api/server.py:40-55 | the streaming task emits exactly the stream of the graph's run with the ceiling of 25 |

## Left out

- The language models and their prompts (`supervisor_chain`, `tool_user_executor`, `formatter_chain`, `log_analyst_chain`, `policy_agent_chain`, `rag_chain`) are oracles, each a function that returns a result or an error. Prompt wording and answer quality are not modelled.
- The FAISS index, the embeddings and the retriever loading in app/agents/consultant_agent.py, and document ingestion in scripts/ingest.py: they are file I/O and machine-learning libraries.
- The HTTP request and `json.dumps` in app/tools.py: the request is a parameter, the reply is the parsed record, and the tool returns the summary record rather than its JSON text.
- Socket.IO, FastAPI, CORS, `asyncio.sleep`, the background task and the `investigation_started` acknowledgement in app/api/server.py: the server is modelled as the sequence of events it emits.
- frontend/src/app/page.tsx: a UI event reducer, outside the orchestrator.
- `print`, `load_dotenv` and the `sys.path` changes.
- app/state.py is not part of this model. The merge rule is inferred: the trace is concatenated, and every other key overwrites. The ceiling semantics are inferred too: each node execution is one step, the supervisor's routing runs inside its own step, and a 26th step is never started.
- The end-to-end tests do not mock the supervisor, so their expectations describe the language model's behaviour. The model pins that behaviour with `Workflow.FastTrackChain`, which is the table the tests' expected values require.
- Call counts in the tests count chain invocations. The model counts node visits; each visit runs its chain once.
- The assertion at tests/test_analyst_agent.py:56 expects the formatter to be called without the indicator. The code passes both, and the model follows the code.
- `Server.ErrorText`: the texts of the exceptions (missing variables, route validation, unknown branch, recursion limit, rule validation) are close paraphrases of the libraries' messages, not their exact wording.
- A key whose value is JSON null and a key that is absent are one case (`None`). This changes the outcome in three places:
  - In app/tools.py:26-39, a report with `"data": null` (or null attributes) makes `None.get` raise, and a null `malicious` or `suspicious` count makes `None > 0` raise. Python then returns "An unexpected error occurred: …". `VirusTotal.Summarise` instead returns an all-zero, benign summary.
  - In app/api/server.py:75, a request with `"indicator": null` puts `None` in the state. `Server.InitialState` cannot represent that; it copies a present indicator or defaults an absent one to "".
  - A null `logs` is treated like empty logs, as Python's truthiness test does.
- An empty update from the log analyst is streamed as an empty dictionary under the node's name. `WorkflowRuns.EmptyLogsNeverEnd` and `Server.RequestWithoutLogsLivelocks` depend on the graph library accepting a node that writes no key. A library release that rejects such an update would end the run with `graph_error` at the first log-analyst step, not with the abort after 25 steps.
- `Server.ConvertRemovesModels` assumes that `model_dump` yields plain data, which holds for the three record types.
- `ConsultantStep.RunConsultantAgent` is modelled but never runs: the consultant is not registered in the graph, so a `Consultant_Agent` decision fails as an unknown branch.
- `PolicyStep.RunPolicyAgent` reads the trace as the empty list when the state has none. In Python, `state["investigation_trace"]` would raise, but the policy agent only runs after the threat analyst has added a line.

## Findings

| source | as written | input that shows it | evidently intended | confidence | as-written member | corrected member |
|---|---|---|---|---|---|---|
| app/main.py:25-31 | the supervisor's prompt uses `{playbook_consulted}` (app/agents/supervisor.py:41), but `run_supervisor` supplies only the other five variables, so every supervisor call raises for a missing variable | any state at all: the first supervisor step raises, and the run ends with `graph_error` before any specialist runs, so the end-to-end tests cannot pass as written | the supervisor is supplied every variable its prompt reads, and follows the table the tests pin | high, not executed | `Workflow.PromptVariantChainAlwaysFails`, `WorkflowRuns.PromptVariantRunFails` | `Workflow.FastTrackChain`, `WorkflowRuns.TestScenariosHold` |
| app/agents/supervisor.py:33-35 | rule 4 (threat and playbook consulted: policy agent) comes before rule 5, so when rules are applied in order, rule 5's "threat found and policy generated: end" can never fire | facts intel Yes, log summary No, threat Yes, policy Yes, playbook consulted Yes: rules 4 and 5 both hold, and the policy agent is picked again, for ever | after a policy for a detected threat, the investigation ends | medium, not executed | `SupervisorRules.PromptVariantShadowsCompletion`, `SupervisorRules.PromptVariantNeverEndsOnThreat` | `SupervisorRules.DecidePromptVariantCorrected`, `SupervisorRules.CorrectedPromptPaths` |
