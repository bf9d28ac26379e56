/** The shared investigation state and the partial updates the nodes return.

    Every node returns a fresh dictionary holding only the keys it changed.
    The graph folds that dictionary into the state: a present key overwrites
    the field, except the investigation trace, whose reducer concatenates the
    new lines after the old ones. Keys a node leaves out are kept as they
    were. */
module State {
  import opened Common
  import opened Records
  import opened SupervisorRules

  /** The alert that opened the investigation. */
  datatype Alert = Alert(source: string, details: Option<string>)

  /** The graph state. A field a node has not written yet is `None`; the
      trace channel starts out as the empty list. */
  datatype GraphState = GraphState(
    alert: Alert,
    indicator: Option<string>,
    logs: Option<string>,
    intel: Option<ThreatIntel>,
    logSummary: Option<LogAnalysis>,
    playbookSteps: Option<seq<string>>,
    policy: Option<FirewallRule>,
    trace: seq<string>,
    nextNode: Option<Route>)

  /** A node's return value: `Some` marks a key the dictionary contains. */
  datatype Update = Update(
    intel: Option<ThreatIntel>,
    logSummary: Option<LogAnalysis>,
    playbookSteps: Option<seq<string>>,
    policy: Option<FirewallRule>,
    trace: Option<seq<string>>,
    nextNode: Option<Route>)

  /** The empty dictionary `{}`. */
  const NoUpdate := Update(None, None, None, None, None, None)

  /** The key names a state update contains. */
  function Keys(u: Update): (ks: set<string>)
    ensures "intel" in ks <==> u.intel.Some?
    ensures "log_summary" in ks <==> u.logSummary.Some?
    ensures "playbook_steps" in ks <==> u.playbookSteps.Some?
    ensures "policy" in ks <==> u.policy.Some?
    ensures "investigation_trace" in ks <==> u.trace.Some?
    ensures "next_node" in ks <==> u.nextNode.Some?
    ensures ks <= {"intel", "log_summary", "playbook_steps", "policy", "investigation_trace", "next_node"}
    ensures ks == {} <==> u == NoUpdate
  {
    (if u.intel.Some? then {"intel"} else {})
    + (if u.logSummary.Some? then {"log_summary"} else {})
    + (if u.playbookSteps.Some? then {"playbook_steps"} else {})
    + (if u.policy.Some? then {"policy"} else {})
    + (if u.trace.Some? then {"investigation_trace"} else {})
    + (if u.nextNode.Some? then {"next_node"} else {})
  }

  /** The lines an update appends to the trace. */
  function TracePart(u: Update): seq<string> {
    if u.trace.Some? then u.trace.value else []
  }

  function Overwrite<T>(current: Option<T>, incoming: Option<T>): Option<T> {
    if incoming.Some? then incoming else current
  }

  /** Folding an update into the state. Each field the update carries
      replaces the state's, the trace grows by exactly the update's lines at
      its end, and every other field, including the alert, the indicator and
      the logs, is left alone. */
  function Merge(s: GraphState, u: Update): (r: GraphState)
    ensures r.alert == s.alert && r.indicator == s.indicator && r.logs == s.logs
    ensures r.intel == if u.intel.Some? then u.intel else s.intel
    ensures r.logSummary == if u.logSummary.Some? then u.logSummary else s.logSummary
    ensures r.playbookSteps == if u.playbookSteps.Some? then u.playbookSteps else s.playbookSteps
    ensures r.policy == if u.policy.Some? then u.policy else s.policy
    ensures r.nextNode == if u.nextNode.Some? then u.nextNode else s.nextNode
    ensures r.trace == s.trace + TracePart(u)
  {
    s.(intel := Overwrite(s.intel, u.intel),
       logSummary := Overwrite(s.logSummary, u.logSummary),
       playbookSteps := Overwrite(s.playbookSteps, u.playbookSteps),
       policy := Overwrite(s.policy, u.policy),
       trace := s.trace + TracePart(u),
       nextNode := Overwrite(s.nextNode, u.nextNode))
  }

  /** Two updates applied one after the other, as one update. */
  function Then(u1: Update, u2: Update): Update {
    Update(Overwrite(u1.intel, u2.intel),
           Overwrite(u1.logSummary, u2.logSummary),
           Overwrite(u1.playbookSteps, u2.playbookSteps),
           Overwrite(u1.policy, u2.policy),
           if u1.trace.None? && u2.trace.None? then None else Some(TracePart(u1) + TracePart(u2)),
           Overwrite(u1.nextNode, u2.nextNode))
  }

  /** Merging two updates in turn is merging their combination: the later
      value of a field wins and the trace lines keep their order. */
  lemma MergeThen(s: GraphState, u1: Update, u2: Update)
    ensures Merge(Merge(s, u1), u2) == Merge(s, Then(u1, u2))
  {
    assert TracePart(Then(u1, u2)) == TracePart(u1) + TracePart(u2);
    assert s.trace + TracePart(u1) + TracePart(u2) == s.trace + (TracePart(u1) + TracePart(u2));
  }

  /** The empty update leaves the state exactly as it was. */
  lemma MergeNothing(s: GraphState)
    ensures Merge(s, NoUpdate) == s
  {
    assert s.trace + [] == s.trace;
  }
}
