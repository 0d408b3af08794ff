/**
 * The progress-state data model of the workshop progress tracker: one record
 * per training scenario, keyed by scenario name, plus the workshop start
 * timestamp.
 */
module Scenarios {
  import opened Wrappers

  /** The four values of a scenario's `status` field. */
  datatype Status = Pending | Running | Completed | Failed

  /**
   * One scenario record `{total, completed, status, startTime}`.
   * `startTime` is `None` for JavaScript `null`.
   */
  datatype Scenario = Scenario(total: int, completed: int, status: Status, startTime: Option<int>)

  /** The tracker's state: the scenario map and `workshopStartTime`. */
  datatype Session = Session(scenarios: map<string, Scenario>, workshopStartTime: int)

  /** JavaScript truthiness of an optional timestamp: `null` and `0` are falsy. */
  predicate IsSet(t: Option<int>) {
    t.Some? && t.value != 0
  }

  /**
   * The record invariant the tracker's own transitions keep: a positive
   * target, progress within it, and `completed` status only at the target.
   */
  predicate Consistent(sc: Scenario) {
    && 0 < sc.total
    && 0 <= sc.completed <= sc.total
    && (sc.status == Completed ==> sc.completed == sc.total)
  }

  predicate AllConsistent(m: map<string, Scenario>) {
    forall name :: name in m ==> Consistent(m[name])
  }

  /** The five built-in scenario names. */
  const PodStartup: string := "pod-startup-failures"
  const Dns: string := "dns-issues"
  const Rbac: string := "rbac-issues"
  const NodeNotReady: string := "node-not-ready"
  const ImagePull: string := "image-pull-errors"

  const DefaultNames: set<string> := {PodStartup, Dns, Rbac, NodeNotReady, ImagePull}

  /** A fresh scenario: pending, nothing done, never started. */
  function Fresh(total: int): (sc: Scenario)
    ensures sc.status == Pending && sc.completed == 0 && sc.startTime == None
    ensures sc.total == total
  {
    Scenario(total, 0, Pending, None)
  }

  /** The fixed total of a built-in scenario: how many issues it plants. */
  function DefaultTotal(name: string): (t: int)
    requires name in DefaultNames
    ensures 0 < t
  {
    if name == PodStartup then 5
    else if name == Dns then 3
    else if name == Rbac then 2
    else if name == NodeNotReady then 4
    else 2
  }

  /** The built-in scenarios, each fresh with its fixed total. */
  const DefaultScenarios: map<string, Scenario> :=
    map name | name in DefaultNames :: Fresh(DefaultTotal(name))

  /** The state the constructor builds before anything is loaded. */
  function NewSession(now: int): (s: Session)
    ensures s.scenarios.Keys == DefaultNames
    ensures |s.scenarios| == 5
    ensures forall name :: name in s.scenarios ==> s.scenarios[name] == Fresh(DefaultTotal(name))
    ensures AllConsistent(s.scenarios)
    ensures s.workshopStartTime == now
  {
    assert DefaultScenarios.Keys == DefaultNames;
    Session(DefaultScenarios, now)
  }
}
