/**
 * `updateOverallProgress`'s arithmetic: the number of scenarios, how many are
 * completed, the overall percentage and the whole minutes since the
 * workshop started.
 */
module Aggregate {
  import opened Wrappers
  import opened Scenarios

  /** The figures the overview shows. `percent` is `None` where JavaScript yields `NaN` (no scenarios). */
  datatype Stats = Stats(totalScenarios: nat, completedScenarios: nat, percent: Option<real>, minutes: int)

  /** The names whose status is `completed`. */
  ghost function CompletedNames(m: map<string, Scenario>): set<string> {
    set name | name in m && m[name].status == Completed
  }

  /** The listed names whose status is `completed`. */
  ghost function CompletedAmong(m: map<string, Scenario>, keys: seq<string>): set<string> {
    set name | name in keys && name in m && m[name].status == Completed
  }

  /** The filter-and-count over `Object.values`, walking the names in order. */
  function CountCompleted(m: map<string, Scenario>, keys: seq<string>): (n: nat)
    requires forall i :: 0 <= i < |keys| ==> keys[i] in m
    ensures n <= |keys|
    ensures n == 0 <== forall i :: 0 <= i < |keys| ==> m[keys[i]].status != Completed
    decreases |keys|
  {
    if |keys| == 0 then 0
    else (if m[keys[0]].status == Completed then 1 else 0) + CountCompleted(m, keys[1..])
  }

  /** Over distinct names the walk counts exactly the completed ones among them. */
  lemma {:induction false} CountCompletedIsCardinality(m: map<string, Scenario>, keys: seq<string>)
    requires forall i :: 0 <= i < |keys| ==> keys[i] in m
    requires forall i, j :: 0 <= i < j < |keys| ==> keys[i] != keys[j]
    ensures CountCompleted(m, keys) == |CompletedAmong(m, keys)|
    decreases |keys|
  {
    if |keys| == 0 {
      assert CompletedAmong(m, keys) == {};
    } else {
      var rest := keys[1..];
      assert forall i :: 0 <= i < |rest| ==> rest[i] == keys[i + 1];
      CountCompletedIsCardinality(m, rest);
      assert keys[0] !in rest;
      assert keys == [keys[0]] + rest;
      if m[keys[0]].status == Completed {
        assert CompletedAmong(m, keys) == {keys[0]} + CompletedAmong(m, rest);
      } else {
        assert CompletedAmong(m, keys) == CompletedAmong(m, rest);
      }
    }
  }

  /** Distinct names: the list is as long as the set it enumerates. */
  lemma {:induction false} DistinctLength(keys: seq<string>)
    requires forall i, j :: 0 <= i < j < |keys| ==> keys[i] != keys[j]
    ensures |set name | name in keys| == |keys|
    decreases |keys|
  {
    if |keys| > 0 {
      var rest := keys[1..];
      assert forall i :: 0 <= i < |rest| ==> rest[i] == keys[i + 1];
      DistinctLength(rest);
      assert keys[0] !in rest;
      assert (set name | name in keys) == {keys[0]} + (set name | name in rest);
    }
  }

  /** Counting over an enumeration of the map's names counts the map. */
  lemma EnumerationCounts(m: map<string, Scenario>, keys: seq<string>)
    requires forall i, j :: 0 <= i < j < |keys| ==> keys[i] != keys[j]
    requires forall name :: name in m <==> name in keys
    ensures |keys| == |m|
    ensures CountCompleted(m, keys) == |CompletedNames(m)|
  {
    DistinctLength(keys);
    assert (set name | name in keys) == m.Keys;
    CountCompletedIsCardinality(m, keys);
    assert CompletedAmong(m, keys) == CompletedNames(m);
  }

  /** The share of completed scenarios as a percentage, computed exactly. */
  function Percent(completed: nat, total: nat): (p: Option<real>)
    ensures p.Some? <==> 0 < total
    ensures p.Some? ==> p.value * total as real == completed as real * 100.0
    ensures p.Some? && completed <= total ==> 0.0 <= p.value <= 100.0
  {
    if total == 0 then None
    else Some((completed as real / total as real) * 100.0)
  }

  /** Whole minutes elapsed since the workshop started, rounded down. */
  function MinutesSince(start: int, now: int): (minutes: int)
    ensures minutes * 60000 <= now - start < (minutes + 1) * 60000
  {
    (now - start) / 60000
  }

  /**
   * The overview figures for the state `s` at time `now`, counting over the
   * names `keys` in `Object.keys` order: every name counts toward the total,
   * including names no built-in scenario has.
   */
  function Overview(s: Session, keys: seq<string>, now: int): (r: Stats)
    requires forall i, j :: 0 <= i < j < |keys| ==> keys[i] != keys[j]
    requires forall name :: name in s.scenarios <==> name in keys
    ensures r.totalScenarios == |s.scenarios|
    ensures r.completedScenarios == |CompletedNames(s.scenarios)|
    ensures r.completedScenarios <= r.totalScenarios
    ensures r.percent == Percent(r.completedScenarios, r.totalScenarios)
    ensures r.minutes == MinutesSince(s.workshopStartTime, now)
  {
    var total := |keys|;
    var completed := CountCompleted(s.scenarios, keys);
    assert total == |s.scenarios| && completed == |CompletedNames(s.scenarios)| by {
      EnumerationCounts(s.scenarios, keys);
    }
    Stats(total, completed, Percent(completed, total), MinutesSince(s.workshopStartTime, now))
  }

  /** Five scenarios of which two are completed give an overall 40 percent. */
  lemma TwoOfFiveIsForty(s: Session, keys: seq<string>, now: int)
    requires forall i, j :: 0 <= i < j < |keys| ==> keys[i] != keys[j]
    requires forall name :: name in s.scenarios <==> name in keys
    requires |s.scenarios| == 5 && |CompletedNames(s.scenarios)| == 2
    ensures Overview(s, keys, now).percent == Some(40.0)
  {
  }
}
