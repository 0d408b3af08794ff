/**
 * Saving to and loading from the `workshop-progress` storage entry.
 * JSON text is not modelled: a stored entry is either missing (or the empty,
 * falsy string), unparseable, or a parsed object whose fields may be absent.
 */
module Persistence {
  import opened Wrappers
  import opened Scenarios

  /** The stored object `{scenarios, workshopStartTime, lastUpdated}`; an absent field is `None`. */
  datatype Data = Data(
    scenarios: Option<map<string, Scenario>>,
    workshopStartTime: Option<int>,
    lastUpdated: Option<int>)

  /** What reading the storage entry yields. */
  datatype Stored = Missing | Malformed | Parsed(data: Data)

  /** The scenarios an object spread of the saved field contributes: none when the field is absent. */
  function SavedScenarios(data: Data): (m: map<string, Scenario>) {
    if data.scenarios.Some? then data.scenarios.value else map[]
  }

  /**
   * The record `saveProgress` writes at time `now`: every field present, the
   * scenario map and start time as held, and `now` as the update time.
   */
  function Save(s: Session, now: int): (d: Data)
    ensures d.scenarios == Some(s.scenarios)
    ensures d.workshopStartTime == Some(s.workshopStartTime)
    ensures d.lastUpdated == Some(now)
  {
    Data(Some(s.scenarios), Some(s.workshopStartTime), Some(now))
  }

  /**
   * `loadProgress`: saved scenario entries replace same-named entries whole
   * (a shallow object spread), unknown names are added, and a falsy saved
   * start time falls back to `now`. A missing or unparseable entry changes nothing.
   */
  function Load(s: Session, stored: Stored, now: int): (r: Session)
    ensures !stored.Parsed? ==> r == s
    ensures stored.Parsed? ==>
      var saved := SavedScenarios(stored.data);
      && r.scenarios.Keys == s.scenarios.Keys + saved.Keys
      && (forall name :: name in saved ==> r.scenarios[name] == saved[name])
      && (forall name :: name in s.scenarios && name !in saved ==> r.scenarios[name] == s.scenarios[name])
    ensures stored.Parsed? ==>
      r.workshopStartTime == (if IsSet(stored.data.workshopStartTime) then stored.data.workshopStartTime.value else now)
  {
    match stored
    case Missing => s
    case Malformed => s
    case Parsed(data) =>
      var startTime := if IsSet(data.workshopStartTime) then data.workshopStartTime.value else now;
      Session(s.scenarios + SavedScenarios(data), startTime)
  }

  /** Construction followed by `loadProgress`, as the tracker's initialisation does it. */
  function Init(now: int, stored: Stored): (r: Session)
    ensures DefaultNames <= r.scenarios.Keys
  {
    Load(NewSession(now), stored, now)
  }

  /** A missing or unparseable entry yields exactly the five defaults and the current time. */
  lemma InitWithoutSavedState(now: int, stored: Stored)
    requires !stored.Parsed?
    ensures Init(now, stored).scenarios == DefaultScenarios
    ensures Init(now, stored).workshopStartTime == now
  {
  }

  /**
   * Merge-on-load: a built-in scenario the saved object does not mention
   * keeps its constructor default, and every saved entry is taken as saved.
   */
  lemma InitMerge(now: int, data: Data, name: string)
    ensures var r := Init(now, Parsed(data)).scenarios;
            var saved := SavedScenarios(data);
            && (name in DefaultNames && name !in saved ==>
                  name in r && r[name] == Scenario(DefaultTotal(name), 0, Pending, None))
            && (name in saved ==> name in r && r[name] == saved[name])
            && (name in r <==> name in DefaultNames || name in saved)
  {
  }

  /**
   * Saved names that are not built in survive loading, so the map then holds
   * more than the five built-in scenarios.
   */
  lemma InitKeepsUnknownNames(now: int, data: Data, name: string)
    requires data.scenarios.Some? && name in data.scenarios.value
    requires name !in DefaultNames
    ensures 5 < |Init(now, Parsed(data)).scenarios|
  {
    var keys := Init(now, Parsed(data)).scenarios.Keys;
    assert DefaultNames + {name} <= keys;
    assert |DefaultNames + {name}| == 6;
    SubsetCardinality(DefaultNames + {name}, keys);
  }

  lemma {:induction false} SubsetCardinality<T>(a: set<T>, b: set<T>)
    requires a <= b
    ensures |a| <= |b|
    decreases |a|
  {
    if a != {} {
      var x :| x in a;
      SubsetCardinality(a - {x}, b - {x});
    }
  }

  /**
   * Save then load onto a freshly constructed tracker reproduces the saved
   * scenarios and start time, provided the map holds every built-in name and
   * the start time is not the falsy `0`.
   */
  lemma SaveLoadRoundTrip(s: Session, saveTime: int, loadTime: int)
    requires DefaultNames <= s.scenarios.Keys
    requires s.workshopStartTime != 0
    ensures Init(loadTime, Parsed(Save(s, saveTime))) == s
  {
    var r := Init(loadTime, Parsed(Save(s, saveTime)));
    assert r.scenarios == s.scenarios;
  }

  /** With a zero start time the round trip loses it: the load time takes its place. */
  lemma SaveLoadZeroStartTime(s: Session, saveTime: int, loadTime: int)
    requires s.workshopStartTime == 0
    ensures Init(loadTime, Parsed(Save(s, saveTime))).workshopStartTime == loadTime
  {
  }

  /** Loading keeps every record consistent when the saved records are. */
  lemma LoadPreservesConsistency(s: Session, stored: Stored, now: int)
    requires AllConsistent(s.scenarios)
    requires stored.Parsed? && stored.data.scenarios.Some? ==> AllConsistent(stored.data.scenarios.value)
    ensures AllConsistent(Load(s, stored, now).scenarios)
  {
  }
}
