/**
 * The tracker's state transitions: the simulated status check, the guarded
 * start, the status request and the periodic re-check of running scenarios.
 * Each returns the new state together with its side effects: the record
 * written to storage, if any, and the suggested command shown, if any.
 */
module Tracker {
  import opened Wrappers
  import opened Scenarios
  import opened Draws
  import opened Commands
  import opened Persistence

  datatype Effect = Effect(session: Session, written: Option<Data>, command: Option<string>)

  /** The effect of a call that does nothing. */
  function NoOp(s: Session): (e: Effect)
  {
    Effect(s, None, None)
  }

  /**
   * One record's update by `checkScenarioStatus`: the drawn status replaces
   * the old one; a drawn `running` stamps an unset start time and draws new
   * progress below the total; a drawn `completed` fills the progress.
   */
  function CheckEntry(sc: Scenario, d: Draw, now: int): (r: Scenario)
    requires d.Valid()
    ensures r.status == DrawStatus(d.statusRoll)
    ensures r.total == sc.total
    ensures r.status == Completed ==> r.completed == sc.total
    ensures r.status == Running ==> r.completed == Pick(d.progressRoll, sc.total)
    ensures r.status == Running && 0 < sc.total ==> 0 <= r.completed < sc.total
    ensures r.status == Pending || r.status == Failed ==> r.completed == sc.completed
    ensures IsSet(sc.startTime) ==> r.startTime == sc.startTime
    ensures r.startTime != sc.startTime <==> r.status == Running && !IsSet(sc.startTime) && sc.startTime != Some(now)
    ensures r.startTime != sc.startTime ==> r.startTime == Some(now)
  {
    var status := DrawStatus(d.statusRoll);
    var startTime := if status == Running && !IsSet(sc.startTime) then Some(now) else sc.startTime;
    var completed :=
      if status == Completed then sc.total
      else if status == Running then Pick(d.progressRoll, sc.total)
      else sc.completed;
    Scenario(sc.total, completed, status, startTime)
  }

  /** Every progress value below a positive total is the outcome of some running draw. */
  lemma CheckEntryReachesEveryProgress(sc: Scenario, k: int, now: int)
    requires 0 <= k < sc.total
    ensures exists d: Draw :: d.Valid() && CheckEntry(sc, d, now).status == Running && CheckEntry(sc, d, now).completed == k
  {
    PickReachesEvery(4, 1);
    PickReachesEvery(sc.total, k);
    var d := Draw(1 as real / 4 as real, k as real / sc.total as real);
    assert DrawStatus(d.statusRoll) == Running;
    assert CheckEntry(sc, d, now).completed == k;
  }

  /** A check keeps a record consistent, whatever is drawn. */
  lemma CheckEntryPreservesConsistency(sc: Scenario, d: Draw, now: int)
    requires d.Valid()
    requires Consistent(sc)
    ensures Consistent(CheckEntry(sc, d, now))
  {
  }

  /**
   * `checkScenarioStatus`: an unknown name is a no-op; a known name has its
   * record updated by the draw, nothing else changes, and the new state is saved.
   */
  function CheckScenarioStatus(s: Session, name: string, d: Draw, now: int): (e: Effect)
    requires d.Valid()
    ensures name !in s.scenarios ==> e == NoOp(s)
    ensures e.session.scenarios.Keys == s.scenarios.Keys
    ensures e.session.workshopStartTime == s.workshopStartTime
    ensures forall other :: other in s.scenarios && other != name ==>
              e.session.scenarios[other] == s.scenarios[other]
    ensures name in s.scenarios ==>
              && e.session.scenarios[name] == CheckEntry(s.scenarios[name], d, now)
              && e.written == Some(Save(e.session, now))
    ensures e.command == None
  {
    if name !in s.scenarios then NoOp(s)
    else
      var next := s.(scenarios := s.scenarios[name := CheckEntry(s.scenarios[name], d, now)]);
      Effect(next, Some(Save(next, now)), None)
  }

  /** Checks keep every record consistent. */
  lemma CheckPreservesConsistency(s: Session, name: string, d: Draw, now: int)
    requires d.Valid()
    requires AllConsistent(s.scenarios)
    ensures AllConsistent(CheckScenarioStatus(s, name, d, now).session.scenarios)
  {
    if name in s.scenarios {
      CheckEntryPreservesConsistency(s.scenarios[name], d, now);
    }
  }

  /**
   * `startScenario`: only a pending scenario starts; it becomes running with
   * the start time overwritten by `now`, progress untouched, the state saved
   * and the run command shown. Anything else is a no-op.
   */
  function StartScenario(s: Session, name: string, now: int): (e: Effect)
    ensures !(name in s.scenarios && s.scenarios[name].status == Pending) ==> e == NoOp(s)
    ensures name in s.scenarios && s.scenarios[name].status == Pending ==>
              var sc := s.scenarios[name];
              && e.session.scenarios == s.scenarios[name := Scenario(sc.total, sc.completed, Running, Some(now))]
              && e.session.workshopStartTime == s.workshopStartTime
              && e.written == Some(Save(e.session, now))
              && e.command == Some(RunCommand(name))
  {
    if name in s.scenarios && s.scenarios[name].status == Pending then
      var next := s.(scenarios := s.scenarios[name := s.scenarios[name].(status := Running, startTime := Some(now))]);
      Effect(next, Some(Save(next, now)), Some(RunCommand(name)))
    else NoOp(s)
  }

  /** Starting twice changes state only the first time, and the first start time survives. */
  lemma StartTwice(s: Session, name: string, first: int, second: int)
    ensures var e1 := StartScenario(s, name, first);
            var e2 := StartScenario(e1.session, name, second);
            && e2 == NoOp(e1.session)
            && (name in s.scenarios && s.scenarios[name].status == Pending ==>
                  e1.session.scenarios[name].status == Running
                  && e2.session.scenarios[name].startTime == Some(first))
  {
  }

  /** Starting keeps every record consistent. */
  lemma StartPreservesConsistency(s: Session, name: string, now: int)
    requires AllConsistent(s.scenarios)
    ensures AllConsistent(StartScenario(s, name, now).session.scenarios)
  {
  }

  /** `checkStatus`: a check, and the status command shown even for an unknown name. */
  function CheckStatus(s: Session, name: string, d: Draw, now: int): (e: Effect)
    requires d.Valid()
    ensures e.command == Some(StatusCommand(name))
    ensures e.session == CheckScenarioStatus(s, name, d, now).session
    ensures e.written == CheckScenarioStatus(s, name, d, now).written
    ensures name in s.scenarios ==> e.written == Some(Save(e.session, now))
    ensures name !in s.scenarios ==> e.session == s && e.written == None
  {
    CheckScenarioStatus(s, name, d, now).(command := Some(StatusCommand(name)))
  }

  /** `keys` lists each scenario name exactly once, as `Object.keys` does. */
  ghost predicate Enumerates(m: map<string, Scenario>, keys: seq<string>) {
    && (forall i, j :: 0 <= i < j < |keys| ==> keys[i] != keys[j])
    && (forall name :: name in m <==> name in keys)
  }

  predicate ValidDraws(draws: seq<Draw>) {
    forall i :: 0 <= i < |draws| ==> draws[i].Valid()
  }

  /** One record's fate in a tick: re-checked with its draw when running, otherwise kept. */
  function TickEntry(sc: Scenario, d: Draw, now: int): (r: Scenario)
    requires d.Valid()
  {
    if sc.status == Running then CheckEntry(sc, d, now) else sc
  }

  /** The tick's loop over the names in order, `draws[i]` serving `keys[i]`. */
  function TickFrom(m: map<string, Scenario>, keys: seq<string>, draws: seq<Draw>, now: int): (r: map<string, Scenario>)
    requires |draws| == |keys| && ValidDraws(draws)
    ensures r.Keys == m.Keys
    decreases |keys|
  {
    if |keys| == 0 then m
    else
      assert ValidDraws(draws[1..]) by { ValidDrawsTail(draws); }
      var name := keys[0];
      var m' := if name in m && m[name].status == Running then m[name := CheckEntry(m[name], draws[0], now)] else m;
      TickFrom(m', keys[1..], draws[1..], now)
  }

  /** Drawing from the tail of the draws keeps them valid. */
  lemma ValidDrawsTail(draws: seq<Draw>)
    requires |draws| > 0 && ValidDraws(draws)
    ensures ValidDraws(draws[1..])
  {
    forall i | 0 <= i < |draws[1..]| ensures draws[1..][i].Valid() {
      assert draws[1..][i] == draws[i + 1];
    }
  }

  /** The loop leaves records whose names it does not visit alone. */
  lemma {:induction false} TickFromUntouched(m: map<string, Scenario>, keys: seq<string>, draws: seq<Draw>, now: int, other: string)
    requires |draws| == |keys| && ValidDraws(draws)
    requires other in m && other !in keys
    ensures other in TickFrom(m, keys, draws, now)
    ensures TickFrom(m, keys, draws, now)[other] == m[other]
    decreases |keys|
  {
    if |keys| > 0 {
      ValidDrawsTail(draws);
      var name := keys[0];
      var m' := if name in m && m[name].status == Running then m[name := CheckEntry(m[name], draws[0], now)] else m;
      assert other in keys[1..] ==> other in keys;
      TickFromUntouched(m', keys[1..], draws[1..], now, other);
    }
  }

  /**
   * The loop re-checks each listed running record once with its own draw and
   * leaves each listed non-running record alone, provided the names are distinct.
   */
  lemma {:induction false} TickFromPointwise(m: map<string, Scenario>, keys: seq<string>, draws: seq<Draw>, now: int)
    requires |draws| == |keys| && ValidDraws(draws)
    requires forall i, j :: 0 <= i < j < |keys| ==> keys[i] != keys[j]
    ensures forall i :: 0 <= i < |keys| && keys[i] in m ==>
              keys[i] in TickFrom(m, keys, draws, now) &&
              TickFrom(m, keys, draws, now)[keys[i]] == TickEntry(m[keys[i]], draws[i], now)
    decreases |keys|
  {
    if |keys| > 0 {
      ValidDrawsTail(draws);
      var name := keys[0];
      var m' := if name in m && m[name].status == Running then m[name := CheckEntry(m[name], draws[0], now)] else m;
      var rest := keys[1..];
      TickFromPointwise(m', rest, draws[1..], now);
      var r := TickFrom(m, keys, draws, now);
      assert r == TickFrom(m', rest, draws[1..], now);
      assert name !in rest by {
        forall j | 0 <= j < |rest| ensures rest[j] != name {
          assert rest[j] == keys[j + 1];
        }
      }
      forall i | 0 <= i < |keys| && keys[i] in m
        ensures keys[i] in r && r[keys[i]] == TickEntry(m[keys[i]], draws[i], now)
      {
        if i == 0 {
          TickFromUntouched(m', rest, draws[1..], now, name);
        } else {
          assert keys[i] == rest[i - 1] && draws[i] == draws[1..][i - 1];
          assert keys[i] != name;
        }
      }
    }
  }

  /**
   * The 10-second tick: every running scenario is re-checked with its own
   * draw, every other scenario is untouched, and the final state is saved
   * when at least one scenario was running.
   */
  function Tick(s: Session, keys: seq<string>, draws: seq<Draw>, now: int): (e: Effect)
    requires Enumerates(s.scenarios, keys)
    requires |draws| == |keys| && ValidDraws(draws)
    ensures e.session.scenarios.Keys == s.scenarios.Keys
    ensures e.session.workshopStartTime == s.workshopStartTime
    ensures forall i :: 0 <= i < |keys| ==>
              e.session.scenarios[keys[i]] == TickEntry(s.scenarios[keys[i]], draws[i], now)
    ensures forall name :: name in s.scenarios && s.scenarios[name].status != Running ==>
              e.session.scenarios[name] == s.scenarios[name]
    ensures e.written.Some? <==> exists name :: name in s.scenarios && s.scenarios[name].status == Running
    ensures e.written.Some? ==> e.written == Some(Save(e.session, now))
    ensures e.command == None
  {
    TickFromPointwise(s.scenarios, keys, draws, now);
    var next := s.(scenarios := TickFrom(s.scenarios, keys, draws, now));
    var anyRunning := exists name :: name in s.scenarios && s.scenarios[name].status == Running;
    assert forall name :: name in s.scenarios && s.scenarios[name].status != Running ==>
             next.scenarios[name] == s.scenarios[name] by {
      forall name | name in s.scenarios && s.scenarios[name].status != Running
        ensures next.scenarios[name] == s.scenarios[name]
      {
        var i :| 0 <= i < |keys| && keys[i] == name;
      }
    }
    Effect(next, if anyRunning then Some(Save(next, now)) else None, None)
  }

  /** A tick keeps every record consistent. */
  lemma TickPreservesConsistency(s: Session, keys: seq<string>, draws: seq<Draw>, now: int)
    requires Enumerates(s.scenarios, keys)
    requires |draws| == |keys| && ValidDraws(draws)
    requires AllConsistent(s.scenarios)
    ensures AllConsistent(Tick(s, keys, draws, now).session.scenarios)
  {
    var r := Tick(s, keys, draws, now).session.scenarios;
    forall name | name in r ensures Consistent(r[name]) {
      var i :| 0 <= i < |keys| && keys[i] == name;
      if s.scenarios[name].status == Running {
        CheckEntryPreservesConsistency(s.scenarios[name], draws[i], now);
      }
    }
  }
}
