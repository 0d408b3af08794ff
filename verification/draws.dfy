/**
 * The tracker's random draws. Each call of the random-number source becomes a
 * roll `u` with `0 <= u < 1` supplied by the caller; scaling a roll by `n` and
 * rounding down becomes `Pick(u, n)`.
 */
module Draws {
  import opened Scenarios

  predicate IsRoll(u: real) {
    0.0 <= u < 1.0
  }

  /** The two rolls one scenario check may consume: the status roll, then the progress roll. */
  datatype Draw = Draw(statusRoll: real, progressRoll: real) {
    predicate Valid() {
      IsRoll(statusRoll) && IsRoll(progressRoll)
    }
  }

  /** The roll scaled by `n` and rounded down: a uniform index below a positive `n`. */
  function Pick(u: real, n: int): (i: int)
    requires IsRoll(u)
    ensures i as real <= u * n as real < i as real + 1.0
    ensures 0 < n ==> 0 <= i < n
    ensures n == 0 ==> i == 0
  {
    assert 0 < n ==> u * n as real < n as real by {
      if 0 < n {
        assert (1.0 - u) * n as real > 0.0;
      }
    }
    (u * n as real).Floor
  }

  /** Every index below `n` is produced by some roll: `Pick` misses no outcome. */
  lemma PickReachesEvery(n: int, i: int)
    requires 0 <= i < n
    ensures IsRoll(i as real / n as real)
    ensures Pick(i as real / n as real, n) == i
  {
    var u := i as real / n as real;
    assert u * n as real == i as real;
    assert (1.0 - u) * n as real == n as real - i as real;
    if 1.0 - u <= 0.0 {
      NonPositiveTimesPositive(1.0 - u, n as real);
    }
  }

  lemma NonPositiveTimesPositive(a: real, b: real)
    requires a <= 0.0 < b
    ensures a * b <= 0.0
  {
  }

  /** The four statuses in the order the check lists them. */
  const StatusList: seq<Status> := [Pending, Running, Completed, Failed]

  /**
   * The status a roll selects: the list is cut into four equal quarters of
   * the unit interval, and the quarter holding the roll names the status.
   */
  function DrawStatus(u: real): (st: Status)
    requires IsRoll(u)
    ensures forall k :: 0 <= k < |StatusList| ==>
              (st == StatusList[k] <==> k as real / 4.0 <= u < (k + 1) as real / 4.0)
  {
    StatusList[Pick(u, |StatusList|)]
  }

  /** Each of the four statuses can be drawn. */
  lemma DrawStatusReachesEvery(st: Status)
    ensures exists u :: IsRoll(u) && DrawStatus(u) == st
  {
    var i := if st == Pending then 0 else if st == Running then 1 else if st == Completed then 2 else 3;
    PickReachesEvery(4, i);
    assert DrawStatus(i as real / 4.0) == st;
  }
}
