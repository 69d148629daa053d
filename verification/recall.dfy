/**
  The SuperMemo SM-2 recall update of srs.go.

  The ease factor is an exact `real`; every coefficient of the rule is a
  multiple of 0.01, so in this model no rounding is involved; the
  source computes it in single precision.
 */
module Recall {

  /** The floor below which the ease factor is never set. */
  const MinEf: real := 1.3

  /** The smallest grade that counts as a correct recall. */
  const PassingGrade: nat := 3

  /** The least integer not below `x`. */
  function Ceil(x: real): (r: int)
    ensures x <= r as real < x + 1.0
  {
    -((-x).Floor)
  }

  /** SM-2's ease-factor adjustment for grade `q`, before the floor is applied. */
  function EfDelta(q: nat): real
  {
    -0.8 + 0.28 * q as real - 0.02 * (q * q) as real
  }

  /** The statistics `RecalculateItem` returns: recall count, interval in days and ease factor. */
  datatype Stats = Stats(recalls: nat, interval: nat, ef: real)

  /**
    The SM-2 update for grade `q`. Go converts `ceil(interval * ef)` to an
    unsigned integer, which it leaves implementation-dependent for a negative
    value; the requires excludes exactly that case.
   */
  function RecalculateItem(q: nat, recalls: nat, interval: nat, ef: real): (r: Stats)
    requires q >= PassingGrade && recalls >= 2 ==> interval as real * ef > -1.0
    // failure: the schedule restarts, the ease factor is kept
    ensures q < PassingGrade ==> r == Stats(0, 1, ef)
    // success: one more recall and an interval of 1, 6, then ceil(interval * old ef)
    ensures q >= PassingGrade ==> r.recalls == recalls + 1
    ensures q >= PassingGrade && recalls == 0 ==> r.interval == 1
    ensures q >= PassingGrade && recalls == 1 ==> r.interval == 6
    ensures q >= PassingGrade && recalls >= 2 ==>
      interval as real * ef <= r.interval as real < interval as real * ef + 1.0
    // success: the new ease factor is the larger of the floor and the adjusted old one
    ensures q >= PassingGrade ==> r.ef >= MinEf && r.ef >= ef + EfDelta(q)
    ensures q >= PassingGrade ==> r.ef == MinEf || r.ef == ef + EfDelta(q)
    // the three grades of a correct recall
    ensures q == 3 ==> r.ef == (if ef - 0.14 < MinEf then MinEf else ef - 0.14)
    ensures q == 4 && ef >= MinEf ==> r.ef == ef
    ensures q == 5 ==> r.ef == (if ef + 0.1 < MinEf then MinEf else ef + 0.1)
  {
    if q >= PassingGrade then
      var interval' :=
        if recalls == 0 then 1
        else if recalls == 1 then 6
        else Ceil(interval as real * ef);
      var ef' := ef + EfDelta(q);
      Stats(recalls + 1, interval', if ef' < MinEf then MinEf else ef')
    else
      Stats(0, 1, ef)
  }

  /** The statistics of a card after a series of graded recalls, applied in order. */
  function Replay(s: Stats, grades: seq<nat>): Stats
    requires s.ef >= 0.0
    decreases |grades|
  {
    if |grades| == 0 then s
    else
      assert s.interval as real * s.ef >= 0.0 by { NonNegativeProduct(s.interval as real, s.ef); }
      Replay(RecalculateItem(grades[0], s.recalls, s.interval, s.ef), grades[1..])
  }

  lemma NonNegativeProduct(a: real, b: real)
    requires a >= 0.0 && b >= 0.0
    ensures a * b >= 0.0
  {
  }

  /** Once at or above the floor, the ease factor stays there whatever grades follow. */
  lemma {:induction false} EfStaysAboveFloor(s: Stats, grades: seq<nat>)
    requires s.ef >= MinEf
    ensures Replay(s, grades).ef >= MinEf
    decreases |grades|
  {
    if |grades| > 0 {
      var s' := RecalculateItem(grades[0], s.recalls, s.interval, s.ef);
      assert s'.ef >= MinEf;
      EfStaysAboveFloor(s', grades[1..]);
    }
  }

  /** From the third correct recall on, the interval never shrinks while ef >= 1. */
  lemma IntervalGrowsOnSuccess(q: nat, recalls: nat, interval: nat, ef: real)
    requires q >= PassingGrade && recalls >= 2 && ef >= 1.0
    ensures RecalculateItem(q, recalls, interval, ef).interval >= interval
  {
    var n := interval as real;
    assert n * ef - n == n * (ef - 1.0);
    assert n * (ef - 1.0) >= 0.0 by {
      assert n >= 0.0 && ef - 1.0 >= 0.0;
    }
  }

  /**
    A failed recall followed by a correct one restarts the schedule: the
    result is that of a first correct recall of a new card with the same
    ease factor, one recall and a one-day interval, with the ease factor
    adjusted once and clamped at the floor.
   */
  lemma FailureRestartsSchedule(q1: nat, q2: nat, recalls: nat, interval: nat, ef: real)
    requires q1 < PassingGrade <= q2
    ensures var f := RecalculateItem(q1, recalls, interval, ef);
            RecalculateItem(q2, f.recalls, f.interval, f.ef) == RecalculateItem(q2, 0, 0, ef)
    ensures var f := RecalculateItem(q1, recalls, interval, ef);
            var adjusted := ef + EfDelta(q2);
            RecalculateItem(q2, f.recalls, f.interval, f.ef) ==
              Stats(1, 1, if adjusted < MinEf then MinEf else adjusted)
  {
  }

  /** A new card (0 recalls, ef 2.5, interval 0) recalled with grade 4 gets 1 recall, 1 day and ef 2.5. */
  lemma NewCardGradeFour()
    ensures RecalculateItem(4, 0, 0, 2.5) == Stats(1, 1, 2.5)
  {
  }

  /** Three perfect recalls of a new card give intervals 1, 6 and ceil(6 * 2.7) = 17 days. */
  lemma ThreePerfectRecalls()
    ensures Replay(Stats(0, 0, 2.5), [5]) == Stats(1, 1, 2.6)
    ensures Replay(Stats(0, 0, 2.5), [5, 5]) == Stats(2, 6, 2.7)
    ensures Replay(Stats(0, 0, 2.5), [5, 5, 5]) == Stats(3, 17, 2.8)
  {
    assert [5, 5][1..] == [5];
    assert [5, 5, 5][1..] == [5, 5];
    assert Ceil(6.0 * 2.7) == 17;
  }
}
