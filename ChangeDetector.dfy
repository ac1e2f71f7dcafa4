/**
 * Change detection between two consecutive periodic captures.
 *
 * The camera agent compares the byte size of the new JPEG capture with the
 * size of the previous one (the baseline). The relative change is
 * |1 - current / previous|, defined as 0 when there is no baseline, and a
 * periodic capture is uploaded and analysed only when that change is
 * strictly above the threshold. Sizes are exact naturals and the ratio is
 * an exact real.
 */
module ChangeDetector {

  /** Relative size change above which a periodic capture is analysed. */
  const ChangeThreshold: real := 0.005

  function Abs(x: real): (r: real)
    ensures r >= 0.0 && (r == x || r == -x)
  {
    if x < 0.0 then -x else x
  }

  /** Distance between two sizes, as a natural. */
  function Distance(a: nat, b: nat): (d: nat)
    ensures a + d == b || b + d == a
  {
    if a <= b then b - a else a - b
  }

  /**
   * The relative change of `current` against the baseline `previous`.
   * With a baseline it is the distance between the two sizes measured in
   * units of the baseline; without one (previous == 0) it is 0.
   */
  function SizeChange(previous: nat, current: nat): (r: real)
    ensures r >= 0.0
    ensures previous == 0 ==> r == 0.0
    ensures previous > 0 ==> r * previous as real == Distance(previous, current) as real
  {
    if previous > 0 then
      var p, c := previous as real, current as real;
      var q := 1.0 - c / p;
      assert q * p == p - c;
      assert Abs(q) * p == Abs(p - c);
      Abs(q)
    else
      0.0
  }

  /**
   * With a baseline, the change is above the threshold exactly when
   * 200 times the distance between the sizes exceeds the baseline.
   */
  lemma SizeChangeAboveThreshold(previous: nat, current: nat)
    requires previous > 0
    ensures SizeChange(previous, current) > ChangeThreshold
        <==> 200 * Distance(previous, current) > previous
  {
    var p, d := previous as real, Distance(previous, current) as real;
    RatioAboveThreshold(SizeChange(previous, current), p, d);
    assert (200 * Distance(previous, current)) as real == 200.0 * d;
  }

  /** A ratio r = d / p (p positive) exceeds the threshold iff 200 d exceeds p. */
  lemma RatioAboveThreshold(r: real, p: real, d: real)
    requires p > 0.0 && r * p == d
    ensures r > ChangeThreshold <==> 200.0 * d > p
  {
    if r > ChangeThreshold {
      assert (r - ChangeThreshold) * p > 0.0;
    } else {
      assert (ChangeThreshold - r) * p >= 0.0;
    }
  }

  /**
   * Whether a periodic capture of size `current`, taken with the baseline
   * `previous`, is uploaded and analysed: never without a baseline, and with
   * one exactly when the sizes differ by more than half a percent of the
   * baseline (strictly).
   */
  function Triggers(previous: nat, current: nat): (b: bool)
    ensures b <==> previous > 0 && 200 * Distance(previous, current) > previous
  {
    if previous > 0 then SizeChangeAboveThreshold(previous, current); SizeChange(previous, current) > ChangeThreshold
    else SizeChange(previous, current) > ChangeThreshold
  }

  /** Identical sizes never trigger, and a size that doubles always does (given a baseline). */
  lemma TriggerBoundaries(previous: nat, current: nat)
    ensures current == previous ==> !Triggers(previous, current)
    ensures previous > 0 && current >= 2 * previous ==> Triggers(previous, current)
  {
  }

  /**
   * Sample size pairs: 1000 -> 1003 and 1000 -> 996 stay below the
   * threshold, 1000 -> 1005 sits on it and does not trigger (the comparison
   * is strict), 1000 -> 1006, 1000 -> 994 and 1000 -> 1200 are above it, and
   * without a baseline nothing triggers.
   */
  lemma TriggerExamples()
    ensures !Triggers(1000, 1003)
    ensures !Triggers(1000, 1005)
    ensures Triggers(1000, 1006)
    ensures Triggers(1000, 1200)
    ensures !Triggers(1000, 996)
    ensures Triggers(1000, 994)
    ensures !Triggers(0, 1000000)
  {
  }
}
