/**
 * The percentage of src/components/Result.jsx:
 * `Math.round(((score || 0) / (total || 1)) * 100)` with the default props
 * `score = 0` and `total = 1`, in exact integer arithmetic.
 */
module ResultView {
  import opened Wrappers

  const DefaultScore: nat := 0
  const DefaultTotal: nat := 1

  /** The numerator: the prop, or its default when it is missing. */
  function ScoreOperand(score: Option<nat>): (s: nat)
    ensures score.Some? ==> s == score.value
    ensures score.None? ==> s == 0
  {
    if score.Some? then score.value else DefaultScore
  }

  /** The denominator: the prop, or its default when it is missing, and 1 in
      place of 0 (`total || 1`). */
  function TotalOperand(total: Option<nat>): (t: nat)
    ensures t >= 1
    ensures total.Some? && total.value > 0 ==> t == total.value
    ensures total.None? || total.value == 0 ==> t == 1
  {
    var given := if total.Some? then total.value else DefaultTotal;
    if given == 0 then 1 else given
  }

  /** The rounded percentage: the integer nearest to 100·s/t, halves rounded
      up as `Math.round` rounds them. */
  function Percent(score: Option<nat>, total: Option<nat>): (p: nat)
    ensures var s, t := ScoreOperand(score), TotalOperand(total);
      2 * t * p <= 200 * s + t < 2 * t * (p + 1)
  {
    var s, t := ScoreOperand(score), TotalOperand(total);
    DivBounds(200 * s + t, 2 * t);
    (200 * s + t) / (2 * t)
  }

  lemma DivBounds(a: nat, b: nat)
    requires b > 0
    ensures b * (a / b) <= a < b * (a / b + 1)
  {
  }

  /** When t > 0, m·t < n·t means m < n. */
  lemma CancelFactor(m: int, n: int, t: int)
    requires t > 0 && m * t < n * t
    ensures m < n
  {
  }

  /** The percentage grows with the score. */
  lemma PercentMonotone(s1: nat, s2: nat, total: Option<nat>)
    requires s1 <= s2
    ensures Percent(Some(s1), total) <= Percent(Some(s2), total)
  {
    var t := TotalOperand(total);
    var p1, p2 := Percent(Some(s1), total), Percent(Some(s2), total);
    assert 2 * t * p1 <= 200 * s1 + t <= 200 * s2 + t < 2 * t * (p2 + 1);
    assert p1 * (2 * t) < (p2 + 1) * (2 * t);
    CancelFactor(p1, p2 + 1, 2 * t);
  }

  /** A score of zero gives 0, and a full score gives 100. */
  lemma PercentEnds(total: nat)
    ensures Percent(Some(0), Some(total)) == 0
    ensures total > 0 ==> Percent(Some(total), Some(total)) == 100
  {
    var t := TotalOperand(Some(total));
    var p0 := Percent(Some(0), Some(total));
    assert p0 * (2 * t) < 1 * (2 * t);
    CancelFactor(p0, 1, 2 * t);
    if total > 0 {
      var p := Percent(Some(total), Some(total));
      assert p * (2 * t) < 101 * (2 * t);
      assert 99 * (2 * t) < (p + 1) * (2 * t);
      CancelFactor(p, 101, 2 * t);
      CancelFactor(99, p + 1, 2 * t);
    }
  }

  /** For a score within the total, the percentage lies in [0, 100]. */
  lemma PercentRange(score: nat, total: nat)
    requires score <= total
    ensures 0 <= Percent(Some(score), Some(total)) <= 100
  {
    if total > 0 {
      PercentMonotone(score, total, Some(total));
      PercentEnds(total);
    } else {
      PercentEnds(0);
    }
  }

  /** A total of 0 counts as 1, so the score itself is the fraction. */
  lemma ZeroTotalCountsAsOne(score: Option<nat>)
    ensures Percent(score, Some(0)) == Percent(score, Some(1)) == Percent(score, None)
    ensures Percent(score, Some(0)) == 100 * ScoreOperand(score)
  {
    var s := ScoreOperand(score);
    var p := Percent(score, Some(0));
    assert 2 * p < 2 * 100 * s + 2 && 200 * s < 2 * p + 2;
  }

  /** With the default props the card shows 0%. */
  lemma DefaultPropsShowZero()
    ensures Percent(None, None) == 0
  {
  }

  /** Two right answers out of three show as 67%. */
  lemma TwoOfThree()
    ensures Percent(Some(2), Some(3)) == 67
  {
  }
}
