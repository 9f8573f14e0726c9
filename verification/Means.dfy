/** Running means: the exact arithmetic behind the scores of an event, one new value at a time. */
module Means {
  import opened Events

  lemma IntProduct(a: int, b: int)
    ensures (a * b) as real == a as real * b as real
  {
  }

  lemma IntTotal(a: int, n: int, b: int)
    ensures (n * a + b) as real == a as real * n as real + b as real
  {
    IntProduct(n, a);
  }

  lemma ScaleUp(a: real, b: real, m: real)
    requires m >= 0.0 && a <= b
    ensures a * m <= b * m
  {
  }

  lemma ScaleDown(a: real, b: real, m: real)
    requires m > 0.0 && a * m <= b * m
    ensures a <= b
  {
  }

  lemma ScaleDownStrict(a: real, b: real, m: real)
    requires m > 0.0 && a * m < b * m
    ensures a < b
  {
  }

  lemma DivideBack(a: real, m: real)
    requires m > 0.0
    ensures (a / m) * m == a
  {
  }

  /** The total behind a running mean grows by the new value. */
  lemma MeanTotal(mean: real, n: nat, added: real)
    ensures RunningMean(mean, n, added) * (n + 1) as real == mean * n as real + added
  {
    DivideBack(mean * n as real + added, (n + 1) as real);
  }

  lemma TotalAbove(r: real, mean: real, x: real, added: real, lo: real)
    requires x >= 0.0 && r * (x + 1.0) == mean * x + added
    requires lo <= mean && lo <= added
    ensures lo <= r
  {
    ScaleUp(lo, mean, x);
    assert lo * (x + 1.0) == lo * x + lo;
    ScaleDown(lo, r, x + 1.0);
  }

  lemma TotalBelow(r: real, mean: real, x: real, added: real, hi: real)
    requires x >= 0.0 && r * (x + 1.0) == mean * x + added
    requires mean <= hi && added <= hi
    ensures r <= hi
  {
    ScaleUp(mean, hi, x);
    assert hi * (x + 1.0) == hi * x + hi;
    ScaleDown(r, hi, x + 1.0);
  }

  /** The mean lies between the old mean and the new value. */
  lemma MeanBetween(mean: real, n: nat, added: real, lo: real, hi: real)
    requires lo <= mean <= hi && lo <= added <= hi
    ensures lo <= RunningMean(mean, n, added) <= hi
  {
    MeanTotal(mean, n, added);
    var r, x := RunningMean(mean, n, added), n as real;
    assert r * (x + 1.0) == mean * x + added;
    TotalAbove(r, mean, x, added, lo);
    TotalBelow(r, mean, x, added, hi);
  }

  /** Rounding moves a value by half a point at most, and not past an integer. */
  lemma RoundIs(r: real, lo: int, hi: int)
    requires lo as real <= r <= hi as real && lo >= 0
    ensures lo <= Round(r) <= hi
    ensures r - 0.5 <= Round(r) as real <= r + 0.5
  {
  }

  lemma HalfBelow(s: real, r: real, m: real, total: real)
    requires m > 0.0 && r - 0.5 <= s && r * m == total
    ensures total - 0.5 * m <= s * m
  {
    ScaleUp(r - 0.5, s, m);
    assert (r - 0.5) * m == r * m - 0.5 * m;
  }

  lemma HalfAbove(s: real, r: real, m: real, total: real)
    requires m > 0.0 && s <= r + 0.5 && r * m == total
    ensures s * m <= total + 0.5 * m
  {
    ScaleUp(s, r + 0.5, m);
    assert (r + 0.5) * m == r * m + 0.5 * m;
  }

  /** The error of a rounded mean, scaled back to totals. */
  lemma RoundedTotal(s: int, r: real, m: int, total: int)
    requires m > 0 && r * m as real == total as real
    requires r - 0.5 <= s as real <= r + 0.5
    ensures -m <= 2 * (s * m - total) <= m
  {
    HalfBelow(s as real, r, m as real, total as real);
    HalfAbove(s as real, r, m as real, total as real);
    IntProduct(s, m);
  }

  /** One re-rounded mean: it stays between its inputs and is off by at most half a point. */
  lemma StrengthStep(strength: int, n: nat, added: int)
    requires 0 <= strength <= 100 && 0 <= added <= 100
    ensures var s := MergedStrength(strength, n, added);
            && (strength <= s <= added || added <= s <= strength)
            && s == Round(RunningMean(strength as real, n, added as real))
            && -(n + 1) <= 2 * (s * (n + 1) - (n * strength + added)) <= n + 1
  {
    hide RunningMean, Round;
    var lo, hi := if strength < added then strength else added, if strength < added then added else strength;
    var r := RunningMean(strength as real, n, added as real);
    MeanBetween(strength as real, n, added as real, lo as real, hi as real);
    RoundIs(r, lo, hi);
    MeanTotal(strength as real, n, added as real);
    IntTotal(strength, n, added);
    RoundedTotal(Round(r), r, n + 1, n * strength + added);
  }

  /** How far a re-rounded mean of `n` values can be from their total: half a point per merge. */
  ghost predicate Drift(n: nat, s: int, sum: int) {
    -((n - 1) * (n + 2)) <= 4 * (n * s - sum) <= (n - 1) * (n + 2)
  }

  lemma DriftStep(n: nat, s: int, strength: int, added: int, sum: int)
    requires n >= 1 && Drift(n, strength, sum)
    requires -(n + 1) <= 2 * (s * (n + 1) - (n * strength + added)) <= n + 1
    ensures Drift(n + 1, s, sum + added)
  {
    assert (n - 1) * (n + 2) == n * n + n - 2;
    assert (n + 1 - 1) * (n + 1 + 2) == n * n + 3 * n;
  }

  /** The same step, on given new values. */
  lemma DriftStepTo(n: nat, s: int, strength: int, added: int, sum: int, newN: nat, newSum: int)
    requires n >= 1 && Drift(n, strength, sum) && newN == n + 1 && newSum == sum + added
    requires -(n + 1) <= 2 * (s * (n + 1) - (n * strength + added)) <= n + 1
    ensures Drift(newN, s, newSum)
  {
    DriftStep(n, s, strength, added, sum);
  }

  /** What the confidence of an event of `n` articles keeps to, `sum` being their total. */
  ghost predicate ConfidenceFits(c: real, n: nat, sum: real) {
    && 0.0 <= c <= 1.0
    && 0.0 <= sum <= n as real
    && (n == 1 ==> c == sum)
    && (n >= 2 ==> c >= 0.02 && sum <= c * n as real <= sum + 0.02 * n as real)
  }

  lemma ScaleDownTotals(a: real, b: real, m: real, at: real, bt: real)
    requires m > 0.0 && a * m == at && b * m == bt && at <= bt
    ensures a <= b
  {
    ScaleDown(a, b, m);
  }

  /** The same bound, on the mean instead of the total. */
  lemma MeanWithin(c: real, m: real, sum: real, mean: real, total: real)
    requires m > 0.0 && c * m == total && mean * m == sum
    requires sum <= total <= sum + 0.02 * m
    ensures mean <= c <= mean + 0.02
  {
    ScaleDownTotals(mean, c, m, sum, total);
    assert (mean + 0.02) * m == mean * m + 0.02 * m;
    ScaleDownTotals(c, mean + 0.02, m, total, sum + 0.02 * m);
  }

  /** The confidence is the mean, or above it by at most one bonus. */
  ghost predicate OneBonusAtMost(c: real, n: nat, sum: real)
    requires n > 0
  {
    var mean := sum / n as real;
    mean <= c <= 1.0 && c <= mean + 0.02
  }

  lemma FitsOneBonus(c: real, n: nat, sum: real)
    requires n >= 2 && ConfidenceFits(c, n, sum)
    ensures OneBonusAtMost(c, n, sum)
  {
    var m := n as real;
    DivideBack(sum, m);
    MeanWithin(c, m, sum, sum / m, c * m);
  }

  /** The whole bonus is on top of the mean. */
  ghost predicate FullBonus(c: real, n: nat, sum: real) {
    c * n as real == sum + 0.02 * n as real
  }

  /** The old mean without its bonus, as a total. */
  lemma BaseTotal(c: real, n: nat, sum: real)
    requires n >= 1 && ConfidenceFits(c, n, sum)
    ensures var base := ClampReal(c - MultiSourceBonus(n), 0.0, 1.0);
            && 0.0 <= base <= 1.0
            && (n == 1 ==> base * n as real == sum)
            && (n >= 2 ==> base * n as real == c * n as real - 0.02 * n as real)
            && sum - (if n >= 2 then 0.02 * n as real else 0.0) <= base * n as real <= sum
  {
    var base := ClampReal(c - MultiSourceBonus(n), 0.0, 1.0);
    if n >= 2 {
      assert base == c - 0.02;
      assert (c - 0.02) * n as real == c * n as real - 0.02 * n as real;
    } else {
      assert base == c && c * 1.0 == c;
    }
  }

  /** Putting the bonus back: the total of the new confidence. */
  lemma BonusTotal(mean: real, m: real, total: real)
    requires m >= 1.0 && 0.0 <= mean <= 1.0 && mean * m == total
    ensures var c := ClampReal(mean + 0.02, 0.0, 1.0);
            && 0.02 <= c <= 1.0
            && (total + 0.02 * m <= m ==> c * m == total + 0.02 * m)
            && (total + 0.02 * m > m ==> c * m == m)
  {
    assert (mean + 0.02) * m == total + 0.02 * m;
    if total + 0.02 * m <= m {
      ScaleDown(mean + 0.02, 1.0, m);
    } else {
      ScaleDownStrict(1.0, mean + 0.02, m);
    }
  }

  /** The step in totals: `base` without the bonus before it, `total` with the bonus after it. */
  lemma BonusBack(x: real, base: real, sum: real, added: real, total: real, taken: real)
    requires 0.0 <= x && 0.0 <= sum <= x && 0.0 <= added <= 1.0
    requires 0.0 <= taken <= 0.02 * x && sum - taken <= base <= sum
    requires base + added + 0.02 * (x + 1.0) <= x + 1.0 ==> total == base + added + 0.02 * (x + 1.0)
    requires base + added + 0.02 * (x + 1.0) > x + 1.0 ==> total == x + 1.0
    ensures sum + added <= total <= sum + added + 0.02 * (x + 1.0)
    ensures total == sum + added + 0.02 * (x + 1.0) <==> sum + added <= 0.98 * (x + 1.0) && base == sum
  {
  }

  lemma MergedIs(c: real, n: nat, added: real)
    requires n >= 1
    ensures var base := ClampReal(c - MultiSourceBonus(n), 0.0, 1.0);
            MergedConfidence(c, n, added, n + 1) == ClampReal(RunningMean(base, n, added) + 0.02, 0.0, 1.0)
  {
  }

  lemma ConfidenceStep(c: real, n: nat, sum: real, added: real, newC: real, m: real)
    requires n >= 1 && ConfidenceFits(c, n, sum) && 0.0 <= added <= 1.0
    requires newC == MergedConfidence(c, n, added, n + 1) && m == (n + 1) as real
    ensures 0.02 <= newC <= 1.0 && sum + added <= newC * m <= sum + added + 0.02 * m
    ensures newC * m == sum + added + 0.02 * m
       <==> sum + added <= 0.98 * m && (n >= 2 ==> FullBonus(c, n, sum))
  {
    hide RunningMean, MergedConfidence, ClampReal, MultiSourceBonus;
    BaseTotal(c, n, sum);
    MergedIs(c, n, added);
    var base := ClampReal(c - MultiSourceBonus(n), 0.0, 1.0);
    var mean, x, taken := RunningMean(base, n, added), n as real, if n >= 2 then 0.02 * n as real else 0.0;
    MeanTotal(base, n, added);
    MeanBetween(base, n, added, 0.0, 1.0);
    BonusTotal(mean, m, base * x + added);
    BonusBack(x, base * x, sum, added, newC * m, taken);
  }

  /** One more value, for the confidence and for its bonus. */
  lemma ConfidenceStepTo(c: real, n: nat, sum: real, added: real, newC: real, newN: nat, newSum: real)
    requires n >= 1 && ConfidenceFits(c, n, sum) && 0.0 <= added <= 1.0
    requires newN == n + 1 && newSum == sum + added && newC == MergedConfidence(c, n, added, newN)
    ensures ConfidenceFits(newC, newN, newSum)
    ensures FullBonus(newC, newN, newSum) <==> Leaves(newN, newSum) && (n >= 2 ==> FullBonus(c, n, sum))
  {
    ConfidenceStep(c, n, sum, added, newC, newN as real);
  }

  /** The mean leaves room for the bonus. */
  ghost predicate Leaves(n: nat, sum: real) {
    sum <= 0.98 * n as real
  }
}
