/**
 * The health score of a day's intake: each nutrient's share of its daily
 * target, capped at 1, averaged over the seven nutrients and mapped to a
 * whole score from 1 to 10.
 */
module HealthScore {
  import opened Nutrients

  /** Seven amounts in argument order: either the consumed amounts or the daily targets. */
  datatype Amounts = Amounts(energi: real, protein: real, lemakTotal: real, karbohidrat: real,
                             serat: real, gula: real, garam: real)
  {
    function Of(n: Nutrient): real {
      match n
      case Energi => energi
      case Protein => protein
      case LemakTotal => lemakTotal
      case Karbohidrat => karbohidrat
      case Serat => serat
      case Gula => gula
      case Garam => garam
    }

    /** The same amounts with nutrient `n` set to `v`. */
    function With(n: Nutrient, v: real): (a: Amounts)
      ensures a.Of(n) == v
      ensures forall m :: m != n ==> a.Of(m) == Of(m)
    {
      match n
      case Energi => this.(energi := v)
      case Protein => this.(protein := v)
      case LemakTotal => this.(lemakTotal := v)
      case Karbohidrat => this.(karbohidrat := v)
      case Serat => this.(serat := v)
      case Gula => this.(gula := v)
      case Garam => this.(garam := v)
    }
  }

  function Min(a: real, b: real): real {
    if a <= b then a else b
  }

  /** `min(x / t, 1.0) if t else 1.0`: the share of the target reached, capped at 1. */
  function Ratio(x: real, t: real): (r: real)
    ensures r <= 1.0
    ensures t == 0.0 ==> r == 1.0
    ensures t > 0.0 ==> (r == 1.0 <==> x >= t)
    ensures t > 0.0 && x >= 0.0 ==> r >= 0.0
    ensures t > 0.0 && x == 0.0 ==> r == 0.0
  {
    if t != 0.0 then
      DivReachesOne(x, t);
      Min(x / t, 1.0)
    else 1.0
  }

  lemma DivReachesOne(x: real, t: real)
    requires t != 0.0
    ensures t > 0.0 ==> (x / t >= 1.0 <==> x >= t)
  {
    assert x / t * t == x;
  }

  function RatioOf(consumed: Amounts, targets: Amounts, n: Nutrient): real {
    Ratio(consumed.Of(n), targets.Of(n))
  }

  /** The mean of the seven ratios. */
  function AverageRatio(consumed: Amounts, targets: Amounts): real {
    (RatioOf(consumed, targets, Energi) + RatioOf(consumed, targets, Protein) +
     RatioOf(consumed, targets, LemakTotal) + RatioOf(consumed, targets, Karbohidrat) +
     RatioOf(consumed, targets, Serat) + RatioOf(consumed, targets, Gula) +
     RatioOf(consumed, targets, Garam)) / 7.0
  }

  /** Python's `int(x)` on a float: truncation toward zero. */
  function Trunc(x: real): (i: int)
    ensures x >= 0.0 ==> 0 <= i && i as real <= x < i as real + 1.0
    ensures x < 0.0 ==> i <= 0 && i as real - 1.0 < x <= i as real
  {
    if x >= 0.0 then x.Floor else -((-x).Floor)
  }

  /** `max(1, min(score, 10))`: a score from 1 to 10, unchanged when already in that range. */
  function Clamp(s: int): (r: int)
    ensures 1 <= r <= 10
    ensures 1 <= s <= 10 ==> r == s
  {
    if s < 1 then 1 else if s > 10 then 10 else s
  }

  /** `infer_health_score_custom`: always a whole score from 1 to 10. */
  function InferHealthScore(consumed: Amounts, targets: Amounts): (score: int)
    ensures 1 <= score <= 10
  {
    Clamp(Trunc(AverageRatio(consumed, targets) * 9.0) + 1)
  }

  // ---- properties ----

  lemma TruncMonotone(x: real, y: real)
    requires x <= y
    ensures Trunc(x) <= Trunc(y)
  {
  }

  /** The average never exceeds 1, and reaches 1 exactly when every ratio is 1. */
  lemma AverageAtMostOne(consumed: Amounts, targets: Amounts)
    ensures AverageRatio(consumed, targets) <= 1.0
    ensures AverageRatio(consumed, targets) == 1.0 <==> forall n :: RatioOf(consumed, targets, n) == 1.0
  {
    if AverageRatio(consumed, targets) == 1.0 {
      forall n ensures RatioOf(consumed, targets, n) == 1.0 {
        match n
        case Energi => case Protein => case LemakTotal => case Karbohidrat =>
        case Serat => case Gula => case Garam =>
      }
    }
  }

  /** Score 10 exactly when every nutrient has reached its target (or has no target). */
  lemma TopScoreIff(consumed: Amounts, targets: Amounts)
    ensures InferHealthScore(consumed, targets) == 10 <==> forall n :: RatioOf(consumed, targets, n) == 1.0
  {
    AverageAtMostOne(consumed, targets);
    var avg := AverageRatio(consumed, targets);
    if avg < 1.0 {
      assert avg * 9.0 < 9.0;
    }
  }

  /** The score is `k` exactly when the average lies in the `k`-th ninth of [0, 1]; 1 covers all below 1/9. */
  lemma ScoreBand(consumed: Amounts, targets: Amounts, k: int)
    requires 1 <= k <= 9
    ensures var avg := AverageRatio(consumed, targets);
      InferHealthScore(consumed, targets) == k <==>
        (k == 1 || (k - 1) as real / 9.0 <= avg) && avg < k as real / 9.0
  {
    var avg := AverageRatio(consumed, targets);
    var y := avg * 9.0;
    AverageAtMostOne(consumed, targets);
    if y >= 0.0 {
      assert Trunc(y) == k - 1 <==> (k - 1) as real <= y < k as real;
    }
  }

  /** Every target zero, or every consumed amount at or above its positive target: score 10. */
  lemma TargetsMetScoresTen(consumed: Amounts, targets: Amounts)
    requires forall n :: targets.Of(n) == 0.0 || (targets.Of(n) > 0.0 && consumed.Of(n) >= targets.Of(n))
    ensures InferHealthScore(consumed, targets) == 10
  {
    TopScoreIff(consumed, targets);
  }

  /** All targets positive and nothing consumed: score 1. */
  lemma NothingConsumedScoresOne(targets: Amounts)
    requires forall n :: targets.Of(n) > 0.0
    ensures InferHealthScore(Amounts(0.0, 0.0, 0.0, 0.0, 0.0, 0.0, 0.0), targets) == 1
  {
    var zero := Amounts(0.0, 0.0, 0.0, 0.0, 0.0, 0.0, 0.0);
    assert forall n :: RatioOf(zero, targets, n) == 0.0;
    assert AverageRatio(zero, targets) == 0.0;
  }

  lemma RatioMonotone(x: real, y: real, t: real)
    requires t > 0.0 && x <= y
    ensures Ratio(x, t) <= Ratio(y, t)
  {
    assert y / t - x / t == (y - x) / t;
  }

  lemma AverageMonotone(consumed: Amounts, more: Amounts, targets: Amounts)
    requires forall m :: RatioOf(consumed, targets, m) <= RatioOf(more, targets, m)
    ensures AverageRatio(consumed, targets) <= AverageRatio(more, targets)
  {
  }

  lemma RatiosMonotone(consumed: Amounts, targets: Amounts, n: Nutrient, v: real)
    requires targets.Of(n) > 0.0 && v >= consumed.Of(n)
    ensures forall m :: RatioOf(consumed, targets, m) <= RatioOf(consumed.With(n, v), targets, m)
  {
    var more := consumed.With(n, v);
    forall m ensures RatioOf(consumed, targets, m) <= RatioOf(more, targets, m) {
      if m == n {
        RatioMonotone(consumed.Of(n), v, targets.Of(n));
      } else {
        assert more.Of(m) == consumed.Of(m);
      }
    }
  }

  /** A higher average never gives a lower score. */
  lemma ScoreMonotoneInAverage(c1: Amounts, t1: Amounts, c2: Amounts, t2: Amounts)
    requires AverageRatio(c1, t1) <= AverageRatio(c2, t2)
    ensures InferHealthScore(c1, t1) <= InferHealthScore(c2, t2)
  {
    TruncMonotone(AverageRatio(c1, t1) * 9.0, AverageRatio(c2, t2) * 9.0);
  }

  /** Eating more of a nutrient with a positive target never lowers the score. */
  lemma ScoreMonotoneInConsumed(consumed: Amounts, targets: Amounts, n: Nutrient, v: real)
    requires targets.Of(n) > 0.0 && v >= consumed.Of(n)
    ensures InferHealthScore(consumed, targets) <= InferHealthScore(consumed.With(n, v), targets)
  {
    RatiosMonotone(consumed, targets, n, v);
    AverageMonotone(consumed, consumed.With(n, v), targets);
    ScoreMonotoneInAverage(consumed, targets, consumed.With(n, v), targets);
  }
}
