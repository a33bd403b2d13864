/**
 * The recommendation search: over a number of trials, draw a combination of
 * products, drop it if its summed sugar or sodium exceeds the remaining
 * limit, score the rest by how far their macro-nutrient totals are from the
 * needs, and keep the best-scoring combination (lowest score; ties keep the
 * earlier one).
 *
 * The random draw is an oracle: `draws[t]` is the set of catalog rows sampled
 * in trial `t`, in sampled order.  Nutrient amounts are exact reals.
 */
module RecommendationSearch {
  import opened Wrappers
  import opened Dicts

  /** A catalog row: its name, precomputed nutrition score and per-serving nutrients. */
  datatype Product = Product(name: string, nutritionScore: real,
                             energy: real, protein: real, fat: real, carbohydrate: real,
                             fiber: real, sugar: real, sodium: real)

  type Catalog = seq<Product>

  /** The nutrient columns of the catalog. */
  datatype Column = Energy | Protein | Fat | Carbohydrate | Fiber | Sugar | Sodium

  function Amount(p: Product, c: Column): real {
    match c
    case Energy => p.energy
    case Protein => p.protein
    case Fat => p.fat
    case Carbohydrate => p.carbohydrate
    case Fiber => p.fiber
    case Sugar => p.sugar
    case Sodium => p.sodium
  }

  /** `combo[column].sum()` */
  function Total(rows: seq<Product>, c: Column): real {
    if rows == [] then 0.0 else Amount(rows[0], c) + Total(rows[1..], c)
  }

  /** Keys of the needs dictionary the search reads. */
  const SugarLimitKey: string := "sugar_g"
  const SodiumLimitKey: string := "sodium_mg"
  const MacroKeys: seq<(string, Column)> :=
    [("energy_kal", Energy), ("protein_g", Protein), ("fat_g", Fat),
     ("carbohydrate_g", Carbohydrate), ("fiber_g", Fiber)]

  /** `total > limit`; an absent limit (`float('inf')`) is never exceeded. */
  predicate Exceeds(total: real, limit: Option<real>) {
    limit.Some? && total > limit.value
  }

  /** The hard constraint: the combination's sugar or sodium is over its limit. */
  predicate Rejected(rows: seq<Product>, needs: Dict) {
    Exceeds(Total(rows, Sugar), Lookup(needs, SugarLimitKey)) ||
    Exceeds(Total(rows, Sodium), Lookup(needs, SodiumLimitKey))
  }

  function Abs(x: real): real {
    if x < 0.0 then -x else x
  }

  /** Relative error of the total of `c` against the need `need`. */
  function RelativeError(rows: seq<Product>, c: Column, need: real): real
    requires need > 0.0
  {
    Abs(Total(rows, c) - need) / need
  }

  /** The `scores` list: one relative error per macro key (of `keys`) whose need is positive, in key order. */
  function MacroErrors(rows: seq<Product>, needs: Dict, keys: seq<(string, Column)>): seq<real> {
    if keys == [] then []
    else
      var last := keys[|keys| - 1];
      var need := Get(needs, last.0, 0.0);
      MacroErrors(rows, needs, keys[..|keys| - 1]) +
      (if need > 0.0 then [RelativeError(rows, last.1, need)] else [])
  }

  function Sum(xs: seq<real>): real {
    if xs == [] then 0.0 else xs[0] + Sum(xs[1..])
  }

  /** `np.mean(scores) if scores else 0` */
  function Mean(xs: seq<real>): real {
    if xs == [] then 0.0 else Sum(xs) / |xs| as real
  }

  /** `total / limit if limit > 0 else 0`; an absent limit gives 0 (`x / inf`). */
  function Pressure(total: real, limit: Option<real>): (p: real)
    ensures limit.None? ==> p == 0.0
    ensures total >= 0.0 ==> p >= 0.0
    ensures total == 0.0 ==> p == 0.0
    ensures limit.Some? && limit.value <= 0.0 ==> p == 0.0
  {
    if limit.Some? && limit.value > 0.0 then DivNonNegative(total, limit.value); total / limit.value else 0.0
  }

  /** Under a positive limit the pressure is the share of the limit the total uses. */
  lemma PressureIsShare(total: real, limit: Option<real>)
    requires limit.Some? && limit.value > 0.0
    ensures Pressure(total, limit) * limit.value == total
  {
  }

  lemma DivNonNegative(x: real, y: real)
    requires y > 0.0
    ensures x >= 0.0 ==> x / y >= 0.0
    ensures x == 0.0 ==> x / y == 0.0
  {
  }

  /** The composite score of a combination; lower is better. */
  function Score(rows: seq<Product>, needs: Dict): real {
    var macro := Mean(MacroErrors(rows, needs, MacroKeys));
    var limit := (Pressure(Total(rows, Sugar), Lookup(needs, SugarLimitKey)) +
                  Pressure(Total(rows, Sodium), Lookup(needs, SodiumLimitKey))) / 2.0;
    macro * 0.8 + limit * 0.2
  }

  // ---- combinations and the oracle ----

  predicate InRange(combo: seq<nat>, size: nat) {
    forall j :: 0 <= j < |combo| ==> combo[j] < size
  }

  /** The rows a combination selects, in its order. */
  function Rows(catalog: Catalog, combo: seq<nat>): (rows: seq<Product>)
    requires InRange(combo, |catalog|)
    ensures |rows| == |combo|
    ensures forall j :: 0 <= j < |combo| ==> rows[j] == catalog[combo[j]]
  {
    seq(|combo|, j requires 0 <= j < |combo| => catalog[combo[j]])
  }

  /** Every row of the catalog, in catalog order (`df` itself). */
  function WholeCatalog(size: nat): (combo: seq<nat>)
    ensures |combo| == size && InRange(combo, size)
    ensures forall j :: 0 <= j < size ==> combo[j] == j
  {
    seq(size, j requires 0 <= j < size => j)
  }

  /** A possible `df.sample(n=n)`: `n` distinct rows of a catalog of `size` rows. */
  predicate IsDraw(draw: seq<nat>, size: nat, n: nat) {
    |draw| == n && InRange(draw, size) &&
    forall a, b :: 0 <= a < b < |draw| ==> draw[a] != draw[b]
  }

  /** The oracle is only consulted when the catalog has at least `numProd` rows. */
  predicate ValidDraws(catalog: Catalog, numProd: nat, draws: seq<seq<nat>>) {
    |catalog| >= numProd ==> forall t :: 0 <= t < |draws| ==> IsDraw(draws[t], |catalog|, numProd)
  }

  /** The combination of trial `t`: the draw, or the whole catalog when it has fewer than `numProd` rows. */
  function Trial(catalog: Catalog, numProd: nat, draws: seq<seq<nat>>, t: nat): (combo: seq<nat>)
    requires ValidDraws(catalog, numProd, draws) && t < |draws|
    ensures InRange(combo, |catalog|)
  {
    if |catalog| >= numProd then draws[t] else WholeCatalog(|catalog|)
  }

  predicate Accepted(catalog: Catalog, needs: Dict, numProd: nat, draws: seq<seq<nat>>, t: nat)
    requires ValidDraws(catalog, numProd, draws) && t < |draws|
  {
    !Rejected(Rows(catalog, Trial(catalog, numProd, draws, t)), needs)
  }

  function TrialScore(catalog: Catalog, needs: Dict, numProd: nat, draws: seq<seq<nat>>, t: nat): real
    requires ValidDraws(catalog, numProd, draws) && t < |draws|
  {
    Score(Rows(catalog, Trial(catalog, numProd, draws, t)), needs)
  }

  // ---- the best-so-far specification ----

  /** A trial's combination and its score, `None` when the hard constraint rejected it. */
  datatype Outcome = Outcome(combo: seq<nat>, score: Option<real>)

  /** The outcome of every trial, in trial order. */
  function Outcomes(catalog: Catalog, needs: Dict, numProd: nat, draws: seq<seq<nat>>): (os: seq<Outcome>)
    requires ValidDraws(catalog, numProd, draws)
    ensures |os| == |draws|
    ensures forall t :: 0 <= t < |draws| ==> os[t].combo == Trial(catalog, numProd, draws, t)
    ensures forall t :: 0 <= t < |draws| ==>
      os[t].score == if Accepted(catalog, needs, numProd, draws, t)
                     then Some(TrialScore(catalog, needs, numProd, draws, t)) else None
  {
    seq(|draws|, t requires 0 <= t < |draws| =>
      Outcome(Trial(catalog, numProd, draws, t),
              if Accepted(catalog, needs, numProd, draws, t)
              then Some(TrialScore(catalog, needs, numProd, draws, t)) else None))
  }

  datatype Best = Best(combo: seq<nat>, score: real)

  /**
   * `best_combo` and `best_score` after the first `n` trials: a scored trial
   * replaces the best only with a strictly smaller score; `None` stands for
   * the initial `None` / `float('inf')`.
   */
  function BestAfter(outcomes: seq<Outcome>, n: nat): Option<Best>
    requires n <= |outcomes|
  {
    if n == 0 then None
    else
      var previous := BestAfter(outcomes, n - 1);
      match outcomes[n - 1].score
      case None => previous
      case Some(s) =>
        if previous.None? || s < previous.value.score
        then Some(Best(outcomes[n - 1].combo, s))
        else previous
  }

  /** What `generate_recommendations` returns: the best combination over all trials. */
  function Search(catalog: Catalog, needs: Dict, numProd: nat, draws: seq<seq<nat>>): Option<seq<nat>>
    requires ValidDraws(catalog, numProd, draws)
  {
    var outcomes := Outcomes(catalog, needs, numProd, draws);
    match BestAfter(outcomes, |outcomes|)
    case Some(b) => Some(b.combo)
    case None => None
  }

  /**
   * Trial `t` of the first `n` was scored, scores no worse than any scored
   * trial, and strictly better than every scored trial before it.
   */
  ghost predicate FirstMinimal(outcomes: seq<Outcome>, t: nat, n: nat) {
    t < n <= |outcomes| && outcomes[t].score.Some? &&
    (forall u :: 0 <= u < n && outcomes[u].score.Some? ==> outcomes[t].score.value <= outcomes[u].score.value) &&
    (forall u :: 0 <= u < t && outcomes[u].score.Some? ==> outcomes[t].score.value < outcomes[u].score.value)
  }

  // ---- the program ----

  /** The `scores` loop: relative errors of the macro totals whose need is positive. */
  method MacroScores(rows: seq<Product>, needs: Dict) returns (scores: seq<real>)
    ensures scores == MacroErrors(rows, needs, MacroKeys)
  {
    scores := [];
    for j := 0 to |MacroKeys|
      invariant scores == MacroErrors(rows, needs, MacroKeys[..j])
    {
      assert MacroKeys[..j + 1][..j] == MacroKeys[..j];
      var (key, column) := MacroKeys[j];
      var need := Get(needs, key, 0.0);
      if need > 0.0 {
        scores := scores + [RelativeError(rows, column, need)];
      }
    }
    assert MacroKeys[..|MacroKeys|] == MacroKeys;
  }

  /** One trial's body: `None` when the combination breaks a limit (`continue`), else its score. */
  method ScoreCombination(rows: seq<Product>, needs: Dict, sugarLimit: Option<real>, sodiumLimit: Option<real>)
    returns (score: Option<real>)
    requires sugarLimit == Lookup(needs, SugarLimitKey) && sodiumLimit == Lookup(needs, SodiumLimitKey)
    ensures score.None? <==> Rejected(rows, needs)
    ensures score.Some? ==> score.value == Score(rows, needs)
  {
    var sugar := Total(rows, Sugar);
    var sodium := Total(rows, Sodium);
    if Exceeds(sugar, sugarLimit) || Exceeds(sodium, sodiumLimit) {
      return None;
    }
    var scores := MacroScores(rows, needs);
    var macro := Mean(scores);
    var limit := (Pressure(sugar, sugarLimit) + Pressure(sodium, sodiumLimit)) / 2.0;
    var totalScore := macro * 0.8 + limit * 0.2;
    return Some(totalScore);
  }

  /**
   * `generate_recommendations`: `iters` trials, each one drawn by the oracle.
   * It returns `None` exactly when every trial broke the sugar/sodium limit
   * (in particular when there are no trials); otherwise the combination of
   * the first trial whose score is minimal among the accepted ones.
   */
  method GenerateRecommendations(catalog: Catalog, needs: Dict, numProd: nat, iters: nat, draws: seq<seq<nat>>)
    returns (best: Option<seq<nat>>)
    requires |draws| == iters && ValidDraws(catalog, numProd, draws)
    ensures best == Search(catalog, needs, numProd, draws)
    ensures best.None? <==> forall t :: 0 <= t < iters ==> !Accepted(catalog, needs, numProd, draws, t)
    ensures best.Some? ==>
      exists t :: FirstMinimal(Outcomes(catalog, needs, numProd, draws), t, iters) &&
        best.value == Trial(catalog, numProd, draws, t)
    ensures best.Some? ==> InRange(best.value, |catalog|) && !Rejected(Rows(catalog, best.value), needs)
    ensures best.Some? && |catalog| < numProd ==> best.value == WholeCatalog(|catalog|)
  {
    ghost var outcomes := Outcomes(catalog, needs, numProd, draws);
    var bestCombo: Option<seq<nat>> := None;
    var bestScore: Option<real> := None;  // None stands for float('inf')
    var sugarLimit := Lookup(needs, SugarLimitKey);
    var sodiumLimit := Lookup(needs, SodiumLimitKey);
    for t := 0 to iters
      invariant bestCombo.None? == bestScore.None?
      invariant BestAfter(outcomes, t) ==
        if bestCombo.None? then None else Some(Best(bestCombo.value, bestScore.value))
    {
      var combo := if |catalog| >= numProd then draws[t] else WholeCatalog(|catalog|);
      assert combo == outcomes[t].combo;
      var score := ScoreCombination(Rows(catalog, combo), needs, sugarLimit, sodiumLimit);
      assert score == outcomes[t].score;
      if score.Some? && (bestScore.None? || score.value < bestScore.value) {
        bestScore, bestCombo := score, Some(combo);
      }
    }
    best := bestCombo;
    assert best == Search(catalog, needs, numProd, draws);
    SearchIsFirstMinimal(catalog, needs, numProd, draws);
  }

  // ---- what the search promises ----

  /** After `n` trials there is no best combination exactly when none of the `n` was scored. */
  lemma {:induction false} BestAfterNoneIff(outcomes: seq<Outcome>, n: nat)
    requires n <= |outcomes|
    ensures BestAfter(outcomes, n).None? <==> forall t :: 0 <= t < n ==> outcomes[t].score.None?
  {
    if n > 0 {
      BestAfterNoneIff(outcomes, n - 1);
    }
  }

  /**
   * The best after `n` trials is the combination and score of the first
   * trial reaching the minimal score among the scored ones: a later tie
   * never replaces it.
   */
  lemma {:induction false} BestAfterIsFirstMinimal(outcomes: seq<Outcome>, n: nat) returns (t: nat)
    requires n <= |outcomes| && BestAfter(outcomes, n).Some?
    ensures FirstMinimal(outcomes, t, n)
    ensures BestAfter(outcomes, n) == Some(Best(outcomes[t].combo, outcomes[t].score.value))
  {
    var previous := BestAfter(outcomes, n - 1);
    match outcomes[n - 1].score
    case None =>
      t := BestAfterIsFirstMinimal(outcomes, n - 1);
    case Some(s) =>
      if previous.None? {
        BestAfterNoneIff(outcomes, n - 1);
        t := n - 1;
      } else if s < previous.value.score {
        var u := BestAfterIsFirstMinimal(outcomes, n - 1);
        t := n - 1;
      } else {
        t := BestAfterIsFirstMinimal(outcomes, n - 1);
      }
  }

  /** The search over all trials: `None` exactly when no trial was accepted, else the first minimal trial's combination. */
  lemma SearchIsFirstMinimal(catalog: Catalog, needs: Dict, numProd: nat, draws: seq<seq<nat>>)
    requires ValidDraws(catalog, numProd, draws)
    ensures Search(catalog, needs, numProd, draws).None? <==>
      forall t :: 0 <= t < |draws| ==> !Accepted(catalog, needs, numProd, draws, t)
    ensures Search(catalog, needs, numProd, draws).Some? ==>
      exists t :: FirstMinimal(Outcomes(catalog, needs, numProd, draws), t, |draws|) &&
        Search(catalog, needs, numProd, draws).value == Trial(catalog, numProd, draws, t)
  {
    var outcomes := Outcomes(catalog, needs, numProd, draws);
    BestAfterNoneIff(outcomes, |draws|);
    if Search(catalog, needs, numProd, draws).Some? {
      var t := BestAfterIsFirstMinimal(outcomes, |draws|);
    }
  }

  /**
   * A returned combination respects both limits that are present, and when
   * the catalog is smaller than the combination size it is the whole catalog.
   */
  lemma SearchRespectsLimits(catalog: Catalog, needs: Dict, numProd: nat, draws: seq<seq<nat>>)
    requires ValidDraws(catalog, numProd, draws)
    requires Search(catalog, needs, numProd, draws).Some?
    ensures var combo := Search(catalog, needs, numProd, draws).value;
      InRange(combo, |catalog|) &&
      (SugarLimitKey in Keys(needs) ==> Total(Rows(catalog, combo), Sugar) <= Get(needs, SugarLimitKey, 0.0)) &&
      (SodiumLimitKey in Keys(needs) ==> Total(Rows(catalog, combo), Sodium) <= Get(needs, SodiumLimitKey, 0.0)) &&
      (|catalog| < numProd ==> combo == WholeCatalog(|catalog|))
  {
    SearchIsFirstMinimal(catalog, needs, numProd, draws);
  }

  /** Without a sugar or sodium limit nothing is rejected: any trial at all yields a combination. */
  lemma SearchWithoutLimitsFindsOne(catalog: Catalog, needs: Dict, numProd: nat, draws: seq<seq<nat>>)
    requires ValidDraws(catalog, numProd, draws)
    requires SugarLimitKey !in Keys(needs) && SodiumLimitKey !in Keys(needs)
    ensures Search(catalog, needs, numProd, draws).None? <==> |draws| == 0
  {
    SearchIsFirstMinimal(catalog, needs, numProd, draws);
    if |draws| > 0 {
      assert Accepted(catalog, needs, numProd, draws, 0);
    }
  }

  // ---- the score ----

  lemma {:induction false} TotalNonNegative(rows: seq<Product>, c: Column)
    requires forall j :: 0 <= j < |rows| ==> Amount(rows[j], c) >= 0.0
    ensures Total(rows, c) >= 0.0
  {
    if rows != [] {
      TotalNonNegative(rows[1..], c);
    }
  }

  lemma {:induction false} MacroErrorsNonNegative(rows: seq<Product>, needs: Dict, keys: seq<(string, Column)>)
    ensures forall j :: 0 <= j < |MacroErrors(rows, needs, keys)| ==> MacroErrors(rows, needs, keys)[j] >= 0.0
  {
    if keys != [] {
      var init, last := keys[..|keys| - 1], keys[|keys| - 1];
      var need := Get(needs, last.0, 0.0);
      MacroErrorsNonNegative(rows, needs, init);
      if need > 0.0 {
        DivNonNegative(Abs(Total(rows, last.1) - need), need);
        assert MacroErrors(rows, needs, keys) == MacroErrors(rows, needs, init) + [RelativeError(rows, last.1, need)];
      } else {
        assert MacroErrors(rows, needs, keys) == MacroErrors(rows, needs, init);
      }
    }
  }

  lemma {:induction false} SumNonNegative(xs: seq<real>)
    requires forall j :: 0 <= j < |xs| ==> xs[j] >= 0.0
    ensures Sum(xs) >= 0.0
  {
    if xs != [] {
      SumNonNegative(xs[1..]);
    }
  }

  lemma {:induction false} SumZero(xs: seq<real>)
    requires forall j :: 0 <= j < |xs| ==> xs[j] == 0.0
    ensures Sum(xs) == 0.0
  {
    if xs != [] {
      SumZero(xs[1..]);
    }
  }

  /** When the sugar and sodium totals are not negative, no score is negative. */
  lemma ScoreNonNegative(rows: seq<Product>, needs: Dict)
    requires Total(rows, Sugar) >= 0.0 && Total(rows, Sodium) >= 0.0
    ensures Score(rows, needs) >= 0.0
  {
    var errors := MacroErrors(rows, needs, MacroKeys);
    MacroErrorsNonNegative(rows, needs, MacroKeys);
    SumNonNegative(errors);
    if errors != [] {
      DivNonNegative(Sum(errors), |errors| as real);
    }
    var macro := Mean(errors);
    var limit := (Pressure(Total(rows, Sugar), Lookup(needs, SugarLimitKey)) +
                  Pressure(Total(rows, Sodium), Lookup(needs, SodiumLimitKey))) / 2.0;
    assert macro >= 0.0 && limit >= 0.0;
  }

  /** Every macro total with a positive need hits it exactly. */
  ghost predicate MeetsMacroNeeds(rows: seq<Product>, needs: Dict, keys: seq<(string, Column)>) {
    forall j :: 0 <= j < |keys| && Get(needs, keys[j].0, 0.0) > 0.0 ==> Total(rows, keys[j].1) == Get(needs, keys[j].0, 0.0)
  }

  lemma {:induction false} MacroErrorsZero(rows: seq<Product>, needs: Dict, keys: seq<(string, Column)>)
    requires MeetsMacroNeeds(rows, needs, keys)
    ensures forall j :: 0 <= j < |MacroErrors(rows, needs, keys)| ==> MacroErrors(rows, needs, keys)[j] == 0.0
  {
    if keys != [] {
      var init := keys[..|keys| - 1];
      assert MeetsMacroNeeds(rows, needs, init) by {
        forall j | 0 <= j < |init| && Get(needs, init[j].0, 0.0) > 0.0
          ensures Total(rows, init[j].1) == Get(needs, init[j].0, 0.0)
        {
          assert init[j] == keys[j];
        }
      }
      MacroErrorsZero(rows, needs, init);
      var last := keys[|keys| - 1];
      var need := Get(needs, last.0, 0.0);
      if need > 0.0 {
        assert keys[|keys| - 1] == last;
        DivNonNegative(Abs(Total(rows, last.1) - need), need);
        assert MacroErrors(rows, needs, keys) == MacroErrors(rows, needs, init) + [RelativeError(rows, last.1, need)];
      } else {
        assert MacroErrors(rows, needs, keys) == MacroErrors(rows, needs, init);
      }
    }
  }

  /**
   * A combination whose macro totals equal every positive need and which has
   * no sugar and no sodium scores 0, the best score possible.
   */
  lemma PerfectCombinationScoresZero(rows: seq<Product>, needs: Dict)
    requires MeetsMacroNeeds(rows, needs, MacroKeys)
    requires Total(rows, Sugar) == 0.0 && Total(rows, Sodium) == 0.0
    ensures Score(rows, needs) == 0.0
  {
    var errors := MacroErrors(rows, needs, MacroKeys);
    MacroErrorsZero(rows, needs, MacroKeys);
    SumZero(errors);
    if errors != [] {
      DivNonNegative(Sum(errors), |errors| as real);
    }
    assert Mean(errors) == 0.0;
  }

  /** With no positive macro need the macro error is 0 and only the sugar/sodium pressure counts. */
  lemma NoMacroNeedsOnlyPressure(rows: seq<Product>, needs: Dict)
    requires forall j :: 0 <= j < |MacroKeys| ==> Get(needs, MacroKeys[j].0, 0.0) <= 0.0
    ensures Score(rows, needs) ==
      (Pressure(Total(rows, Sugar), Lookup(needs, SugarLimitKey)) +
       Pressure(Total(rows, Sodium), Lookup(needs, SodiumLimitKey))) / 2.0 * 0.2
  {
    assert MacroErrors(rows, needs, MacroKeys) == [] by {
      MacroErrorsNoNeed(rows, needs, MacroKeys);
    }
  }

  lemma {:induction false} MacroErrorsNoNeed(rows: seq<Product>, needs: Dict, keys: seq<(string, Column)>)
    requires forall j :: 0 <= j < |keys| ==> Get(needs, keys[j].0, 0.0) <= 0.0
    ensures MacroErrors(rows, needs, keys) == []
  {
    if keys != [] {
      var init := keys[..|keys| - 1];
      assert forall j :: 0 <= j < |init| ==> init[j] == keys[j];
      MacroErrorsNoNeed(rows, needs, init);
    }
  }

  /**
   * Over a catalog without negative sugar or sodium, once an accepted trial
   * scores 0 the search returns a combination scoring 0, drawn no later than
   * that trial: a perfect combination is never displaced.
   */
  lemma PerfectTrialKept(catalog: Catalog, needs: Dict, numProd: nat, draws: seq<seq<nat>>, t: nat)
    requires ValidDraws(catalog, numProd, draws) && t < |draws|
    requires forall p :: p in catalog ==> p.sugar >= 0.0 && p.sodium >= 0.0
    requires Accepted(catalog, needs, numProd, draws, t) && TrialScore(catalog, needs, numProd, draws, t) == 0.0
    ensures Search(catalog, needs, numProd, draws).Some?
    ensures exists t0 ::
      0 <= t0 <= t &&
      Search(catalog, needs, numProd, draws).value == Trial(catalog, numProd, draws, t0) &&
      TrialScore(catalog, needs, numProd, draws, t0) == 0.0
  {
    var outcomes := Outcomes(catalog, needs, numProd, draws);
    assert outcomes[t].score == Some(0.0);
    BestAfterNoneIff(outcomes, |draws|);
    var t0 := BestAfterIsFirstMinimal(outcomes, |draws|);
    TrialScoreNonNegative(catalog, needs, numProd, draws, t0);
    assert outcomes[t0].score.value <= 0.0;
    assert t0 <= t;
  }

  lemma TrialScoreNonNegative(catalog: Catalog, needs: Dict, numProd: nat, draws: seq<seq<nat>>, t: nat)
    requires ValidDraws(catalog, numProd, draws) && t < |draws|
    requires forall p :: p in catalog ==> p.sugar >= 0.0 && p.sodium >= 0.0
    ensures TrialScore(catalog, needs, numProd, draws, t) >= 0.0
  {
    var rows := Rows(catalog, Trial(catalog, numProd, draws, t));
    assert forall j :: 0 <= j < |rows| ==> rows[j] in catalog;
    TotalNonNegative(rows, Sugar);
    TotalNonNegative(rows, Sodium);
    ScoreNonNegative(rows, needs);
  }
}
