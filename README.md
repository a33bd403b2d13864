# Nutrition label extraction, health score and food recommendation — a Dafny model

This project models the computational core of a nutrition back-end. It has three parts.

- **Label extraction** (`utils/ocr_utils.py`, `extract_nutrition_json`). The input is the text lines that
  an OCR pass read off a nutrition label. The output is a map with the seven fixed nutrients
  (energi, protein, lemak total, karbohidrat, serat, gula, garam).
  - Each lower-cased line is searched for each nutrient's keywords.
  - A daily-value line is skipped for energy ("kebutuhan energi", "akg"). A saturated or trans fat line is
    skipped for total fat ("jenuh", "trans").
  - The value is the first numeric token in the keyword line or one of the next two lines. A comma
    separator becomes a dot. Lines with "jenuh" or "trans" are skipped in this window for total fat.
  - The last successful match of a nutrient wins, and a nutrient that is never matched stays 0.
- **Health score** (`utils/health_score_utils.py`, `infer_health_score_custom`).
  - Each nutrient's consumption is taken as a share of its target, capped at 1, and 1 when the target is 0.
  - The seven shares are averaged, scaled to 0..9 by truncation, shifted by one and clamped to 1..10.
- **Recommendation** (`utils/rekomendasi_utils.py`).
  - `calculate_remaining_needs` computes what is still needed of each target.
  - `rekomendasi_logic` normalises the consumed amounts to the target keys. It picks the "focus"
    nutrients: those with a positive target of which less than 80% was consumed.
  - It restricts the remaining needs to the focus nutrients and asks `generate_recommendations` for a
    three-product combination.
  - `generate_recommendations` runs a randomised search. It draws combinations, rejects those over the
    sugar or sodium limit, and scores the rest. The score is 0.8 × the mean relative macro-nutrient error
    plus 0.2 × the sugar/sodium pressure. It keeps the first combination with the lowest score.

Each procedure of the source is written in the same form as the source.
- Loops become methods with loop invariants. They are proved equal to a functional specification
  (`ExtractNutritionJson` = `Extract`, `GenerateRecommendations` = `Search`,
  `CalculateRemainingNeeds` = `RemainingNeeds`).
- The properties of the program are proved as lemmas about those specification functions.

Modelling choices:
- Python dictionaries with caller-chosen keys become `Dicts.Dict`. A `Dict` is an ordered list of entries
  whose keys are distinct, so insertion order (which fixes the order of the focus list) is kept.
- Numbers are exact reals. Python's `int()` on a float is `HealthScore.Trunc`, which truncates toward zero.
- `df.sample(n=num_prod)` is an oracle. `draws[t]` holds the catalog rows drawn in trial `t`: `numProd`
  distinct in-range indices.
- A missing sugar or sodium limit (`float('inf')`) is `None`.
- An extracted value is kept as its normalised token text (`Value.Number`), or `Zero` for the initial `0`.

Three behaviours of the code worth stating precisely:
- A catalog with fewer rows than the combination size, including an empty one, is used whole as the
  trial's combination (`utils/rekomendasi_utils.py:16`). The search then returns it unless it breaks a
  limit; it does not return `None` for that reason (`Trial`, `WholeCatalog`, and the last ensures of
  `GenerateRecommendations`).
- A keyword match whose window holds no number stores nothing (`utils/ocr_utils.py:72-77`). The nutrient
  keeps its current value, so an earlier match survives (`Processed`, `ExtractLastMatchWins`).
- The `except` fallback at `utils/ocr_utils.py:73-76` cannot be reached. Every stored token is a decimal
  literal that `float()` accepts (`ExtractedValueIsDecimal`).

## Model

| member | source | states |
|---|---|---|
| Dicts.Lookup | utils/rekomendasi_utils.py:7 | a key is found exactly when it is one of the dictionary's keys, and what is found is that key's entry |
| Dicts.LookupEntry | utils/rekomendasi_utils.py:42 | because keys are distinct, looking up an entry's key finds that entry's value |
| Text.LowerChars | utils/ocr_utils.py:53 | lower-casing maps every character on its own and leaves no upper-case ASCII letter |
| Text.Lower | utils/ocr_utils.py:53 | `line.lower()` on ASCII letters; it keeps the line's length, and `LowerChars` gives the per-character mapping |
| Text.LowerKeepsLowerCase | utils/ocr_utils.py:53 | a line with no upper-case ASCII letter is unchanged by lower-casing |
| Text.LowerCapitalised | utils/ocr_utils.py:53 | a line whose only upper-case letter is the first lower-cases that letter and keeps the rest |
| Text.ContainsAt | utils/ocr_utils.py:56 | `label in l` holds exactly when the label occurs in the line at some position |
| Text.Contains | utils/ocr_utils.py:56 | definition of Python's `sub in s` (a prefix here or further on); `ContainsAt` proves it means occurrence at some position |
| Text.LeadingNumeralMatches | utils/ocr_utils.py:68 | the greedy scan at a digit yields a full match of `[0-9]+[.,]?[0-9]*` |
| Text.LeadingNumeralLongest | utils/ocr_utils.py:68 | no longer prefix at that position matches the pattern (the match is the longest) |
| Text.ScanNone | utils/ocr_utils.py:68-69 | the search finds nothing exactly when no digit occurs from the start position on |
| Text.ScanSome | utils/ocr_utils.py:68 | a found match starts at the first digit and is the greedy match there |
| Text.FirstNumeralIsLeftmostLongest | utils/ocr_utils.py:68-70 | the token is `None` exactly when the line has no digit; otherwise it matches the pattern, starts at the leftmost digit and is the longest match there |
| Text.NumericTokenShape | utils/ocr_utils.py:68-76 | a stored token starts with a digit, has no comma, and any non-digit in it is a single dot |
| Text.DigitRun | utils/ocr_utils.py:68 | the digit run at a position is all digits and is followed by a non-digit or the end of the line |
| Text.LeadingNumeral | utils/ocr_utils.py:68 | the greedy match of `[0-9]+[.,]?[0-9]*` at a digit, a prefix of the line; `LeadingNumeralMatches` and `LeadingNumeralLongest` prove it matches and is longest |
| Text.Scan | utils/ocr_utils.py:68 | definition of the leftmost search for a match start; `ScanNone` and `ScanSome` characterise it |
| Text.FirstNumeral | utils/ocr_utils.py:68-69 | definition of `re.search(...)` followed by `match.group(1)`; `FirstNumeralIsLeftmostLongest` proves it is the regex's leftmost-longest match |
| Text.Normalise | utils/ocr_utils.py:70 | `.replace(",", ".")`: the same length, each comma turned into a dot and every other character kept |
| Text.NumericToken | utils/ocr_utils.py:68-70 | definition of the stored token of a line; `NumericTokenShape` proves it is a decimal literal |
| Nutrients.Index | utils/ocr_utils.py:42-50 | every nutrient has its position in the fixed label order |
| Nutrients.IndexOfListed | utils/ocr_utils.py:42-50 | position and nutrient are inverse: the seven label keys are distinct |
| Nutrients.AllNutrientsListed | utils/ocr_utils.py:42-51 | the label table covers every nutrient |
| NutritionExtractor.Labels | utils/ocr_utils.py:42-50 | definition of the keyword table, the same keywords in the same order for each nutrient |
| NutritionExtractor.EnergyExcluded | utils/ocr_utils.py:57 | definition of a daily-value reference line: it contains "kebutuhan energi" or "akg" |
| NutritionExtractor.FatExcluded | utils/ocr_utils.py:59 | definition of a fat sub-category line: it contains "jenuh" or "trans" |
| NutritionExtractor.KeywordExcluded | utils/ocr_utils.py:57-60 | definition of the exclusions applied to the keyword line: the energy rule for energy, the fat rule for total fat, none for the others |
| NutritionExtractor.SkippedInWindow | utils/ocr_utils.py:66-67 | definition of the exclusion applied to each lookahead line: only the fat rule, only for total fat; `EnergyLookaheadNotExcluded` and `FatValueNeverFromSubcategory` state its effect |
| NutritionExtractor.Mentions | utils/ocr_utils.py:55-56 | definition: some keyword of the nutrient occurs in the lower-cased line; `UnmentionedNutrientUnchanged` states its effect |
| NutritionExtractor.Hit | utils/ocr_utils.py:63-69 | definition of one usable lookahead offset: the line exists, is not skipped, and has a numeric token |
| NutritionExtractor.Triggers | utils/ocr_utils.py:54-60 | definition: a line starts a lookup for a nutrient when one of its keywords occurs and no exclusion applies; `EnergyReferenceLineIgnored` and `FatSubcategoryLineIgnored` state the exclusions |
| NutritionExtractor.WindowValue | utils/ocr_utils.py:62-71 | definition of the lookahead over offsets 0 to 2; `WindowValueNoneIff` and `WindowValueFirstHit` characterise it |
| NutritionExtractor.Resolve | utils/ocr_utils.py:56-72 | definition of what one line stores for a nutrient; `MatchKeywords` is proved to compute it |
| NutritionExtractor.ValueAfter | utils/ocr_utils.py:51-77 | definition of a nutrient's value after a prefix of the lines; `ValueAfterZero`, `ValueAfterLastMatch` and `ValueAfterSource` characterise it |
| NutritionExtractor.Processed | utils/ocr_utils.py:72-77 | definition of one line's effect on one nutrient's value; `ProcessedBy` states it |
| NutritionExtractor.Extract | utils/ocr_utils.py:51-78 | the extracted map always has all seven nutrient keys |
| NutritionExtractor.LookAhead | utils/ocr_utils.py:61-71 | the offset loop returns the first numeric token of lines `i`, `i+1`, `i+2` that exist and are not skipped fat lines |
| NutritionExtractor.MatchKeywords | utils/ocr_utils.py:54-77 | the keyword loop leaves a value to store exactly when a keyword occurs, no exclusion applies and the window has a number |
| NutritionExtractor.ProcessedBy | utils/ocr_utils.py:72-77 | a resolved token overwrites the nutrient's value; otherwise the value is kept |
| NutritionExtractor.ProcessLine | utils/ocr_utils.py:54-77 | processing one line updates every nutrient exactly as the line resolves it, and nothing else |
| NutritionExtractor.StoreKeepsPrefix | utils/ocr_utils.py:54-77 | storing the next nutrient's value extends the processed prefix of the label order by one |
| NutritionExtractor.ExtractNutritionJson | utils/ocr_utils.py:41-78 | the line loop computes the specification `Extract`: for each nutrient, the token of its last successful match or 0 |
| NutritionExtractorProperties.EmptyInputAllZero | utils/ocr_utils.py:51-52 | with no lines, every nutrient is 0 |
| NutritionExtractorProperties.WindowValueNoneIff | utils/ocr_utils.py:62-71 | the lookahead finds nothing exactly when no line of the window is usable |
| NutritionExtractorProperties.WindowValueFirstHit | utils/ocr_utils.py:62-71 | a found value is the token of the first usable window line, and no earlier line is usable |
| NutritionExtractorProperties.ValueAfterZero | utils/ocr_utils.py:51-77 | after `count` lines a nutrient is 0 exactly when none of those lines stored a value for it |
| NutritionExtractorProperties.ValueAfterLastMatch | utils/ocr_utils.py:52-77 | the last line that stored a value decides the nutrient |
| NutritionExtractorProperties.ValueAfterSource | utils/ocr_utils.py:52-77 | every stored value was stored by some processed line |
| NutritionExtractorProperties.ExtractZeroIffNoMatch | utils/ocr_utils.py:51-77 | a nutrient keeps its initial `0` (`Zero`) exactly when no line produced a value for it |
| NutritionExtractorProperties.ExtractLastMatchWins | utils/ocr_utils.py:52-77 | later successful matches overwrite earlier ones; the last one is reported |
| NutritionExtractorProperties.ExtractedValueOrigin | utils/ocr_utils.py:56-77 | a reported value is the token of a line at most two below a qualifying keyword line |
| NutritionExtractorProperties.ExtractedValueIsDecimal | utils/ocr_utils.py:68-77 | a reported value is a decimal literal: it starts with a digit, has no comma, and its only non-digit, if any, is a single dot, so `float()` accepts it |
| NutritionExtractorProperties.EnergyReferenceLineIgnored | utils/ocr_utils.py:57-58 | a keyword line containing "kebutuhan energi" or "akg" never sets energy |
| NutritionExtractorProperties.EnergyLookaheadNotExcluded | utils/ocr_utils.py:57-71 | the energy exclusion is not applied to lookahead lines, which may supply the energy value |
| NutritionExtractorProperties.FatSubcategoryLineIgnored | utils/ocr_utils.py:59-60 | a keyword line containing "jenuh" or "trans" never sets total fat |
| NutritionExtractorProperties.FatValueNeverFromSubcategory | utils/ocr_utils.py:59-71 | total fat never takes its value from a "jenuh" or "trans" line, even inside the window |
| NutritionExtractorProperties.UnmentionedNutrientUnchanged | utils/ocr_utils.py:54-56 | a line that mentions none of a nutrient's keywords leaves that nutrient unchanged |
| NutritionExtractorProperties.ProteinTwoLinesBelow | utils/ocr_utils.py:44-71 | `["Protein", "", "12.5 g"]` gives protein `12.5`: the value two lines below is found |
| NutritionExtractorProperties.DecimalLine | utils/ocr_utils.py:68-70 | the token of the line "12.5 g" is `12.5` |
| NutritionExtractorProperties.NoDigitNoToken | utils/ocr_utils.py:68-69 | a line without a digit has no token |
| NutritionExtractorProperties.SaturatedLineNotTotalFat | utils/ocr_utils.py:59-67 | `["Lemak total", "Lemak jenuh 3g"]` leaves total fat at 0: the "jenuh" line is skipped in the window |
| HealthScore.Ratio | utils/health_score_utils.py:5-11 | a share is at most 1; it is 1 for a zero target; for a positive target it is 1 exactly when the target is reached, and 0 for nothing consumed |
| HealthScore.Trunc | utils/health_score_utils.py:13 | `int()` truncates toward zero: the result is the integer part, from below for positive values and from above for negative ones |
| HealthScore.AverageRatio | utils/health_score_utils.py:12 | definition of the mean of the seven shares; `AverageAtMostOne` bounds it |
| HealthScore.Clamp | utils/health_score_utils.py:14 | `max(1, min(score, 10))` lies in 1 to 10 and leaves a score already in that range unchanged |
| HealthScore.InferHealthScore | utils/health_score_utils.py:1-14 | the score is always a whole number from 1 to 10 |
| HealthScore.TruncMonotone | utils/health_score_utils.py:13 | truncation is monotone |
| HealthScore.AverageAtMostOne | utils/health_score_utils.py:5-12 | the average share is at most 1, and equals 1 exactly when every share is 1 |
| HealthScore.TopScoreIff | utils/health_score_utils.py:5-14 | the score is 10 exactly when every nutrient reached its target or has a zero target |
| HealthScore.ScoreBand | utils/health_score_utils.py:12-14 | score `k` (1 to 9) exactly when the average lies in the `k`-th ninth of [0, 1); 1 also covers all lower averages |
| HealthScore.TargetsMetScoresTen | utils/health_score_utils.py:5-14 | meeting every positive target (other targets zero) gives 10 |
| HealthScore.NothingConsumedScoresOne | utils/health_score_utils.py:5-14 | with all targets positive, consuming nothing gives 1 |
| HealthScore.RatioMonotone | utils/health_score_utils.py:5-11 | for a positive target, a share never falls when more is consumed |
| HealthScore.AverageMonotone | utils/health_score_utils.py:12 | larger shares give a larger average |
| HealthScore.RatiosMonotone | utils/health_score_utils.py:5-11 | raising one nutrient's consumption raises no share and lowers none |
| HealthScore.ScoreMonotoneInAverage | utils/health_score_utils.py:12-14 | a higher average never gives a lower score |
| HealthScore.ScoreMonotoneInConsumed | utils/health_score_utils.py:1-14 | eating more of a nutrient that has a positive target never lowers the score |
| Needs.RemainingNeeds | utils/rekomendasi_utils.py:4-9 | the remaining needs have exactly the target keys, in target order |
| Needs.CalculateRemainingNeeds | utils/rekomendasi_utils.py:4-9 | the loop builds the remaining needs key by key, and none is negative |
| Needs.RemainingNeedOf | utils/rekomendasi_utils.py:6-8 | looked up by key, a remaining need is `max(0, target − consumed)`, where unreported consumption counts as 0 |
| Needs.Max0 | utils/rekomendasi_utils.py:8 | definition of `max(0, x)`; `CalculateRemainingNeeds` proves the needs are non-negative |
| Needs.NormaliseConsumed | utils/rekomendasi_utils.py:42 | the normalised consumption has exactly the target keys, in target order |
| Needs.NormalisedConsumption | utils/rekomendasi_utils.py:42 | a key is in the normalised consumption exactly when it is a target key, with the reported amount or 0 |
| Needs.InFocus | utils/rekomendasi_utils.py:44 | definition of the focus condition: a positive target of which less than 80% was consumed |
| Needs.FocusKeys | utils/rekomendasi_utils.py:44 | the focus list is the target keys in target order, without repeats, that have a positive target and are below 80% of it |
| Needs.NonPositiveTargetNeverInFocus | utils/rekomendasi_utils.py:44 | a nutrient with a target of 0 or less is never in focus |
| Needs.Restrict | utils/rekomendasi_utils.py:45 | restricting to the focus keys gives exactly those keys, in focus order |
| Needs.FocusNeeds | utils/rekomendasi_utils.py:42-45 | definition of the needs handed to the search; `FocusNeedsPositive` characterises them |
| Needs.FocusNeedsPositive | utils/rekomendasi_utils.py:42-45 | every need passed to the search is a focus key's target minus its consumption, and is strictly positive |
| Needs.ExampleDay | utils/rekomendasi_utils.py:41-46 | 2000 kcal / 60 g targets against 500 kcal / 10 g consumed: both in focus, needs of 1500 and 50 |
| Needs.TwoTargetDay | utils/rekomendasi_utils.py:41-45 | the same day for any two distinct target keys |
| RecommendationSearch.Pressure | utils/rekomendasi_utils.py:33-34 | the limit pressure is 0 for a limit of 0 or less or an absent limit, 0 for a zero total, and never negative for a non-negative total |
| RecommendationSearch.PressureIsShare | utils/rekomendasi_utils.py:33-34 | under a positive limit the pressure times the limit is the total: the pressure is `total / limit` |
| RecommendationSearch.Total | utils/rekomendasi_utils.py:17-26 | definition of a column sum over the combination's rows; `TotalNonNegative` bounds it |
| RecommendationSearch.Exceeds | utils/rekomendasi_utils.py:19 | definition of `total > limit`, never true for an absent (infinite) limit |
| RecommendationSearch.Rejected | utils/rekomendasi_utils.py:19-20 | definition of the hard constraint; `ScoreCombination` and `SearchRespectsLimits` use it |
| RecommendationSearch.MacroErrors | utils/rekomendasi_utils.py:28-31 | definition of the `scores` list; `MacroScores` is proved to build it, and `MacroErrorsNonNegative`, `MacroErrorsZero` and `MacroErrorsNoNeed` characterise it |
| RecommendationSearch.RelativeError | utils/rekomendasi_utils.py:31 | definition of `abs(total - need) / need` for a positive need; `MacroErrorsNonNegative` and `MacroErrorsZero` bound it |
| RecommendationSearch.Mean | utils/rekomendasi_utils.py:32 | definition of `np.mean(scores) if scores else 0` |
| RecommendationSearch.Score | utils/rekomendasi_utils.py:28-36 | definition of the composite score; `ScoreNonNegative`, `PerfectCombinationScoresZero` and `NoMacroNeedsOnlyPressure` characterise it |
| RecommendationSearch.Rows | utils/rekomendasi_utils.py:16 | a combination selects exactly its catalog rows, in its order |
| RecommendationSearch.WholeCatalog | utils/rekomendasi_utils.py:16 | the undersized-catalog combination is every row, in catalog order |
| RecommendationSearch.IsDraw | utils/rekomendasi_utils.py:16 | definition of a possible `df.sample(n=num_prod)`: exactly `num_prod` distinct catalog rows |
| RecommendationSearch.ValidDraws | utils/rekomendasi_utils.py:16 | definition of the oracle's obligation: every trial's draw is a possible sample whenever the catalog is large enough to sample from |
| RecommendationSearch.Trial | utils/rekomendasi_utils.py:16 | every trial's combination indexes only catalog rows |
| RecommendationSearch.Accepted | utils/rekomendasi_utils.py:17-20 | definition: a trial's combination passes the sugar and sodium limits (no `continue`); `ScoreCombination` and `Outcomes` use it |
| RecommendationSearch.TrialScore | utils/rekomendasi_utils.py:21-36 | definition of a trial's `total_score`; `TrialScoreNonNegative` bounds it |
| RecommendationSearch.Outcomes | utils/rekomendasi_utils.py:15-36 | a trial is scored exactly when it respects both limits, and its score is the composite score |
| RecommendationSearch.BestAfter | utils/rekomendasi_utils.py:12-38 | definition of `best_combo` and `best_score` after a number of trials; `BestAfterNoneIff` and `BestAfterIsFirstMinimal` characterise it |
| RecommendationSearch.Search | utils/rekomendasi_utils.py:11-39 | definition of the search result over all trials; `GenerateRecommendations` computes it and `SearchIsFirstMinimal` characterises it |
| RecommendationSearch.MacroScores | utils/rekomendasi_utils.py:28-31 | the `scores` loop collects a relative error for each macro key with a positive need, in key order |
| RecommendationSearch.ScoreCombination | utils/rekomendasi_utils.py:17-36 | one trial gives no score exactly when sugar or sodium exceeds its limit, and otherwise gives the composite score |
| RecommendationSearch.GenerateRecommendations | utils/rekomendasi_utils.py:11-39 | returns `None` exactly when no trial was accepted; otherwise the combination of the first trial with the lowest score. That combination respects the limits, and is the whole catalog when the catalog is undersized |
| RecommendationSearch.BestAfterNoneIff | utils/rekomendasi_utils.py:12-39 | no best combination after `n` trials exactly when none of them was scored |
| RecommendationSearch.BestAfterIsFirstMinimal | utils/rekomendasi_utils.py:37-38 | the best is the first trial reaching the minimal score: strict `<` means a later tie never replaces it |
| RecommendationSearch.SearchIsFirstMinimal | utils/rekomendasi_utils.py:11-39 | the search result is `None` exactly when every trial was rejected, else the first minimal trial's combination |
| RecommendationSearch.SearchRespectsLimits | utils/rekomendasi_utils.py:13-20 | a returned combination's sugar and sodium totals are within each limit that is present |
| RecommendationSearch.SearchWithoutLimitsFindsOne | utils/rekomendasi_utils.py:13-20 | without sugar and sodium limits, any trial at all yields a combination |
| RecommendationSearch.TotalNonNegative | utils/rekomendasi_utils.py:17-18 | a column total over rows without negative amounts is not negative |
| RecommendationSearch.MacroErrorsNonNegative | utils/rekomendasi_utils.py:29-31 | every relative macro error is non-negative |
| RecommendationSearch.SumNonNegative | utils/rekomendasi_utils.py:32 | the sum of non-negative errors is non-negative |
| RecommendationSearch.SumZero | utils/rekomendasi_utils.py:32 | the sum of zero errors is zero |
| RecommendationSearch.ScoreNonNegative | utils/rekomendasi_utils.py:28-36 | with non-negative sugar and sodium totals the composite score is never negative |
| RecommendationSearch.MacroErrorsZero | utils/rekomendasi_utils.py:29-31 | hitting every positive macro need exactly gives only zero errors |
| RecommendationSearch.PerfectCombinationScoresZero | utils/rekomendasi_utils.py:28-36 | a combination that hits every positive macro need and has no sugar or sodium scores 0 |
| RecommendationSearch.MacroErrorsNoNeed | utils/rekomendasi_utils.py:29-32 | with no positive macro need the `scores` list is empty |
| RecommendationSearch.NoMacroNeedsOnlyPressure | utils/rekomendasi_utils.py:30-36 | with no positive macro need only the sugar/sodium pressure counts, weighted 0.2 |
| RecommendationSearch.TrialScoreNonNegative | utils/rekomendasi_utils.py:28-36 | over a catalog without negative sugar or sodium, no trial scores below 0 |
| RecommendationSearch.PerfectTrialKept | utils/rekomendasi_utils.py:15-39 | once an accepted trial scores 0, the search returns a combination scoring 0, drawn no later than that trial |
| RecommendationService.RekomendasiLogic | utils/rekomendasi_utils.py:41-61 | the response lists the focus nutrients and the rows of the search result over the focus needs (none without a result) |
| RecommendationService.ListRows | utils/rekomendasi_utils.py:47-60 | the `hasil` loop lists the rows of the returned combination, in its order |
| RecommendationService.Entries | utils/rekomendasi_utils.py:47-61 | definition of the listed entries: none without a result, else the combination's rows; `EntriesFollowCombination` characterises them |
| RecommendationService.EntriesFollowCombination | utils/rekomendasi_utils.py:46-61 | the entries are empty exactly when there is no result or an empty combination. Otherwise entry `j` is the combination's `j`-th row, and the listed rows respect the focus limits |

## Left out

- The HTTP layer (`ml_main.py`), the OCR recognition model (the keras-ocr and TensorFlow functions of `utils/ocr_utils.py` before line 41) and `utils/disease_predict_utils.py` are not part of this model. They are I/O and machine-learning inference.
- `df.sample` is an input (`draws`), not a random source: the model says what the search returns for any draws, not how likely a combination is.
- Floating point: amounts and scores are exact reals, so rounding, `inf` arithmetic and NaN are not modelled. A missing limit is `None` rather than `float('inf')`, and its pressure is 0 as `x / inf` is.
- NutritionExtractor.Extract: stores the normalised token text rather than the `float` that `float()` makes of it. The `except` fallback cannot occur for these tokens (`ExtractedValueIsDecimal`), so it is not modelled.
- Text.Lower: lower-cases ASCII letters only, not full Unicode `str.lower()`.
- Display formatting in `rekomendasi_logic` (`:.1f kkal`, `:.0f mg` labels) is left out. An entry is the product row whose fields are formatted.
- Missing catalog columns (the `combo.get(column, pd.Series([0] * num_prod))` and `row.get(..., default)` fallbacks) are left out: every `Product` has every column.
- `Dicts.Dict` values are reals, and distinct keys are a type invariant, as Python guarantees. Non-numeric dictionary values are not modelled.
- `generate_recommendations` is modelled with the oracle's trial count equal to `iters`. The service passes 3 products and the default 30000 trials (`RecommendationService.NumProducts`, `RecommendationService.Iterations`).
- `infer_health_score_custom` takes its fourteen scalar arguments as two `HealthScore.Amounts` values (consumed and targets). A target's truthiness (`if target`) is `target != 0`.
