/**
 * The nutrition-label extractor: maps the ordered text lines an OCR pass
 * produced to the fixed seven-key nutrient map.  For every line and every
 * nutrient it looks for one of the nutrient's keywords (case-insensitive
 * substring), drops the exclusion cases, and takes the first numeric token in
 * that line or the next two.  The last successful match of a nutrient wins.
 *
 * The specification is a family of functions (`Triggers`, `WindowValue`,
 * `Resolve`, `ValueAfter`, `Extract`); `ExtractNutritionJson` is the loop
 * nest of the program, proved to compute `Extract`.
 */
module NutritionExtractor {
  import opened Wrappers
  import opened Text
  import opened Nutrients

  /** A stored value: the initial `0`, or the normalised numeric token of the winning match. */
  datatype Value = Zero | Number(token: string)

  type NutritionMap = map<Nutrient, Value>

  /** The keyword table, in the program's order. */
  function Labels(n: Nutrient): seq<string> {
    match n
    case Energi => ["energi", "energi total", "energy"]
    case Protein => ["protein"]
    case LemakTotal => ["lemak total", "lemak", "total fat", "fat"]
    case Karbohidrat => ["karbohidrat", "karbohidrat total", "karbo", "carbohydrate", "carbohydrate total"]
    case Serat => ["serat", "fiber"]
    case Gula => ["gula", "sugar"]
    case Garam => ["garam", "garam (natrium)", "natrium", "sodium", "salt"]
  }

  /** A daily-value reference line ("% AKG", "kebutuhan energi") is not an energy value. */
  predicate EnergyExcluded(l: string) {
    Contains(l, "kebutuhan energi") || Contains(l, "akg")
  }

  /** Saturated and trans fat lines are sub-categories, not the total fat. */
  predicate FatExcluded(l: string) {
    Contains(l, "jenuh") || Contains(l, "trans")
  }

  /** Exclusion applied to the keyword line itself (`l` already lower-cased). */
  predicate KeywordExcluded(n: Nutrient, l: string) {
    (n == Energi && EnergyExcluded(l)) || (n == LemakTotal && FatExcluded(l))
  }

  /** Exclusion applied to each line of the lookahead window: only the fat rule. */
  predicate SkippedInWindow(n: Nutrient, l: string) {
    n == LemakTotal && FatExcluded(l)
  }

  /** Some keyword of `n` occurs in the lower-cased line `l`. */
  predicate Mentions(n: Nutrient, l: string) {
    exists j :: 0 <= j < |Labels(n)| && Contains(l, Labels(n)[j])
  }

  /** Line `i` starts a lookup for `n`: a keyword occurs and no exclusion applies. */
  predicate Triggers(texts: seq<string>, i: nat, n: Nutrient)
    requires i < |texts|
  {
    Mentions(n, Lower(texts[i])) && !KeywordExcluded(n, Lower(texts[i]))
  }

  /** Offset `off` of the window at line `i` supplies a value for `n`. */
  predicate Hit(texts: seq<string>, i: nat, n: Nutrient, off: nat) {
    i + off < |texts| &&
    !SkippedInWindow(n, Lower(texts[i + off])) &&
    NumericToken(Lower(texts[i + off])).Some?
  }

  /** The value the lookahead finds from offset `off` on (offsets 0, 1, 2 only). */
  function WindowValue(texts: seq<string>, i: nat, n: Nutrient, off: nat): Option<string>
    decreases 3 - off
  {
    if off >= 3 then None
    else if Hit(texts, i, n, off) then NumericToken(Lower(texts[i + off]))
    else WindowValue(texts, i, n, off + 1)
  }

  /** What processing line `i` stores for `n`, `None` when it leaves `n` alone. */
  function Resolve(texts: seq<string>, i: nat, n: Nutrient): Option<string>
    requires i < |texts|
  {
    if Triggers(texts, i, n) then WindowValue(texts, i, n, 0) else None
  }

  /** The value of `n` after the first `count` lines have been processed. */
  function ValueAfter(texts: seq<string>, count: nat, n: Nutrient): Value
    requires count <= |texts|
  {
    if count == 0 then Zero
    else match Resolve(texts, count - 1, n)
      case Some(v) => Number(v)
      case None => ValueAfter(texts, count - 1, n)
  }

  /** The extracted label: every nutrient, with its last successfully matched token or `Zero`. */
  function Extract(texts: seq<string>): (m: NutritionMap)
    ensures forall n :: n in m
  {
    AllNutrientsListed();
    map n | n in AllNutrients :: ValueAfter(texts, |texts|, n)
  }

  /** The lookahead: the first numeric token in lines `i`, `i + 1`, `i + 2`, skipping excluded fat lines. */
  method LookAhead(texts: seq<string>, i: nat, key: Nutrient) returns (value: Option<string>)
    ensures value == WindowValue(texts, i, key, 0)
  {
    value := None;
    for offset := 0 to 3
      invariant value == None
      invariant WindowValue(texts, i, key, offset) == WindowValue(texts, i, key, 0)
    {
      var idx := i + offset;
      if idx < |texts| {
        var targetLine := Lower(texts[idx]);
        if key == LemakTotal && (Contains(targetLine, "jenuh") || Contains(targetLine, "trans")) {
          continue;
        }
        var m := FirstNumeral(targetLine);
        if m.Some? {
          value := Some(Normalise(m.value));
          break;
        }
      }
    }
  }

  /**
   * The keyword loop for one nutrient on line `i`: what it leaves to be stored
   * for `key` (the last value assigned), `None` when nothing is stored.
   */
  method MatchKeywords(texts: seq<string>, i: nat, key: Nutrient) returns (stored: Option<string>)
    requires i < |texts|
    ensures stored == Resolve(texts, i, key)
  {
    var l := Lower(texts[i]);
    var keys := Labels(key);
    stored := None;
    for j := 0 to |keys|
      invariant stored ==
        if (exists q :: 0 <= q < j && Contains(l, keys[q])) && !KeywordExcluded(key, l)
        then WindowValue(texts, i, key, 0)
        else None
    {
      if Contains(l, keys[j]) {
        if key == Energi && (Contains(l, "kebutuhan energi") || Contains(l, "akg")) {
          continue;
        }
        if key == LemakTotal && (Contains(l, "jenuh") || Contains(l, "trans")) {
          continue;
        }
        var value := LookAhead(texts, i, key);
        if value.Some? {
          stored := value;
        }
      }
    }
  }

  /** The effect of processing line `i` on one nutrient's value. */
  function Processed(texts: seq<string>, i: nat, n: Nutrient, current: Value): Value
    requires i < |texts|
  {
    match Resolve(texts, i, n)
    case Some(v) => Number(v)
    case None => current
  }

  /** Processing stores the resolved token, or keeps the current value when there is none. */
  lemma ProcessedBy(texts: seq<string>, i: nat, n: Nutrient, current: Value, stored: Option<string>)
    requires i < |texts| && stored == Resolve(texts, i, n)
    ensures Processed(texts, i, n, current) == if stored.Some? then Number(stored.value) else current
  {
  }

  /** The nutrient loop for line `i`: each stored token overwrites that nutrient's entry. */
  method ProcessLine(texts: seq<string>, i: nat, result: NutritionMap) returns (updated: NutritionMap)
    requires i < |texts|
    requires forall n :: n in result
    ensures forall n :: n in updated && updated[n] == Processed(texts, i, n, result[n])
  {
    ghost var expected := map n: Nutrient :: Processed(texts, i, n, result[n]);
    updated := result;
    for k := 0 to |AllNutrients|
      invariant forall n :: n in updated && updated[n] == if Index(n) < k then expected[n] else result[n]
    {
      var key := AllNutrients[k];
      IndexOfListed(k);
      var value := MatchKeywords(texts, i, key);
      ProcessedBy(texts, i, key, result[key], value);
      ghost var before := updated;
      if value.Some? {
        updated := updated[key := Number(value.value)];
      }
      assert updated == before[key := expected[key]];
      StoreKeepsPrefix(before, result, expected, k, updated);
    }
  }

  /** Storing the `k`-th nutrient's new value extends the processed prefix of the nutrient order by one. */
  lemma StoreKeepsPrefix(updated: NutritionMap, result: NutritionMap, expected: NutritionMap, k: nat, next: NutritionMap)
    requires k < |AllNutrients| && forall n :: n in expected && n in result
    requires forall n :: n in updated && updated[n] == if Index(n) < k then expected[n] else result[n]
    requires next == updated[AllNutrients[k] := expected[AllNutrients[k]]]
    ensures forall n :: n in next && next[n] == if Index(n) < k + 1 then expected[n] else result[n]
  {
    IndexOfListed(k);
  }

  /** The program's loop over the lines; the map always holds all seven nutrients. */
  method ExtractNutritionJson(texts: seq<string>) returns (result: NutritionMap)
    ensures result == Extract(texts)
  {
    AllNutrientsListed();
    result := map n | n in AllNutrients :: Zero;
    for i := 0 to |texts|
      invariant forall n :: n in result && result[n] == ValueAfter(texts, i, n)
    {
      result := ProcessLine(texts, i, result);
    }
  }
}

/** What the extracted label promises. */
module NutritionExtractorProperties {
  import opened Wrappers
  import opened Text
  import opened Nutrients
  import opened NutritionExtractor

  /** No lines: every nutrient keeps its initial `0`. */
  lemma EmptyInputAllZero()
    ensures forall n :: Extract([])[n] == Zero
  {
  }

  /**
   * The lookahead yields nothing exactly when none of lines `i + off` .. `i + 2`
   * is usable (existing, not a skipped fat line, holding a digit).
   */
  lemma {:induction false} WindowValueNoneIff(texts: seq<string>, i: nat, n: Nutrient, off: nat)
    requires off <= 3
    ensures WindowValue(texts, i, n, off).None? <==> forall o :: off <= o < 3 ==> !Hit(texts, i, n, o)
    decreases 3 - off
  {
    if off < 3 && !Hit(texts, i, n, off) {
      WindowValueNoneIff(texts, i, n, off + 1);
    }
  }

  /** When the lookahead yields a token, it is the token of the first usable line `i + o`. */
  lemma {:induction false} WindowValueFirstHit(texts: seq<string>, i: nat, n: Nutrient, off: nat) returns (o: nat)
    requires off <= 3 && WindowValue(texts, i, n, off).Some?
    ensures off <= o < 3 && Hit(texts, i, n, o)
    ensures WindowValue(texts, i, n, off) == NumericToken(Lower(texts[i + o]))
    ensures forall p :: off <= p < o ==> !Hit(texts, i, n, p)
    decreases 3 - off
  {
    if Hit(texts, i, n, off) {
      o := off;
    } else {
      o := WindowValueFirstHit(texts, i, n, off + 1);
    }
  }

  /** A nutrient is `Zero` after `count` lines exactly when none of them stored a value for it. */
  lemma {:induction false} ValueAfterZero(texts: seq<string>, count: nat, n: Nutrient)
    requires count <= |texts|
    ensures ValueAfter(texts, count, n) == Zero <==> forall i :: 0 <= i < count ==> Resolve(texts, i, n).None?
  {
    if count > 0 {
      ValueAfterZero(texts, count - 1, n);
      var r := Resolve(texts, count - 1, n);
      if r.Some? {
        assert ValueAfter(texts, count, n) == Number(r.value);
      } else {
        assert ValueAfter(texts, count, n) == ValueAfter(texts, count - 1, n);
      }
    }
  }

  /** The last line that stored a value for a nutrient decides it. */
  lemma {:induction false} ValueAfterLastMatch(texts: seq<string>, count: nat, n: Nutrient, i: nat)
    requires i < count <= |texts|
    requires Resolve(texts, i, n).Some?
    requires forall j :: i < j < count ==> Resolve(texts, j, n).None?
    ensures ValueAfter(texts, count, n) == Number(Resolve(texts, i, n).value)
  {
    if count - 1 > i {
      ValueAfterLastMatch(texts, count - 1, n, i);
    }
  }

  /** Every stored value was stored by some line. */
  lemma {:induction false} ValueAfterSource(texts: seq<string>, count: nat, n: Nutrient) returns (i: nat)
    requires count <= |texts|
    requires ValueAfter(texts, count, n).Number?
    ensures i < count && Resolve(texts, i, n) == Some(ValueAfter(texts, count, n).token)
  {
    if Resolve(texts, count - 1, n).Some? {
      i := count - 1;
    } else {
      i := ValueAfterSource(texts, count - 1, n);
    }
  }

  /** A nutrient keeps its initial `0` (`Zero`) exactly when no line produced a value for it. */
  lemma ExtractZeroIffNoMatch(texts: seq<string>, n: Nutrient)
    ensures Extract(texts)[n] == Zero <==> forall i :: 0 <= i < |texts| ==> Resolve(texts, i, n).None?
  {
    ValueAfterZero(texts, |texts|, n);
  }

  /** The last successful match for a nutrient wins; earlier ones are overwritten. */
  lemma ExtractLastMatchWins(texts: seq<string>, n: Nutrient, i: nat)
    requires i < |texts| && Resolve(texts, i, n).Some?
    requires forall j :: i < j < |texts| ==> Resolve(texts, j, n).None?
    ensures Extract(texts)[n] == Number(Resolve(texts, i, n).value)
  {
    ValueAfterLastMatch(texts, |texts|, n, i);
  }

  /**
   * Line `i` mentions `n` without an exclusion and the line `o` below it
   * (`o` < 3) supplies the token `v`.
   */
  ghost predicate SuppliedBy(texts: seq<string>, n: Nutrient, v: string, i: nat, o: nat) {
    i < |texts| && o < 3 && Triggers(texts, i, n) && Hit(texts, i, n, o) &&
    NumericToken(Lower(texts[i + o])) == Some(v)
  }

  /**
   * A reported value is the normalised leftmost numeric token of a line at
   * most two below a line that mentions the nutrient without an exclusion.
   */
  lemma ExtractedValueOrigin(texts: seq<string>, n: Nutrient)
    requires Extract(texts)[n].Number?
    ensures exists i, o :: SuppliedBy(texts, n, Extract(texts)[n].token, i, o)
  {
    var i := ValueAfterSource(texts, |texts|, n);
    var o := WindowValueFirstHit(texts, i, n, 0);
    assert SuppliedBy(texts, n, Extract(texts)[n].token, i, o);
  }

  /**
   * A reported value is a decimal literal: it begins with a digit, holds no
   * comma, and its only non-digit character, if any, is a single dot.
   */
  lemma ExtractedValueIsDecimal(texts: seq<string>, n: Nutrient)
    requires Extract(texts)[n].Number?
    ensures var v := Extract(texts)[n].token;
      |v| > 0 && IsDigit(v[0]) && ',' !in v &&
      (forall i :: 0 <= i < |v| && !IsDigit(v[i]) ==> v[i] == '.') &&
      forall a, b :: 0 <= a < b < |v| ==> IsDigit(v[a]) || IsDigit(v[b])
  {
    ExtractedValueOrigin(texts, n);
    var i, o :| SuppliedBy(texts, n, Extract(texts)[n].token, i, o);
    NumericTokenShape(Lower(texts[i + o]));
  }

  /** A keyword line carrying "kebutuhan energi" or "akg" never sets the energy value. */
  lemma EnergyReferenceLineIgnored(texts: seq<string>, i: nat)
    requires i < |texts| && EnergyExcluded(Lower(texts[i]))
    ensures Resolve(texts, i, Energi) == None
  {
  }

  /**
   * The energy exclusion is not applied to lookahead lines: a qualifying energy
   * line without a number takes the token of the next line even when that
   * line is a daily-value reference line.
   */
  lemma EnergyLookaheadNotExcluded(texts: seq<string>, i: nat)
    requires i + 1 < |texts| && Triggers(texts, i, Energi)
    requires NumericToken(Lower(texts[i])).None?
    requires EnergyExcluded(Lower(texts[i + 1])) && NumericToken(Lower(texts[i + 1])).Some?
    ensures Resolve(texts, i, Energi) == NumericToken(Lower(texts[i + 1]))
  {
  }

  /** A keyword line mentioning "jenuh" or "trans" never sets the total fat value. */
  lemma FatSubcategoryLineIgnored(texts: seq<string>, i: nat)
    requires i < |texts| && FatExcluded(Lower(texts[i]))
    ensures Resolve(texts, i, LemakTotal) == None
  {
  }

  /** Total fat never takes its value from a saturated or trans fat line, even in the lookahead. */
  lemma FatValueNeverFromSubcategory(texts: seq<string>, i: nat)
    requires i < |texts| && Resolve(texts, i, LemakTotal).Some?
    ensures exists o ::
      o < 3 && Hit(texts, i, LemakTotal, o) &&
      !FatExcluded(Lower(texts[i + o])) &&
      Resolve(texts, i, LemakTotal) == NumericToken(Lower(texts[i + o]))
  {
    var o := WindowValueFirstHit(texts, i, LemakTotal, 0);
  }

  /** Processing a line that mentions no keyword of a nutrient leaves that nutrient unchanged. */
  lemma UnmentionedNutrientUnchanged(texts: seq<string>, i: nat, n: Nutrient)
    requires i < |texts| && !Mentions(n, Lower(texts[i]))
    ensures ValueAfter(texts, i + 1, n) == ValueAfter(texts, i, n)
  {
  }

  /** A value two lines below its keyword is still found. */
  lemma ProteinTwoLinesBelow()
    ensures Extract(["Protein", "", "12.5 g"])[Protein] == Number("12.5")
  {
    var texts := ["Protein", "", "12.5 g"];
    LowerProteinLines();
    ProteinLineResolves(texts);
    LaterLinesSilent(texts);
    ExtractLastMatchWins(texts, Protein, 0);
  }

  lemma LowerProteinLines()
    ensures Lower("Protein") == "protein" && Lower("") == "" && Lower("12.5 g") == "12.5 g"
  {
    var keyword, value := "Protein", "12.5 g";
    assert forall i :: 1 <= i < |keyword| ==> !('A' <= keyword[i] <= 'Z');
    LowerCapitalised(keyword);
    assert forall i :: 0 <= i < |value| ==> !('A' <= value[i] <= 'Z');
    LowerKeepsLowerCase(value);
  }

  /** The token of a line reading "12.5 g", argued over its characters. */
  lemma DecimalLine(s: string)
    requires |s| == 6 && s[0] == '1' && s[1] == '2' && s[2] == '.' && s[3] == '5' && s[4] == ' ' && s[5] == 'g'
    ensures NumericToken(s) == Some("12.5")
  {
    assert DigitRun(s, 2) == 0;
    assert DigitRun(s, 0) == 2;
    assert DigitRun(s, 4) == 0;
    assert DigitRun(s, 3) == 1;
    assert LeadingNumeral(s) == s[..4];
    assert s[0..] == s;
    assert Scan(s, 0) == Some((0, s[..4]));
    assert s[..4] == "12.5";
    assert Normalise(s[..4]) == s[..4];
  }

  /** A line without any digit has no numeric token. */
  lemma NoDigitNoToken(s: string)
    requires forall k :: 0 <= k < |s| ==> !IsDigit(s[k])
    ensures NumericToken(s).None?
  {
    ScanNone(s, 0);
  }

  lemma ProteinKeywordLine()
    ensures NumericToken("protein").None? && Contains("protein", Labels(Protein)[0])
  {
    var keyword := "protein";
    assert forall k :: 0 <= k < |keyword| ==> !IsDigit(keyword[k]);
    NoDigitNoToken(keyword);
  }

  /** The protein keyword line resolves to the token two lines below. */
  lemma ProteinLineResolves(texts: seq<string>)
    requires |texts| == 3 && Lower(texts[0]) == "protein" && Lower(texts[1]) == "" && Lower(texts[2]) == "12.5 g"
    ensures Resolve(texts, 0, Protein) == Some("12.5")
  {
    ProteinKeywordLine();
    NoDigitNoToken("");
    DecimalLine("12.5 g");
    assert Triggers(texts, 0, Protein);
    assert !Hit(texts, 0, Protein, 0) && !Hit(texts, 0, Protein, 1) && Hit(texts, 0, Protein, 2);
  }

  /** The lines below the keyword do not mention protein. */
  lemma LaterLinesSilent(texts: seq<string>)
    requires |texts| == 3 && Lower(texts[1]) == "" && Lower(texts[2]) == "12.5 g"
    ensures forall j :: 0 < j < |texts| ==> Resolve(texts, j, Protein).None?
  {
    assert !Contains("", "protein") && !Contains("12.5 g", "protein");
    assert !Mentions(Protein, Lower(texts[1])) && !Mentions(Protein, Lower(texts[2]));
  }

  /**
   * The lookahead of a total-fat keyword skips a saturated-fat line: with the
   * number only on the "jenuh" line, total fat stays at its default.
   */
  lemma SaturatedLineNotTotalFat()
    ensures Extract(["Lemak total", "Lemak jenuh 3g"])[LemakTotal] == Zero
  {
    var texts := ["Lemak total", "Lemak jenuh 3g"];
    LowerFatLines();
    FatKeywordLineStoresNothing(texts);
    SaturatedLineStoresNothing(texts);
    ExtractZeroIffNoMatch(texts, LemakTotal);
  }

  lemma LowerFatLines()
    ensures Lower("Lemak total") == "lemak total" && Lower("Lemak jenuh 3g") == "lemak jenuh 3g"
  {
    var total, saturated := "Lemak total", "Lemak jenuh 3g";
    assert forall i :: 1 <= i < |total| ==> !('A' <= total[i] <= 'Z');
    LowerCapitalised(total);
    assert forall i :: 1 <= i < |saturated| ==> !('A' <= saturated[i] <= 'Z');
    LowerCapitalised(saturated);
  }

  lemma FatKeywordHasNoToken()
    ensures NumericToken("lemak total").None?
  {
    var keyword := "lemak total";
    assert forall k :: 0 <= k < |keyword| ==> !IsDigit(keyword[k]);
    NoDigitNoToken(keyword);
  }

  lemma SaturatedLineExcluded()
    ensures FatExcluded("lemak jenuh 3g")
  {
    var saturated := "lemak jenuh 3g";
    assert saturated[6..11] == "jenuh";
    assert OccursAt(saturated, "jenuh", 6);
    ContainsAt(saturated, "jenuh");
  }

  /** The keyword line finds no number in its window: its own line has none, the "jenuh" line is skipped. */
  lemma FatKeywordLineStoresNothing(texts: seq<string>)
    requires |texts| == 2 && Lower(texts[0]) == "lemak total" && Lower(texts[1]) == "lemak jenuh 3g"
    ensures Resolve(texts, 0, LemakTotal) == None
  {
    FatKeywordHasNoToken();
    SaturatedLineExcluded();
    assert !Hit(texts, 0, LemakTotal, 0) && !Hit(texts, 0, LemakTotal, 1) && !Hit(texts, 0, LemakTotal, 2);
  }

  /** The "jenuh" line itself is excluded as a total-fat keyword line. */
  lemma SaturatedLineStoresNothing(texts: seq<string>)
    requires |texts| == 2 && Lower(texts[1]) == "lemak jenuh 3g"
    ensures Resolve(texts, 1, LemakTotal) == None
  {
    SaturatedLineExcluded();
    assert !Triggers(texts, 1, LemakTotal);
  }
}
