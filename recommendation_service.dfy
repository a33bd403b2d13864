/**
 * The recommendation use case: normalise the consumed amounts to the target
 * keys, compute the remaining needs and the focus nutrients, search for a
 * three-product combination over the focus needs, and list its rows.
 */
module RecommendationService {
  import opened Wrappers
  import opened Dicts
  import opened Needs
  import opened RecommendationSearch

  /** Combination size and trial budget the service passes to the search. */
  const NumProducts: nat := 3
  const Iterations: nat := 30000

  /**
   * The response: one entry per product row of the winning combination (the
   * row itself stands for its display fields) and the focus nutrients.
   */
  datatype Recommendation = Recommendation(entries: seq<Product>, focus: seq<string>)

  /** The entries listed for a search result: none without a result, else its rows in order. */
  function Entries(catalog: Catalog, result: Option<seq<nat>>): seq<Product>
    requires result.Some? ==> InRange(result.value, |catalog|)
  {
    match result
    case None => []
    case Some(combo) => Rows(catalog, combo)
  }

  /** `rekomendasi_logic`, with the search's random draws supplied as `draws`. */
  method RekomendasiLogic(targets: Dict, consumed: Dict, catalog: Catalog, draws: seq<seq<nat>>)
    returns (r: Recommendation)
    requires |draws| == Iterations && ValidDraws(catalog, NumProducts, draws)
    ensures r.focus == FocusKeys(targets, NormaliseConsumed(targets, consumed))
    ensures var result := Search(catalog, FocusNeeds(targets, consumed), NumProducts, draws);
      (result.Some? ==> InRange(result.value, |catalog|)) &&
      r.entries == Entries(catalog, result)
  {
    var konsumsiFinal := NormaliseConsumed(targets, consumed);
    var sisaKebutuhan := CalculateRemainingNeeds(targets, konsumsiFinal);
    var fokusKurang := FocusKeys(targets, konsumsiFinal);
    var sisaKebutuhanFokus := Restrict(sisaKebutuhan, fokusKurang);
    assert sisaKebutuhanFokus == FocusNeeds(targets, consumed);
    var rekomendasi := GenerateRecommendations(catalog, sisaKebutuhanFokus, NumProducts, Iterations, draws);
    var hasil: seq<Product> := [];
    if rekomendasi.Some? {
      hasil := ListRows(catalog, rekomendasi.value);
    }
    r := Recommendation(hasil, fokusKurang);
  }

  /** The `hasil` loop: the rows of the combination, in its order. */
  method ListRows(catalog: Catalog, combo: seq<nat>) returns (hasil: seq<Product>)
    requires InRange(combo, |catalog|)
    ensures hasil == Rows(catalog, combo)
  {
    hasil := [];
    for j := 0 to |combo|
      invariant hasil == Rows(catalog, combo[..j])
    {
      hasil := hasil + [catalog[combo[j]]];
    }
    assert combo[..|combo|] == combo;
  }

  /**
   * The listed entries are empty exactly when the search found nothing or an
   * empty combination; otherwise entry `j` is the `j`-th row of the
   * combination, whose sugar and sodium totals respect the focus limits.
   */
  lemma EntriesFollowCombination(targets: Dict, consumed: Dict, catalog: Catalog, draws: seq<seq<nat>>)
    requires ValidDraws(catalog, NumProducts, draws)
    ensures var needs := FocusNeeds(targets, consumed);
      var result := Search(catalog, needs, NumProducts, draws);
      (result.Some? ==> InRange(result.value, |catalog|)) &&
      (|Entries(catalog, result)| == 0 <==> result.None? || result.value == []) &&
      (result.Some? ==>
        (forall j :: 0 <= j < |result.value| ==> Entries(catalog, result)[j] == catalog[result.value[j]]) &&
        !Rejected(Entries(catalog, result), needs))
  {
    var needs := FocusNeeds(targets, consumed);
    SearchIsFirstMinimal(catalog, needs, NumProducts, draws);
  }
}
