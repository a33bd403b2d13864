/** The seven nutrients of a nutrition label and of the health score, in label order. */
module Nutrients {

  datatype Nutrient = Energi | Protein | LemakTotal | Karbohidrat | Serat | Gula | Garam

  /** The fixed key order of the label table and of the health-score arguments. */
  const AllNutrients: seq<Nutrient> := [Energi, Protein, LemakTotal, Karbohidrat, Serat, Gula, Garam]

  /** The position of a nutrient in `AllNutrients`. */
  function Index(n: Nutrient): (k: nat)
    ensures k < |AllNutrients| && AllNutrients[k] == n
  {
    match n
    case Energi => 0
    case Protein => 1
    case LemakTotal => 2
    case Karbohidrat => 3
    case Serat => 4
    case Gula => 5
    case Garam => 6
  }

  /** `Index` and `AllNutrients` are inverse: each position holds a different nutrient. */
  lemma IndexOfListed(k: nat)
    requires k < |AllNutrients|
    ensures Index(AllNutrients[k]) == k
  {
  }

  lemma AllNutrientsListed()
    ensures forall n: Nutrient :: n in AllNutrients
  {
    forall n: Nutrient
      ensures n in AllNutrients
    {
      assert AllNutrients[Index(n)] == n;
    }
  }
}
