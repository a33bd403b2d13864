/**
 * The needs calculator: what is still needed of each tracked nutrient, and
 * which nutrients are below 80% of their daily target ("focus" nutrients).
 * Targets and consumed amounts are dictionaries keyed by caller-chosen names.
 */
module Needs {
  import opened Wrappers
  import opened Dicts

  /** Python's `max(0, x)`. */
  function Max0(x: real): real {
    if 0.0 >= x then 0.0 else x
  }

  /** The remaining needs, key by key in target order. */
  function RemainingNeeds(targets: Dict, consumed: Dict): (r: Dict)
    ensures Keys(r) == Keys(targets)
  {
    seq(|targets|, i requires 0 <= i < |targets| =>
      Entry(targets[i].key, Max0(targets[i].value - Get(consumed, targets[i].key, 0.0))))
  }

  /**
   * `calculate_remaining_needs`: the loop that fills `remaining` one target
   * key at a time.  Target keys are distinct, so each assignment adds a key.
   */
  method CalculateRemainingNeeds(targets: Dict, consumed: Dict) returns (remaining: Dict)
    ensures remaining == RemainingNeeds(targets, consumed)
    ensures forall i :: 0 <= i < |remaining| ==> remaining[i].value >= 0.0
  {
    remaining := [];
    for i := 0 to |targets|
      invariant remaining == RemainingNeeds(targets, consumed)[..i]
    {
      var consumedValue := Get(consumed, targets[i].key, 0.0);
      remaining := remaining + [Entry(targets[i].key, Max0(targets[i].value - consumedValue))];
    }
  }

  /**
   * Looked up by key, a remaining need is the target minus what was consumed
   * (0 when the key was not reported), floored at 0; it is never negative.
   */
  lemma RemainingNeedOf(targets: Dict, consumed: Dict, i: nat)
    requires i < |targets|
    ensures var k := targets[i].key;
      Lookup(RemainingNeeds(targets, consumed), k) ==
        Some(Max0(Get(targets, k, 0.0) - Get(consumed, k, 0.0)))
    ensures Get(RemainingNeeds(targets, consumed), targets[i].key, 0.0) >= 0.0
  {
    var r := RemainingNeeds(targets, consumed);
    var k := targets[i].key;
    assert r[i] == Entry(k, Max0(targets[i].value - Get(consumed, k, 0.0)));
    LookupEntry(targets, i);
    LookupEntry(r, i);
  }

  /** `{k: konsumsi.get(k, 0) for k in target_harian.keys()}` */
  function NormaliseConsumed(targets: Dict, consumed: Dict): (r: Dict)
    ensures Keys(r) == Keys(targets)
  {
    seq(|targets|, i requires 0 <= i < |targets| => Entry(targets[i].key, Get(consumed, targets[i].key, 0.0)))
  }

  /**
   * The normalised consumption has exactly the target keys; for each it is
   * the reported amount, or 0 when the key was not reported.
   */
  lemma NormalisedConsumption(targets: Dict, consumed: Dict, k: string)
    ensures k in Keys(NormaliseConsumed(targets, consumed)) <==> k in Keys(targets)
    ensures k in Keys(targets) ==> Lookup(NormaliseConsumed(targets, consumed), k) == Some(Get(consumed, k, 0.0))
  {
    if k in Keys(targets) {
      var i :| 0 <= i < |targets| && targets[i].key == k;
      LookupEntry(NormaliseConsumed(targets, consumed), i);
    }
  }

  /** A nutrient still to focus on: a positive target of which less than 80% was consumed. */
  predicate InFocus(target: real, consumed: real) {
    target > 0.0 && consumed < 0.8 * target
  }

  /**
   * The focus list: the target keys in focus, in target order.  A key is
   * listed exactly when its target is positive and its consumption is below
   * 80% of it; the list follows the targets' order and repeats no key.
   */
  function FocusKeys(targets: Dict, consumed: Dict): (r: seq<string>)
    ensures IsSubsequence(r, Keys(targets)) && NoDuplicates(r)
    ensures forall k :: k in r ==> k in Keys(targets)
    ensures forall i :: 0 <= i < |targets| ==>
      (targets[i].key in r <==> InFocus(targets[i].value, Get(consumed, targets[i].key, 0.0)))
  {
    if |targets| == 0 then []
    else
      var tail: Dict := targets[1..];
      var rest := FocusKeys(tail, consumed);
      assert Keys(targets) == [targets[0].key] + Keys(tail);
      assert targets[0].key !in Keys(tail);
      if InFocus(targets[0].value, Get(consumed, targets[0].key, 0.0)) then
        [targets[0].key] + rest
      else
        assert rest != [] ==> rest[0] != targets[0].key;
        rest
  }

  /** A nutrient with a target of 0 or less is never a focus nutrient. */
  lemma NonPositiveTargetNeverInFocus(targets: Dict, consumed: Dict, i: nat)
    requires i < |targets| && targets[i].value <= 0.0
    ensures targets[i].key !in FocusKeys(targets, consumed)
  {
  }

  /** `{k: sisa_kebutuhan[k] for k in keys}`; every key must be present (otherwise a `KeyError`). */
  function Restrict(d: Dict, keys: seq<string>): (r: Dict)
    requires forall k :: k in keys ==> k in Keys(d)
    requires NoDuplicates(keys)
    ensures Keys(r) == keys
  {
    seq(|keys|, i requires 0 <= i < |keys| => Entry(keys[i], Lookup(d, keys[i]).value))
  }

  /** The needs handed to the search: the remaining needs of the focus nutrients only. */
  function FocusNeeds(targets: Dict, consumed: Dict): Dict {
    var normalised := NormaliseConsumed(targets, consumed);
    Restrict(RemainingNeeds(targets, normalised), FocusKeys(targets, normalised))
  }

  /**
   * The search sees exactly the focus keys, each with a strictly positive
   * need equal to its target minus the reported consumption.
   */
  lemma FocusNeedsPositive(targets: Dict, consumed: Dict, j: nat)
    requires j < |FocusNeeds(targets, consumed)|
    ensures var e := FocusNeeds(targets, consumed)[j];
      e.key in Keys(targets) &&
      e.value == Get(targets, e.key, 0.0) - Get(consumed, e.key, 0.0) &&
      e.value > 0.0
  {
    var normalised := NormaliseConsumed(targets, consumed);
    var remaining := RemainingNeeds(targets, normalised);
    var focus := FocusKeys(targets, normalised);
    var k := focus[j];
    var e := FocusNeeds(targets, consumed)[j];
    assert e == Entry(k, Lookup(remaining, k).value);
    var i :| 0 <= i < |targets| && targets[i].key == k;
    RemainingNeedOf(targets, normalised, i);
    NormalisedConsumption(targets, consumed, k);
    LookupEntry(targets, i);
    var t, c := Get(targets, k, 0.0), Get(consumed, k, 0.0);
    assert Get(normalised, k, 0.0) == c;
    assert targets[i].key in focus;
    assert InFocus(targets[i].value, Get(normalised, targets[i].key, 0.0));
    assert InFocus(t, c);
    assert e.value == Max0(t - c);
  }

  /**
   * A day with targets of 2000 kcal and 60 g protein and 500 kcal and 10 g
   * consumed: both nutrients are in focus and the search is asked for
   * 1500 kcal and 50 g.
   */
  lemma ExampleDay()
    ensures var targets: Dict := [Entry("energy_kal", 2000.0), Entry("protein_g", 60.0)];
      var consumed: Dict := [Entry("energy_kal", 500.0), Entry("protein_g", 10.0)];
      FocusKeys(targets, NormaliseConsumed(targets, consumed)) == ["energy_kal", "protein_g"] &&
      FocusNeeds(targets, consumed) == [Entry("energy_kal", 1500.0), Entry("protein_g", 50.0)]
  {
    assert "energy_kal"[0] != "protein_g"[0];
    TwoTargetDay("energy_kal", "protein_g");
  }

  lemma TwoTargetDay(a: string, b: string)
    requires a != b
    ensures var targets: Dict := [Entry(a, 2000.0), Entry(b, 60.0)];
      var consumed: Dict := [Entry(a, 500.0), Entry(b, 10.0)];
      FocusKeys(targets, NormaliseConsumed(targets, consumed)) == [a, b] &&
      FocusNeeds(targets, consumed) == [Entry(a, 1500.0), Entry(b, 50.0)]
  {
    var targets: Dict := [Entry(a, 2000.0), Entry(b, 60.0)];
    var consumed: Dict := [Entry(a, 500.0), Entry(b, 10.0)];
    TwoTargetsConsumed(a, b, targets, consumed);
    TwoTargetsFocus(a, b, targets, consumed);
    TwoTargetsRemaining(a, b, targets, consumed);
    var remaining: Dict := [Entry(a, 1500.0), Entry(b, 50.0)];
    LookupEntry(remaining, 0);
    LookupEntry(remaining, 1);
  }

  lemma TwoTargetsConsumed(a: string, b: string, targets: Dict, consumed: Dict)
    requires a != b && targets == [Entry(a, 2000.0), Entry(b, 60.0)] && consumed == [Entry(a, 500.0), Entry(b, 10.0)]
    ensures NormaliseConsumed(targets, consumed) == consumed
  {
    LookupEntry(consumed, 0);
    LookupEntry(consumed, 1);
  }

  lemma TwoTargetsFocus(a: string, b: string, targets: Dict, consumed: Dict)
    requires a != b && targets == [Entry(a, 2000.0), Entry(b, 60.0)] && consumed == [Entry(a, 500.0), Entry(b, 10.0)]
    ensures FocusKeys(targets, consumed) == [a, b]
  {
    LookupEntry(consumed, 0);
    LookupEntry(consumed, 1);
    var tail: Dict := targets[1..];
    assert FocusKeys(tail[1..], consumed) == [];
    assert FocusKeys(tail, consumed) == [b];
  }

  lemma TwoTargetsRemaining(a: string, b: string, targets: Dict, consumed: Dict)
    requires a != b && targets == [Entry(a, 2000.0), Entry(b, 60.0)] && consumed == [Entry(a, 500.0), Entry(b, 10.0)]
    ensures RemainingNeeds(targets, consumed) == [Entry(a, 1500.0), Entry(b, 50.0)]
  {
    LookupEntry(consumed, 0);
    LookupEntry(consumed, 1);
  }
}
