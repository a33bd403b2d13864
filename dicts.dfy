/**
 * Python dictionaries keyed by caller-chosen nutrient names (`target_harian`,
 * `konsumsi`, the remaining needs).  A dictionary keeps its insertion order and
 * never holds a key twice, so it is modelled as an ordered list of entries with
 * distinct keys.
 */
module Dicts {
  import opened Wrappers

  datatype Entry = Entry(key: string, value: real)

  ghost predicate DistinctKeys(d: seq<Entry>) {
    forall i, j :: 0 <= i < j < |d| ==> d[i].key != d[j].key
  }

  type Dict = d: seq<Entry> | DistinctKeys(d) witness []

  /** The keys in insertion order (`d.keys()`). */
  function Keys(d: seq<Entry>): (ks: seq<string>)
    ensures |ks| == |d|
    ensures forall i :: 0 <= i < |d| ==> ks[i] == d[i].key
  {
    seq(|d|, i requires 0 <= i < |d| => d[i].key)
  }

  /** `d[k]` if `k` is a key of `d`, otherwise `None`. */
  function Lookup(d: seq<Entry>, k: string): (r: Option<real>)
    ensures r.None? <==> k !in Keys(d)
    ensures r.Some? ==> Entry(k, r.value) in d
  {
    if |d| == 0 then None
    else if d[0].key == k then Some(d[0].value)
    else
      assert Keys(d) == [d[0].key] + Keys(d[1..]);
      Lookup(d[1..], k)
  }

  /** Python's `d.get(k, default)`. */
  function Get(d: seq<Entry>, k: string, default: real): real {
    Lookup(d, k).GetOr(default)
  }

  /** In a dictionary, looking up the key of an entry finds that entry's value. */
  lemma {:induction false} LookupEntry(d: Dict, i: nat)
    requires i < |d|
    ensures Lookup(d, d[i].key) == Some(d[i].value)
  {
    if d[0].key != d[i].key {
      var tail: Dict := d[1..];
      LookupEntry(tail, i - 1);
    }
  }

  /** `xs` lists some of the elements of `ys`, in the order `ys` has them. */
  predicate IsSubsequence(xs: seq<string>, ys: seq<string>)
    decreases |ys|
  {
    if xs == [] then true
    else if ys == [] then false
    else if xs[0] == ys[0] then IsSubsequence(xs[1..], ys[1..])
    else IsSubsequence(xs, ys[1..])
  }

  predicate NoDuplicates(xs: seq<string>) {
    forall i, j :: 0 <= i < j < |xs| ==> xs[i] != xs[j]
  }
}
