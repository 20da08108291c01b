/**
 * A Python `dict`: a finite map that remembers the order in which its keys
 * were first inserted. Iteration follows `keys`; lookup uses `at`.
 */
module Dicts {

  datatype Dict<K(==), V> = Dict(keys: seq<K>, at: map<K, V>)

  /** Every listed key has a value. */
  ghost predicate Listed<K, V>(d: Dict<K, V>)
  {
    forall i :: 0 <= i < |d.keys| ==> d.keys[i] in d.at
  }

  /** Keys are listed once each, and exactly the keys of the map are listed. */
  ghost predicate Valid<K, V>(d: Dict<K, V>)
  {
    && (forall i, j :: 0 <= i < j < |d.keys| ==> d.keys[i] != d.keys[j])
    && (forall k :: k in d.at ==> k in d.keys)
    && Listed(d)
  }

  function Empty<K, V>(): (r: Dict<K, V>)
    ensures Valid(r) && r.keys == []
  {
    Dict([], map[])
  }

  /** `d[k] = v`: a new key goes to the end of the order, an old key keeps its place. */
  function Put<K, V>(d: Dict<K, V>, k: K, v: V): (r: Dict<K, V>)
    ensures k in r.at && r.at[k] == v
  {
    if k in d.at then Dict(d.keys, d.at[k := v]) else Dict(d.keys + [k], d.at[k := v])
  }

  /** Storing a value keeps a dict a dict. */
  lemma PutValid<K, V>(d: Dict<K, V>, k: K, v: V)
    requires Valid(d)
    ensures Valid(Put(d, k, v))
  {
  }

  /** Distinct keys make as many set elements. */
  lemma {:induction false} KeySetSize<K>(ks: seq<K>)
    requires forall i, j :: 0 <= i < j < |ks| ==> ks[i] != ks[j]
    ensures |set i | 0 <= i < |ks| :: ks[i]| == |ks|
  {
    if ks != [] {
      var init := ks[..|ks| - 1];
      KeySetSize(init);
      assert (set i | 0 <= i < |ks| :: ks[i])
          == (set i | 0 <= i < |init| :: init[i]) + {ks[|ks| - 1]};
    }
  }
}
