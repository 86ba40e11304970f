/**
 * Insertion-ordered string-keyed dictionaries, the shape of the Python `dict`s
 * that the smoothing stage and the analyzer fill (`points_3d`, `segment_lengths`,
 * `joint_metrics`, ...). Iteration follows `order`; lookups go through `entries`.
 */
module Dicts {

  /** No key is listed twice: each key is absent from the keys listed before it. */
  ghost predicate Distinct(keys: seq<string>)
    decreases |keys|
  {
    keys == [] || (keys[|keys| - 1] !in keys[..|keys| - 1] && Distinct(keys[..|keys| - 1]))
  }

  lemma {:induction false} DistinctPrefix(keys: seq<string>, i: nat)
    requires Distinct(keys) && i <= |keys|
    ensures Distinct(keys[..i])
    decreases |keys|
  {
    if i < |keys| {
      assert keys[..|keys| - 1][..i] == keys[..i];
      DistinctPrefix(keys[..|keys| - 1], i);
    } else {
      assert keys[..i] == keys;
    }
  }

  datatype Dict<V> = Dict(order: seq<string>, entries: map<string, V>)
  {
    /** Keys are listed once each, and the listed keys are exactly the mapped ones. */
    ghost predicate Valid()
    {
      && Distinct(order)
      && (forall k :: k in entries <==> k in order)
    }

    /** Python's `d[k] = v`: a new key goes to the end, an existing one keeps its place. */
    function Put(k: string, v: V): (d: Dict<V>)
      requires Valid()
      ensures d.Valid()
      ensures d.entries == entries[k := v]
      ensures d.order == if k in entries then order else order + [k]
    {
      if k in entries then Dict(order, entries[k := v])
      else
        assert (order + [k])[..|order|] == order;
        Dict(order + [k], entries[k := v])
    }
  }

  function Empty<V>(): (d: Dict<V>)
    ensures d.Valid() && d.order == [] && d.entries == map[]
  {
    Dict([], map[])
  }

  /** A valid dictionary never lists the key at position `k` before `k`. */
  lemma FreshAt<V>(d: Dict<V>, k: nat)
    requires d.Valid() && k < |d.order|
    ensures d.order[k] !in d.order[..k]
  {
    DistinctPrefix(d.order, k + 1);
    assert d.order[..k + 1][..k] == d.order[..k];
  }
}
