/**
 * A Python dictionary keyed by integers: its entries, and the order in which
 * `keys()` lists them (the order in which each key was first inserted).
 */
module Dicts {
  import opened Seqs

  datatype Dict<V> = Dict(order: seq<int>, entries: map<int, V>) {

    /** Every key is listed exactly once. */
    ghost predicate Valid()
    {
      IsPermutationOf(order, entries.Keys)
    }

    /** `d[k] = v`: a new key goes to the end of the order, an existing key keeps its place. */
    function Put(k: int, v: V): (d: Dict<V>)
      ensures d.entries == entries[k := v]
      ensures k in entries ==> d.order == order
      ensures k !in entries ==> d.order == order + [k]
      ensures Valid() ==> d.Valid()
    {
      if k in entries then Dict(order, entries[k := v])
      else
        var d := Dict(order + [k], entries[k := v]);
        assert Elements(d.order) == Elements(order) + {k};
        d
    }
  }

  function EmptyDict<V>(): (d: Dict<V>)
    ensures d.Valid() && d.entries == map[]
  {
    Dict([], map[])
  }

  /** `len(d)`: the number of keys. */
  lemma SizeIsOrderLength<V>(d: Dict<V>)
    requires d.Valid()
    ensures |d.order| == |d.entries|
  {
    PermutationLength(d.order, d.entries.Keys);
    assert |d.entries.Keys| == |d.entries|;
  }
}
