/** A Python dict from strings to strings. Python dicts remember the order in
    which keys were first inserted, and that order reaches the page (the
    nutrition entries are listed in it), so the model keeps it: `keys` in
    insertion order, `values` for lookup. */
module PyDict {

  datatype Dict = Dict(keys: seq<string>, values: map<string, string>)
  {
    /** Every key is listed once, and the listed keys are the map's keys. */
    ghost predicate Valid()
    {
      (forall i, j :: 0 <= i < j < |keys| ==> keys[i] != keys[j]) &&
      (forall k :: k in values <==> k in keys)
    }

    /** len(d) */
    function Size(): nat
    {
      |keys|
    }

    /** d[k] = v: an existing key keeps its position and gets the new value;
        a new key goes at the end. */
    function Put(k: string, v: string): (d: Dict)
      ensures Valid() ==> d.Valid()
      ensures k in d.values && d.values[k] == v
      ensures forall k' :: k' != k ==> (k' in d.values <==> k' in values)
      ensures forall k' :: k' != k && k' in values ==> d.values[k'] == values[k']
      ensures k in values ==> d.keys == keys
      ensures k !in values ==> d.keys == keys + [k]
    {
      if k in values then Dict(keys, values[k := v])
      else Dict(keys + [k], values[k := v])
    }
  }

  /** {} */
  const Empty := Dict([], map[])
}
