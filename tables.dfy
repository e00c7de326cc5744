/**
 * A JavaScript object used as a dictionary (`self.attribs = {}`): its
 * string-keyed properties, which `for ... in` visits in insertion order.
 */
module Tables {
  datatype Table<V> = Table(keys: seq<string>, entries: map<string, V>)
  {
    /** Every key is listed once, and the listed keys are exactly the properties. */
    predicate Valid() {
      (forall i, j | 0 <= i < j < |keys| :: keys[i] != keys[j]) &&
      Listed() &&
      (forall k | k in entries :: k in keys)
    }

    /** Every listed key is a property. */
    predicate Listed() {
      forall k | k in keys :: k in entries
    }

    /**
     * `obj[k] = v`: the value is replaced; an existing property keeps its
     * place in the enumeration order and a new one goes last.
     */
    function Put(k: string, v: V): (t: Table<V>)
      ensures t.entries == entries[k := v]
      ensures Valid() && k in keys ==> t.keys == keys
      ensures Valid() && k !in keys ==> t.keys == keys + [k]
    {
      Table(if k in entries then keys else keys + [k], entries[k := v])
    }

    /** Assigning a property keeps the table well formed. */
    lemma {:induction false} PutValid(k: string, v: V)
      requires Valid()
      ensures Put(k, v).Valid()
    {
      var t := Put(k, v);
      if k !in keys {
        forall i, j | 0 <= i < j < |t.keys| ensures t.keys[i] != t.keys[j] {
          if j < |keys| {
            assert t.keys[i] == keys[i] && t.keys[j] == keys[j];
          } else {
            assert t.keys[i] == keys[i];
          }
        }
      }
    }

    /** The values in enumeration order, as `for (var i in obj) obj[i]` visits them. */
    function Values(): (s: seq<V>)
      requires Listed()
      ensures |s| == |keys| && forall i | 0 <= i < |keys| :: s[i] == entries[keys[i]]
    {
      ValuesOf(keys)
    }

    /** The values under `ks`, in the order of `ks`. */
    function ValuesOf(ks: seq<string>): (s: seq<V>)
      requires forall k | k in ks :: k in entries
      ensures |s| == |ks| && forall i | 0 <= i < |ks| :: s[i] == entries[ks[i]]
    {
      if ks == [] then [] else ValuesOf(ks[..|ks| - 1]) + [entries[ks[|ks| - 1]]]
    }
  }

  /** `{}` */
  function EmptyTable<V>(): (t: Table<V>)
    ensures t.Valid() && t.keys == []
  {
    Table([], map[])
  }
}
