/** A table of the keystore: rows with a unique key, listed in the order they were first inserted. */
module Tables {
  import opened Wrappers
  import opened Sequences

  datatype Rows<K(==, !new), +V> = Rows(order: seq<K>, rows: map<K, V>) {

    ghost predicate Valid() {
      NoDup(order) && Elements(order) == rows.Keys
    }

    /** The row with key `k`, as `find_one` reads it. */
    function Find(k: K): (r: Option<V>)
      ensures r == None <==> k !in rows
      ensures r.Some? ==> r.value == rows[k]
    {
      if k in rows then Some(rows[k]) else None
    }

    /** `save`: overwrites the row with key `k` in place, or appends a new one. */
    function Upsert(k: K, v: V): (t: Table<K, V>)
      requires Valid()
      ensures t.rows == rows[k := v]
    {
      assert forall i :: 0 <= i < |order| ==> (order + [k])[i] in order;
      assert Elements(order + [k]) == Elements(order) + {k};
      Rows(if k in rows then order else order + [k], rows[k := v])
    }

    /** `delete` of one row. */
    function Delete(k: K): (t: Table<K, V>)
      requires Valid()
      ensures t.rows == rows - {k}
    {
      WithoutNoDup(order, k);
      Rows(Without(order, k), rows - {k})
    }

    /** `find_all`: every row, in order. */
    function FindAll(): (r: seq<(K, V)>)
      requires Valid()
      ensures |r| == |order|
      ensures forall i :: 0 <= i < |r| ==> r[i].0 == order[i] && order[i] in rows && r[i].1 == rows[order[i]]
    {
      assert forall i :: 0 <= i < |order| ==> order[i] in Elements(order);
      seq(|order|, i requires 0 <= i < |order| && order[i] in rows => (order[i], rows[order[i]]))
    }
  }

  type Table<K(==, !new), +V> = t: Rows<K, V> | t.Valid() witness Rows([], map[])
}
