/** An insertion-ordered dictionary: the model of a Python `dict` whose
    iteration order is the order in which keys were first inserted. Values are
    read through `table`; `keys` remembers the order. */
module Ordered {

  datatype Dict<K(==, !new), V> = Dict(keys: seq<K>, table: map<K, V>) {

    ghost predicate Valid() {
      && (forall i, j | 0 <= i < j < |keys| :: keys[i] != keys[j])
      && (forall k :: k in table <==> k in keys)
    }
  }

  function Empty<K(==, !new), V>(): (d: Dict<K, V>)
    ensures d.Valid() && |d.keys| == 0 && d.table == map[]
  {
    Dict([], map[])
  }

  /** `d[k] = v`: an existing key keeps its position, a new key goes last. */
  function Put<K(==, !new), V>(d: Dict<K, V>, k: K, v: V): (r: Dict<K, V>)
    ensures r.table == d.table[k := v]
    ensures k in d.table ==> r.keys == d.keys
    ensures k !in d.table ==> r.keys == d.keys + [k]
    ensures d.Valid() ==> r.Valid()
  {
    if k in d.table then Dict(d.keys, d.table[k := v])
    else Dict(d.keys + [k], d.table[k := v])
  }

  /** `d.items()` in iteration order. */
  function Items<K(==, !new), V>(d: Dict<K, V>): (r: seq<(K, V)>)
    requires d.Valid()
    ensures |r| == |d.keys|
    ensures forall i | 0 <= i < |r| :: r[i].0 == d.keys[i] && r[i].1 == d.table[d.keys[i]]
  {
    ItemsOf(d.keys, d.table)
  }

  /** Every listed key has a value. */
  lemma KeysInTable<K(!new), V>(d: Dict<K, V>)
    requires d.Valid()
    ensures forall i | 0 <= i < |d.keys| :: d.keys[i] in d.table
  {
  }

  /** A pair is among the items exactly when it is a key with its value. */
  lemma InItems<K(!new), V>(d: Dict<K, V>, k: K, v: V)
    requires d.Valid()
    ensures (k, v) in Items(d) <==> k in d.table && d.table[k] == v
  {
    var items := Items(d);
    if k in d.table && d.table[k] == v {
      var i :| 0 <= i < |d.keys| && d.keys[i] == k;
      assert items[i] == (k, v);
    }
  }

  function ItemsOf<K(==, !new), V>(keys: seq<K>, table: map<K, V>): (r: seq<(K, V)>)
    requires forall i | 0 <= i < |keys| :: keys[i] in table
    ensures |r| == |keys|
    ensures forall i | 0 <= i < |r| :: r[i].0 == keys[i] && r[i].1 == table[keys[i]]
  {
    if |keys| == 0 then []
    else ItemsOf(keys[..|keys| - 1], table) + [(keys[|keys| - 1], table[keys[|keys| - 1]])]
  }
}
