/** JavaScript's `Map` as a value: a finite map together with the order in which
    its keys were first inserted, which is the order `values()` iterates in.
    Setting an existing key keeps its place; deleting a key removes it. */
module JsMap {
  import opened Js

  datatype OrderedMap<K(==,!new), V> = OrderedMap(keys: seq<K>, entries: map<K, V>) {

    /** Keys are listed once each, and exactly the keys of `entries` are listed. */
    ghost predicate Valid() {
      && Distinct(keys)
      && (forall k :: k in entries <==> k in keys)
    }

    /** Map.prototype.has */
    predicate Has(k: K) {
      k in entries
    }

    /** Map.prototype.get */
    function Get(k: K): (r: Option<V>)
      ensures r.Some? <==> k in entries
      ensures r.Some? ==> r.value == entries[k]
    {
      if k in entries then Some(entries[k]) else None
    }

    /** Map.prototype.set */
    function Set(k: K, v: V): (m: OrderedMap<K, V>)
      requires Valid()
      ensures m.Valid()
      ensures m.entries == entries[k := v]
      ensures k in entries ==> m.keys == keys
      ensures k !in entries ==> m.keys == keys + [k]
    {
      if k in entries then OrderedMap(keys, entries[k := v]) else OrderedMap(keys + [k], entries[k := v])
    }

    /** Map.prototype.delete: the map without `k`. */
    function Delete(k: K): (m: OrderedMap<K, V>)
      requires Valid()
      ensures m.Valid()
      ensures m.entries == entries - {k}
      ensures forall x :: x in m.keys <==> x in keys && x != k
    {
      WithoutDistinct(keys, k);
      OrderedMap(Without(keys, k), entries - {k})
    }

    /** Array.from(map.values()): the values in key-insertion order. */
    function Values(): (vs: seq<V>)
      requires Valid()
      ensures |vs| == |keys|
      ensures forall i :: 0 <= i < |keys| ==> vs[i] == entries[keys[i]]
    {
      seq(|keys|, i requires 0 <= i < |keys| => entries[keys[i]])
    }
  }

  function Empty<K(==,!new), V>(): (m: OrderedMap<K, V>)
    ensures m.Valid() && m.keys == [] && m.entries == map[]
  {
    OrderedMap([], map[])
  }

  predicate Distinct<K(==)>(ks: seq<K>) {
    forall i, j :: 0 <= i < j < |ks| ==> ks[i] != ks[j]
  }

  /** `ks` with every occurrence of `k` removed, the rest in order. */
  function Without<K(==,!new)>(ks: seq<K>, k: K): (r: seq<K>)
    ensures forall x :: x in r <==> x in ks && x != k
  {
    if ks == [] then []
    else if ks[0] == k then Without(ks[1..], k)
    else [ks[0]] + Without(ks[1..], k)
  }

  lemma {:induction false} WithoutDistinct<K(!new)>(ks: seq<K>, k: K)
    requires Distinct(ks)
    ensures Distinct(Without(ks, k))
  {
    if ks != [] {
      WithoutDistinct(ks[1..], k);
      assert ks[0] !in ks[1..];
    }
  }

  /** get after set: the new value under the key set, the old value under
      every other key. */
  lemma GetAfterSet<K(!new), V>(m: OrderedMap<K, V>, k: K, v: V, other: K)
    requires m.Valid()
    ensures m.Set(k, v).Get(k) == Some(v)
    ensures other != k ==> m.Set(k, v).Get(other) == m.Get(other)
  {
  }

  /** Setting a key that is new appends its value at the end of values();
      setting a key that is already there replaces its value in place. */
  lemma ValuesAfterSet<K(!new), V>(m: OrderedMap<K, V>, k: K, v: V)
    requires m.Valid()
    ensures k !in m.entries ==> m.Set(k, v).Values() == m.Values() + [v]
    ensures k in m.entries ==> |m.Set(k, v).Values()| == |m.Values()|
    ensures k in m.entries ==> forall i :: 0 <= i < |m.keys| ==>
      m.Set(k, v).Values()[i] == if m.keys[i] == k then v else m.Values()[i]
  {
  }

  /** delete reports whether the key was there; afterwards it is gone and every
      other key keeps its value. */
  lemma GetAfterDelete<K(!new), V>(m: OrderedMap<K, V>, k: K, other: K)
    requires m.Valid()
    ensures m.Delete(k).Get(k) == None
    ensures other != k ==> m.Delete(k).Get(other) == m.Get(other)
  {
  }
}
