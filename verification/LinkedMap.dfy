/** Maps that remember the order in which their keys were first put. */
module LinkedMaps {

  predicate Distinct<K(==)>(keys: seq<K>) {
    keys == [] || (keys[|keys| - 1] !in keys[..|keys| - 1] && Distinct(keys[..|keys| - 1]))
  }

  lemma {:induction false} DistinctAt<K>(keys: seq<K>, i: nat, j: nat)
    requires Distinct(keys) && i < j < |keys|
    ensures keys[i] != keys[j]
  {
    var prefix := keys[..|keys| - 1];
    if j < |prefix| {
      DistinctAt(prefix, i, j);
    } else {
      assert prefix[i] == keys[i];
    }
  }

  datatype LinkedMap<K(==, !new), V> = LinkedMap(keys: seq<K>, table: map<K, V>) {
    ghost predicate Valid() {
      Distinct(keys) && forall k :: k in keys <==> k in table
    }

    // A key that is already there keeps its place.
    function Put(k: K, v: V): (r: LinkedMap<K, V>)
      ensures Valid() ==> r.Valid()
      ensures keys <= r.keys && r.table == table[k := v]
    {
      var r := LinkedMap(if k in table then keys else keys + [k], table[k := v]);
      assert (keys + [k])[..|keys|] == keys;
      r
    }
  }

  ghost predicate Injective<K(!new)>(rename: K -> K) {
    forall a, b :: rename(a) == rename(b) ==> a == b
  }

  // m after the first i entries of `from` were put under renamed keys.
  function PutAll<K(==, !new), V>(m: LinkedMap<K, V>, rename: K -> K, from: LinkedMap<K, V>, i: nat): LinkedMap<K, V>
    requires i <= |from.keys| && forall k :: k in from.keys ==> k in from.table
  {
    if i == 0 then m
    else var k := from.keys[i - 1]; PutAll(m, rename, from, i - 1).Put(rename(k), from.table[k])
  }

  lemma {:induction false} PutAllValid<K(!new), V>(m: LinkedMap<K, V>, rename: K -> K, from: LinkedMap<K, V>, i: nat)
    requires m.Valid() && from.Valid() && i <= |from.keys|
    ensures PutAll(m, rename, from, i).Valid() && m.keys <= PutAll(m, rename, from, i).keys
    ensures i > 0 && m.keys == [] ==>
      var r := PutAll(m, rename, from, i); r.keys != [] && r.keys[0] == rename(from.keys[0])
  {
    if i > 0 { PutAllValid(m, rename, from, i - 1); }
  }

  predicate Renamed<K(==, !new), V>(rename: K -> K, from: LinkedMap<K, V>, i: nat, k: K)
    requires i <= |from.keys|
  {
    exists j :: 0 <= j < i && k == rename(from.keys[j])
  }

  // r holds the first i entries of `from` ...
  ghost predicate MergedHas<K(!new), V>(rename: K -> K, from: LinkedMap<K, V>, i: nat, r: map<K, V>)
    requires i <= |from.keys| && forall k :: k in from.keys ==> k in from.table
  {
    forall j :: 0 <= j < i ==> rename(from.keys[j]) in r && r[rename(from.keys[j])] == from.table[from.keys[j]]
  }

  // ... and is otherwise m.
  ghost predicate MergedOnly<K(!new), V>(m: map<K, V>, rename: K -> K, from: LinkedMap<K, V>, i: nat, r: map<K, V>)
    requires i <= |from.keys|
  {
    && m.Keys <= r.Keys
    && forall k :: k in r && !Renamed(rename, from, i, k) ==> k in m && r[k] == m[k]
  }

  lemma {:induction false} PutAllHas<K(!new), V>(m: LinkedMap<K, V>, rename: K -> K, from: LinkedMap<K, V>, i: nat)
    requires from.Valid() && Injective(rename) && i <= |from.keys|
    ensures MergedHas(rename, from, i, PutAll(m, rename, from, i).table)
  {
    if i > 0 {
      PutAllHas(m, rename, from, i - 1);
      forall j | 0 <= j < i - 1 ensures rename(from.keys[j]) != rename(from.keys[i - 1]) {
        DistinctAt(from.keys, j, i - 1);
      }
    }
  }

  lemma {:induction false} PutAllOnly<K(!new), V>(m: LinkedMap<K, V>, rename: K -> K, from: LinkedMap<K, V>, i: nat)
    requires from.Valid() && i <= |from.keys|
    ensures MergedOnly(m.table, rename, from, i, PutAll(m, rename, from, i).table)
  {
    if i > 0 {
      PutAllOnly(m, rename, from, i - 1);
      forall k | !Renamed(rename, from, i, k)
          ensures !Renamed(rename, from, i - 1, k) && k != rename(from.keys[i - 1]) {
      }
    }
  }

  lemma PutAllMerges<K(!new), V>(m: LinkedMap<K, V>, rename: K -> K, from: LinkedMap<K, V>, i: nat)
    requires from.Valid() && Injective(rename) && i <= |from.keys|
    ensures var r := PutAll(m, rename, from, i).table;
      MergedHas(rename, from, i, r) && MergedOnly(m.table, rename, from, i, r)
  {
    PutAllHas(m, rename, from, i);
    PutAllOnly(m, rename, from, i);
  }
}
