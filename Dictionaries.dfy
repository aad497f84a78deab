/** The `Dictionary<string, V>` values the comparers receive, and the two
    key filters they are built from. A dictionary is its keys in enumeration
    order (distinct, as dictionary keys are) together with its entries; the
    order only decides the order of the lists the comparers return. */
module Dictionaries {

  predicate Distinct<T(==)>(s: seq<T>) {
    forall i, j :: 0 <= i < j < |s| ==> s[i] != s[j]
  }

  datatype Dictionary<V> = Dictionary(keys: seq<string>, entries: map<string, V>) {
    /** Every entry is enumerated exactly once. */
    predicate Valid() {
      Distinct(keys) && (forall k :: k in keys ==> k in entries) && (forall k :: k in entries ==> k in keys)
    }

    predicate ContainsKey(k: string) {
      k in entries
    }
  }

  /** The keys of `keys` that are not in `other`, in their order. */
  function KeysNotIn(keys: seq<string>, other: set<string>): (r: seq<string>)
    ensures forall k :: k in r <==> k in keys && k !in other
    ensures |r| <= |keys|
  {
    if keys == [] then []
    else
      var last := keys[|keys| - 1];
      KeysNotIn(keys[..|keys| - 1], other) + (if last in other then [] else [last])
  }

  /** One more key extends the filtered prefix by that key or by nothing. */
  lemma KeysNotInSnoc(keys: seq<string>, i: nat, other: set<string>)
    requires i < |keys|
    ensures keys[i] in other ==> KeysNotIn(keys[..i + 1], other) == KeysNotIn(keys[..i], other)
    ensures keys[i] !in other ==> KeysNotIn(keys[..i + 1], other) == KeysNotIn(keys[..i], other) + [keys[i]]
  {
    assert keys[..i + 1][..i] == keys[..i];
  }

  /** Filtering out a superset of the keys leaves nothing. */
  lemma {:induction false} KeysNotInAll(keys: seq<string>, other: set<string>)
    requires forall k :: k in keys ==> k in other
    ensures KeysNotIn(keys, other) == []
  {
    if keys != [] {
      KeysNotInAll(keys[..|keys| - 1], other);
    }
  }

  /** The keys of `keys` that are also in `other`, in their order. */
  function KeysIn(keys: seq<string>, other: set<string>): (r: seq<string>)
    ensures forall k :: k in r <==> k in keys && k in other
    ensures |r| <= |keys|
  {
    if keys == [] then []
    else
      var last := keys[|keys| - 1];
      KeysIn(keys[..|keys| - 1], other) + (if last in other then [last] else [])
  }

  /** Filtering distinct keys keeps them distinct. */
  lemma {:induction false} KeysNotInDistinct(keys: seq<string>, other: set<string>)
    requires Distinct(keys)
    ensures Distinct(KeysNotIn(keys, other))
  {
    if keys != [] {
      var init := keys[..|keys| - 1];
      assert Distinct(init);
      KeysNotInDistinct(init, other);
      assert keys[|keys| - 1] !in init;
    }
  }

  /** Filtering distinct keys keeps them distinct. */
  lemma {:induction false} KeysInDistinct(keys: seq<string>, other: set<string>)
    requires Distinct(keys)
    ensures Distinct(KeysIn(keys, other))
  {
    if keys != [] {
      var init := keys[..|keys| - 1];
      assert Distinct(init);
      KeysInDistinct(init, other);
      assert keys[|keys| - 1] !in init;
    }
  }

  /** Over a whole dictionary, the filters select by entry. */
  lemma KeysNotInOfDictionary<V>(d: Dictionary<V>, other: set<string>)
    requires d.Valid()
    ensures forall p :: p in KeysNotIn(d.keys, other) <==> p in d.entries && p !in other
  {
  }

  lemma KeysInOfDictionary<V>(d: Dictionary<V>, other: set<string>)
    requires d.Valid()
    ensures forall p :: p in KeysIn(d.keys, other) <==> p in d.entries && p in other
  {
  }
}
