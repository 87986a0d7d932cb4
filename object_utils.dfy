/** The shared object helpers `pick` and `omit`. A plain object is a map from
    key to value; both helpers build a fresh object key by key and leave
    their argument as it was (maps are values here). */
module ObjectUtils {

  /** The keys listed in `keys` that `obj` has, each with `obj`'s value. */
  function Picked<K, V>(obj: map<K, V>, keys: seq<K>): map<K, V> {
    map k | k in obj && k in keys :: obj[k]
  }

  /** The keys of `obj` not listed in `keys`, each with `obj`'s value. */
  function Omitted<K, V>(obj: map<K, V>, keys: seq<K>): map<K, V> {
    map k | k in obj && k !in keys :: obj[k]
  }

  /** `pick(obj, keys)`: walks `keys` and copies each one `obj` has. */
  method Pick<K, V>(obj: map<K, V>, keys: seq<K>) returns (out: map<K, V>)
    ensures out.Keys == obj.Keys * set k | k in keys
    ensures forall k :: k in out ==> out[k] == obj[k]
    ensures out == Picked(obj, keys)
  {
    out := map[];
    for i := 0 to |keys|
      invariant out == Picked(obj, keys[..i])
    {
      var k := keys[i];
      assert keys[..i + 1] == keys[..i] + [k];
      if k in obj {
        out := out[k := obj[k]];
      }
    }
    assert keys[..|keys|] == keys;
  }

  /** `omit(obj, keys)`: walks the keys of `obj` and copies each one that is
      not listed. */
  method Omit<K, V>(obj: map<K, V>, keys: seq<K>) returns (out: map<K, V>)
    ensures out.Keys == obj.Keys - set k | k in keys
    ensures forall k :: k in out ==> out[k] == obj[k]
    ensures out == Omitted(obj, keys)
  {
    out := map[];
    var rest := obj.Keys;
    while rest != {}
      invariant rest <= obj.Keys
      invariant out == map k | k in obj && k !in rest && k !in keys :: obj[k]
      decreases rest
    {
      var k :| k in rest;
      if k !in keys {
        out := out[k := obj[k]];
      }
      rest := rest - {k};
    }
  }

  /** pick and omit with the same keys split the object: disjoint key sets
      whose union is the object, each carrying the object's values. */
  lemma PickOmitPartition<K, V>(obj: map<K, V>, keys: seq<K>)
    ensures Picked(obj, keys).Keys !! Omitted(obj, keys).Keys
    ensures Picked(obj, keys).Keys + Omitted(obj, keys).Keys == obj.Keys
    ensures Picked(obj, keys) + Omitted(obj, keys) == obj
  {
    assert Picked(obj, keys) + Omitted(obj, keys) == obj;
  }

  /** With no keys, pick gives the empty object and omit a copy of `obj`. */
  lemma NoKeys<K, V>(obj: map<K, V>)
    ensures Picked(obj, []) == map[]
    ensures Omitted(obj, []) == obj
  {
  }
}
