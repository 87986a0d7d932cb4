/** An abstract document collection standing in for a Mongoose model: a map
    from ObjectId (canonical hex) to document, plus the insertion order in
    which `find` returns documents. Every stored document carries its id
    under `_id`; the `id` virtual of Mongoose documents is not part of the
    plain-object projection and is never stored. */
module DocumentStore {
  import opened Common

  /** A document matches an equality query when it has every queried field
      with an equal value (a missing field never matches). */
  predicate Matches(d: Doc, query: Doc) {
    forall k :: k in query ==> k in d && d[k] == query[k]
  }

  /** The documents of `ids`, in that order, that match `query`. */
  function Select(ids: seq<string>, docs: map<string, Doc>, query: Doc): (r: seq<Doc>)
    requires forall i :: 0 <= i < |ids| ==> ids[i] in docs
    ensures |r| <= |ids|
    ensures forall i :: 0 <= i < |r| ==> Matches(r[i], query)
    ensures forall d :: d in r <==> exists i :: 0 <= i < |ids| && d == docs[ids[i]] && Matches(d, query)
  {
    if ids == [] then []
    else (if Matches(docs[ids[0]], query) then [docs[ids[0]]] else []) + Select(ids[1..], docs, query)
  }

  /** `s` without the element `x`. */
  function Without(s: seq<string>, x: string): (r: seq<string>)
    ensures forall y :: y in r <==> y in s && y != x
    ensures NoDup(s) ==> NoDup(r)
  {
    if s == [] then []
    else if s[0] == x then Without(s[1..], x)
    else
      assert NoDup(s) ==> NoDup(s[1..]) && s[0] !in s[1..];
      [s[0]] + Without(s[1..], x)
  }

  /** The document the store keeps for `data` under `key`: identity fields
      of the payload are replaced by the store's `_id`. */
  function Stored(data: Doc, key: string): (d: Doc)
    ensures Get(d, "_id") == Some(Oid(key)) && "id" !in d
    ensures forall k :: k in data && k != "_id" && k != "id" ==> k in d && d[k] == data[k]
  {
    (data - {"_id", "id"})["_id" := Oid(key)]
  }

  /** An existing document after `$set` of the fields of `patch`. */
  function Patched(current: Doc, patch: Doc): (d: Doc)
    ensures forall k :: k in patch && k != "_id" && k != "id" ==> k in d && d[k] == patch[k]
    ensures forall k :: k in current && k !in patch ==> k in d && d[k] == current[k]
    ensures d.Keys == current.Keys + (patch.Keys - {"_id", "id"})
  {
    current + (patch - {"_id", "id"})
  }

  class Collection {
    var docs: map<string, Doc>
    var order: seq<string>

    ghost predicate Valid()
      reads this
    {
      && NoDup(order)
      && (forall k :: k in docs <==> k in order)
      && (forall k :: k in docs ==> Get(docs[k], "_id") == Some(Oid(k)) && "id" !in docs[k])
    }

    constructor ()
      ensures Valid() && docs == map[] && order == []
    {
      docs := map[];
      order := [];
    }

    /** `find(query)`: the matching documents in insertion order. */
    function Find(query: Doc): (r: seq<Doc>)
      reads this
      requires Valid()
      ensures forall i :: 0 <= i < |r| ==> Matches(r[i], query)
      ensures forall k :: k in docs && Matches(docs[k], query) ==> docs[k] in r
      ensures forall d: Doc :: d in r ==> "_id" in d && d["_id"].Oid? && d["_id"].hex in docs && docs[d["_id"].hex] == d
    {
      Select(order, docs, query)
    }

    /** `findOne(query)`: the first matching document, if any. */
    function FindOne(query: Doc): (r: Option<Doc>)
      reads this
      requires Valid()
      ensures r.Some? <==> Find(query) != []
      ensures r.Some? ==> r.value == Find(query)[0]
    {
      var found := Find(query);
      if found == [] then None else Some(found[0])
    }

    function Lookup(key: string): (r: Option<Doc>)
      reads this
      ensures r.Some? <==> key in docs
      ensures r.Some? ==> r.value == docs[key]
    {
      if key in docs then Some(docs[key]) else None
    }

    /** `create(data)` with the ObjectId the store generated. */
    method Insert(key: string, data: Doc) returns (r: Result<Doc>)
      requires Valid()
      modifies this
      ensures Valid()
      ensures key in old(docs) ==> r == Err(DuplicateKey) && docs == old(docs) && order == old(order)
      ensures key !in old(docs) ==>
        (r == Ok(Stored(data, key)) && docs == old(docs)[key := Stored(data, key)] && order == old(order) + [key])
    {
      if key in docs {
        r := Err(DuplicateKey);
        return;
      }
      var d := Stored(data, key);
      docs := docs[key := d];
      order := order + [key];
      r := Ok(d);
    }

    /** `findByIdAndUpdate(key, patch, {new: true})`. */
    method SetFields(key: string, patch: Doc) returns (r: Option<Doc>)
      requires Valid()
      modifies this
      ensures Valid() && order == old(order)
      ensures key !in old(docs) ==> r == None && docs == old(docs)
      ensures key in old(docs) ==>
        (r == Some(Patched(old(docs)[key], patch)) && docs == old(docs)[key := Patched(old(docs)[key], patch)])
    {
      if key !in docs {
        r := None;
        return;
      }
      var d := Patched(docs[key], patch);
      docs := docs[key := d];
      r := Some(d);
    }

    /** `findOneAndReplace({_id: key}, value, {new: true})`. */
    method Replace(key: string, value: Doc) returns (r: Option<Doc>)
      requires Valid()
      modifies this
      ensures Valid() && order == old(order)
      ensures key !in old(docs) ==> r == None && docs == old(docs)
      ensures key in old(docs) ==>
        (r == Some(Stored(value, key)) && docs == old(docs)[key := Stored(value, key)])
    {
      if key !in docs {
        r := None;
        return;
      }
      var d := Stored(value, key);
      docs := docs[key := d];
      r := Some(d);
    }

    /** `findByIdAndDelete(key)` / `deleteOne({_id: key})`. */
    method Delete(key: string) returns (r: Option<Doc>)
      requires Valid()
      modifies this
      ensures Valid()
      ensures r == old(Lookup(key))
      ensures docs == old(docs) - {key} && order == Without(old(order), key)
    {
      r := Lookup(key);
      docs := docs - {key};
      order := Without(order, key);
    }
  }
}
