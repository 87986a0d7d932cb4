/** The generic CRUD service: every operation asks the resource's `allow`
    policy first (with no resource for create and list, with the record
    fetched by id for read, update and delete), then acts on the collection,
    and returns its records through `sanitize`. */
module CrudServices {
  import opened Common
  import opened DocumentStore
  import ObjectIds

  /** The `allow` option, already applied to the request of the call:
      `None` when the service was built without one. A policy may throw, so
      its answer is a `Result`. */
  type Hook = Option<(Action, Option<Doc>) -> Result<bool>>

  /** Why the policy stops an operation: `None` when there is no policy or it
      answers yes, `Forbidden` when it answers no, and its own failure when it
      throws. */
  function Gate(allow: Hook, a: Action, resource: Option<Doc>): (g: Option<Failure>)
    ensures allow.None? ==> g.None?
    ensures allow.Some? && allow.value(a, resource) == Ok(false) ==> g == Some(Forbidden)
    ensures allow.Some? && allow.value(a, resource).Err? ==> g == Some(allow.value(a, resource).failure)
    ensures g.None? <==> allow.None? || allow.value(a, resource) == Ok(true)
  {
    if allow.None? then None
    else match allow.value(a, resource)
      case Err(f) => Some(f)
      case Ok(yes) => if yes then None else Some(Forbidden)
  }

  /** What `sanitize` returns: null stays null, no field list returns the
      document itself, a field list keeps the listed fields it has. */
  function Sanitized(publicFields: Option<seq<string>>, doc: Option<Doc>): Option<Doc> {
    if doc.None? then None
    else if publicFields.None? then doc
    else Some(map f | f in doc.value && f in publicFields.value :: doc.value[f])
  }

  /** The store key for an id string, or the CastError Mongoose raises. */
  function KeyOf(id: string): Result<string> {
    match ObjectIds.Cast(id)
    case Some(k) => Ok(k)
    case None => Err(CastError)
  }

  class CrudService {
    const model: Collection
    const publicFields: Option<seq<string>>

    ghost predicate Valid()
      reads this, model
    {
      model.Valid()
    }

    constructor (model: Collection, publicFields: Option<seq<string>>)
      requires model.Valid()
      ensures Valid() && this.model == model && this.publicFields == publicFields
    {
      this.model := model;
      this.publicFields := publicFields;
    }

    /** `sanitize(doc)`: fills `out` field by field from the public list. */
    method Sanitize(doc: Option<Doc>) returns (r: Option<Doc>)
      ensures doc.None? ==> r.None?
      ensures doc.Some? && publicFields.None? ==> r == doc
      ensures doc.Some? && publicFields.Some? ==>
        r.Some? && r.value.Keys == doc.value.Keys * (set f | f in publicFields.value)
      ensures r.Some? ==> forall f :: f in r.value ==> f in doc.value && r.value[f] == doc.value[f]
      ensures r == Sanitized(publicFields, doc)
    {
      if doc.None? {
        return None;
      }
      if publicFields.None? {
        return doc;
      }
      var fields := publicFields.value;
      var obj := doc.value;
      var out: Doc := map[];
      for i := 0 to |fields|
        invariant out == map f | f in obj && f in fields[..i] :: obj[f]
      {
        var f := fields[i];
        assert fields[..i + 1] == fields[..i] + [f];
        if f in obj {
          out := out[f := obj[f]];
        }
      }
      assert fields[..|fields|] == fields;
      r := Some(out);
    }

    /** `create(data)`: authorized with no resource; `newId` is the
        ObjectId the store generates. */
    method Create(data: Doc, allow: Hook, newId: string) returns (r: Result<Doc>)
      requires Valid()
      modifies model
      ensures Valid()
      ensures Gate(allow, Action.Create, None).Some? ==>
        r == Err(Gate(allow, Action.Create, None).value) && unchanged(model)
      ensures Gate(allow, Action.Create, None).None? && newId in old(model.docs) ==>
        r == Err(DuplicateKey) && model.docs == old(model.docs) && model.order == old(model.order)
      ensures Gate(allow, Action.Create, None).None? && newId !in old(model.docs) ==>
        && model.docs == old(model.docs)[newId := Stored(data, newId)]
        && model.order == old(model.order) + [newId]
        && r == Ok(Sanitized(publicFields, Some(Stored(data, newId))).value)
    {
      var denied := Gate(allow, Action.Create, None);
      if denied.Some? {
        return Err(denied.value);
      }
      var created := model.Insert(newId, data);
      if created.Err? {
        return Err(created.failure);
      }
      var out := Sanitize(Some(created.value));
      r := Ok(out.value);
    }

    /** `findAll(filter)`: authorized as a list, then one sanitized entry per
        stored match, in store order. */
    method FindAll(filter: Doc, allow: Hook) returns (r: Result<seq<Doc>>)
      requires Valid()
      ensures Gate(allow, List, None).Some? ==> r == Err(Gate(allow, List, None).value)
      ensures Gate(allow, List, None).None? ==>
        && r.Ok?
        && |r.value| == |model.Find(filter)|
        && forall i :: 0 <= i < |r.value| ==>
             Some(r.value[i]) == Sanitized(publicFields, Some(model.Find(filter)[i]))
    {
      var denied := Gate(allow, List, None);
      if denied.Some? {
        return Err(denied.value);
      }
      var out := SanitizeAll(model.Find(filter));
      r := Ok(out);
    }

    /** `docs.map((d) => this.sanitize(d))`. */
    method SanitizeAll(docs: seq<Doc>) returns (out: seq<Doc>)
      ensures |out| == |docs|
      ensures forall i :: 0 <= i < |out| ==> Some(out[i]) == Sanitized(publicFields, Some(docs[i]))
    {
      out := [];
      for i := 0 to |docs|
        invariant |out| == i
        invariant forall j :: 0 <= j < i ==> Some(out[j]) == Sanitized(publicFields, Some(docs[j]))
      {
        var d := Sanitize(Some(docs[i]));
        assert d.Some? && Some(d.value) == Sanitized(publicFields, Some(docs[i]));
        out := out + [d.value];
      }
    }

    /** `findById(id)`: fetch, then authorize a read against what was found
        (possibly nothing). */
    method FindById(id: string, allow: Hook) returns (r: Result<Option<Doc>>)
      requires Valid()
      ensures KeyOf(id).Err? ==> r == Err(CastError)
      ensures KeyOf(id).Ok? && Gate(allow, Read, model.Lookup(KeyOf(id).value)).Some? ==>
        r == Err(Gate(allow, Read, model.Lookup(KeyOf(id).value)).value)
      ensures KeyOf(id).Ok? && Gate(allow, Read, model.Lookup(KeyOf(id).value)).None? ==>
        r == Ok(Sanitized(publicFields, model.Lookup(KeyOf(id).value)))
    {
      var key := KeyOf(id);
      if key.Err? {
        return Err(key.failure);
      }
      var doc := model.Lookup(key.value);
      var denied := Gate(allow, Read, doc);
      if denied.Some? {
        return Err(denied.value);
      }
      var out := Sanitize(doc);
      r := Ok(out);
    }

    /** `update(id, data)`: fetch the existing record, authorize against it,
        then `$set` the payload; an absent id gives null and no change. */
    method Update(id: string, data: Doc, allow: Hook) returns (r: Result<Option<Doc>>)
      requires Valid()
      modifies model
      ensures Valid()
      ensures KeyOf(id).Err? ==> r == Err(CastError) && unchanged(model)
      ensures KeyOf(id).Ok? && Gate(allow, Action.Update, old(model.Lookup(KeyOf(id).value))).Some? ==>
        r == Err(Gate(allow, Action.Update, old(model.Lookup(KeyOf(id).value))).value) && unchanged(model)
      ensures KeyOf(id).Ok? && Gate(allow, Action.Update, old(model.Lookup(KeyOf(id).value))).None? ==>
        var key := KeyOf(id).value;
        && model.order == old(model.order)
        && (key !in old(model.docs) ==> r == Ok(None) && model.docs == old(model.docs))
        && (key in old(model.docs) ==>
              && model.docs == old(model.docs)[key := Patched(old(model.docs)[key], data)]
              && r == Ok(Sanitized(publicFields, Some(Patched(old(model.docs)[key], data)))))
    {
      var key := KeyOf(id);
      if key.Err? {
        return Err(key.failure);
      }
      var existing := model.Lookup(key.value);
      var denied := Gate(allow, Action.Update, existing);
      if denied.Some? {
        return Err(denied.value);
      }
      var updated := model.SetFields(key.value, data);
      var out := Sanitize(updated);
      r := Ok(out);
    }

    /** `remove(id)`: fetch, authorize a delete against the record, then
        delete it physically and return it sanitized. */
    method Remove(id: string, allow: Hook) returns (r: Result<Option<Doc>>)
      requires Valid()
      modifies model
      ensures Valid()
      ensures KeyOf(id).Err? ==> r == Err(CastError) && unchanged(model)
      ensures KeyOf(id).Ok? && Gate(allow, Delete, old(model.Lookup(KeyOf(id).value))).Some? ==>
        r == Err(Gate(allow, Delete, old(model.Lookup(KeyOf(id).value))).value) && unchanged(model)
      ensures KeyOf(id).Ok? && Gate(allow, Delete, old(model.Lookup(KeyOf(id).value))).None? ==>
        var key := KeyOf(id).value;
        && key !in model.docs
        && model.docs == old(model.docs) - {key}
        && model.order == Without(old(model.order), key)
        && r == Ok(Sanitized(publicFields, old(model.Lookup(key))))
    {
      var key := KeyOf(id);
      if key.Err? {
        return Err(key.failure);
      }
      var existing := model.Lookup(key.value);
      var denied := Gate(allow, Delete, existing);
      if denied.Some? {
        return Err(denied.value);
      }
      var deleted := model.Delete(key.value);
      var out := Sanitize(deleted);
      r := Ok(out);
    }
  }
}
