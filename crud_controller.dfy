/** The request handlers `createCrud` builds over one collection: a paged
    list of the live documents, a lookup that hides soft-deleted ones,
    create / patch / put with the acting user stamped into the payload, and
    a remove that soft-deletes documents with a `deleted` flag and
    hard-deletes the others; plus the single-parameter lookups
    `getByParam` and `findByParam`. */
module CrudHandlers {
  import opened Common
  import opened DocumentStore
  import CrudServices

  /** The optional validation schema: `parse` for create and put, and the
      `partial()` schema's `parse` for patch. A parse that throws is an
      `Err`. */
  datatype Schema = Schema(parse: Doc -> Result<Doc>, partial: Doc -> Result<Doc>)

  /** What a handler sends. */
  datatype Body = Documents(docs: seq<Doc>) | Document(doc: Doc) | NotFoundError | Acknowledged
  datatype Response = Response(status: int, body: Body)

  const NotFound404 := Response(404, NotFoundError)

  /** The query of `list`: live documents only. */
  const LiveQuery: Doc := map["deleted" := Bool(false)]

  /** `String(req.params[name])`: an absent parameter prints "undefined". */
  function ParamText(params: map<string, string>, name: string): (r: string)
    ensures name in params ==> r == params[name]
    ensures name !in params ==> r == "undefined"
  {
    if name in params then params[name] else "undefined"
  }

  /** `Math.min(Number(req.query.limit ?? 50), 100)` as written. */
  function LimitAsWritten(requested: Option<int>): (l: int)
    ensures l <= 100
    ensures requested.None? ==> l == 50
    ensures requested.Some? && requested.value <= 100 ==> l == requested.value
  {
    var n := requested.GetOr(50);
    if n < 100 then n else 100
  }

  /** The limit with the cap applied on both sides, so that no request
      reads more than 100 documents. */
  function Limit(requested: Option<int>): (l: int)
    ensures 1 <= l <= 100
    ensures requested.None? ==> l == 50
    ensures requested.Some? && 1 <= requested.value <= 100 ==> l == requested.value
  {
    var n := LimitAsWritten(requested);
    if n < 1 then 1 else n
  }

  /** `Math.max(Number(req.query.skip ?? 0), 0)`. */
  function Skip(requested: Option<int>): (s: nat)
    ensures requested.Some? && requested.value >= 0 ==> s == requested.value
    ensures requested.None? || requested.value <= 0 ==> s == 0
  {
    var n := requested.GetOr(0);
    if n > 0 then n else 0
  }

  /** `.skip(skip).limit(limit)` on a cursor over `docs`: a zero limit means
      no limit, and a negative one returns at most its magnitude. */
  function Window(docs: seq<Doc>, skip: nat, limit: int): (r: seq<Doc>)
    ensures limit == 0 && skip <= |docs| ==> r == docs[skip..]
    ensures limit != 0 ==> |r| <= if limit < 0 then -limit else limit
    ensures |r| <= |docs|
    ensures forall i :: 0 <= i < |r| ==> skip + i < |docs| && r[i] == docs[skip + i]
  {
    var rest := if skip <= |docs| then docs[skip..] else [];
    var cap := if limit < 0 then -limit else limit;
    if limit == 0 || |rest| <= cap then rest else rest[..cap]
  }

  /** `doc.deleted` is truthy. */
  predicate SoftDeleted(d: Doc) {
    Has(d, "deleted")
  }

  /** The payload after the audit stamp of a request whose user id is
      `userId`: a truthy id keeps an existing `createdBy` (null counts as
      missing) or sets it, and always sets `updatedBy`. */
  function StampCreate(data: Doc, userId: Option<string>): Doc {
    if userId.None? || userId.value == "" then data
    else data["createdBy" := Coalesce(Get(data, "createdBy"), Some(Str(userId.value))).value]["updatedBy" := Str(userId.value)]
  }

  /** The stamp of `patch` and `put`: `updatedBy` only. */
  function StampUpdate(data: Doc, userId: Option<string>): Doc {
    if userId.None? || userId.value == "" then data else data["updatedBy" := Str(userId.value)]
  }

  /** What the create stamp does to each audit field. */
  lemma {:induction false} CreateStamp(data: Doc, u: string)
    requires u != ""
    ensures var d := StampCreate(data, Some(u));
      && Get(d, "updatedBy") == Some(Str(u))
      && ("createdBy" in data && data["createdBy"] != Null ==> Get(d, "createdBy") == Get(data, "createdBy"))
      && ("createdBy" !in data || data["createdBy"] == Null ==> Get(d, "createdBy") == Some(Str(u)))
      && d.Keys == data.Keys + {"createdBy", "updatedBy"}
      && forall k :: k in data && k != "createdBy" && k != "updatedBy" ==> d[k] == data[k]
  {
  }

  /** Without a user id, neither stamp changes the payload; with one, the
      update stamp sets `updatedBy` and nothing else. */
  lemma {:induction false} UpdateStamp(data: Doc, userId: Option<string>)
    ensures userId.None? || userId == Some("") ==> StampUpdate(data, userId) == data && StampCreate(data, userId) == data
    ensures userId.Some? && userId.value != "" ==>
      && StampUpdate(data, userId) - {"updatedBy"} == data - {"updatedBy"}
      && Get(StampUpdate(data, userId), "updatedBy") == Some(Str(userId.value))
  {
  }

  /** `{ [fieldName ?? paramName]: value, deleted: false }`: the later
      `deleted` key wins when the field is itself `deleted`. */
  function ParamQuery(field: string, value: string): (q: Doc)
    ensures Get(q, "deleted") == Some(Bool(false))
    ensures field != "deleted" ==> q.Keys == {field, "deleted"} && q[field] == Str(value)
    ensures field == "deleted" ==> q == LiveQuery
  {
    map[field := Str(value)]["deleted" := Bool(false)]
  }

  /** The fields `remove` sets on a soft-deletable document. */
  function SoftDeleteFlags(now: string): Doc {
    map["deleted" := Bool(true), "deletedAt" := Str(now)]
  }

  /** Setting the soft-delete fields flags the document and stamps it, and
      changes nothing else. */
  lemma SoftDeletePatch(d: Doc, now: string)
    ensures Patched(d, SoftDeleteFlags(now)) == d["deleted" := Bool(true)]["deletedAt" := Str(now)]
  {
    var p := Patched(d, SoftDeleteFlags(now));
    var q := d["deleted" := Bool(true)]["deletedAt" := Str(now)];
    assert p.Keys == q.Keys;
    forall k | k in p
      ensures p[k] == q[k]
    {
    }
  }

  /** The documents of a page of live documents are live. */
  lemma {:induction false} WindowOfLive(docs: seq<Doc>, skip: nat, limit: int)
    requires forall i :: 0 <= i < |docs| ==> Matches(docs[i], LiveQuery)
    ensures forall d :: d in Window(docs, skip, limit) ==> d in docs && Get(d, "deleted") == Some(Bool(false))
  {
    var page := Window(docs, skip, limit);
    forall d | d in page
      ensures d in docs && Get(d, "deleted") == Some(Bool(false))
    {
      var i :| 0 <= i < |page| && page[i] == d;
      assert docs[skip + i] == d;
      assert "deleted" in LiveQuery;
    }
  }

  /** The handlers of one `createCrud(options)` call. */
  class Handlers {
    const model: Collection
    const schema: Option<Schema>
    const idParam: string

    constructor (model: Collection, schema: Option<Schema>, idParam: Option<string>)
      requires model.Valid()
      ensures this.model == model && this.schema == schema && this.idParam == idParam.GetOr("id")
    {
      this.model := model;
      this.schema := schema;
      this.idParam := idParam.GetOr("id");
    }

    /** `list` as written: a limit of zero or below escapes the cap. */
    method ListAsWritten(limit: Option<int>, skip: Option<int>) returns (r: Response)
      requires model.Valid()
      ensures r == Response(200, Documents(Window(model.Find(LiveQuery), Skip(skip), LimitAsWritten(limit))))
    {
      var docs := model.Find(LiveQuery);
      r := Response(200, Documents(Window(docs, Skip(skip), LimitAsWritten(limit))));
    }

    /** `list`: one page of the live documents, in store order, at most 100
        of them. */
    method List(limit: Option<int>, skip: Option<int>) returns (r: Response)
      requires model.Valid()
      ensures r.status == 200 && r.body.Documents?
      ensures |r.body.docs| <= 100
      ensures forall d :: d in r.body.docs ==> d in model.docs.Values && Get(d, "deleted") == Some(Bool(false))
      ensures r.body.docs == Window(model.Find(LiveQuery), Skip(skip), Limit(limit))
    {
      var docs := model.Find(LiveQuery);
      var page := Window(docs, Skip(skip), Limit(limit));
      WindowOfLive(docs, Skip(skip), Limit(limit));
      forall d: Doc | d in page
        ensures d in model.docs.Values
      {
        assert model.docs[d["_id"].hex] == d;
      }
      r := Response(200, Documents(page));
    }

    /** `get`: 404 for a missing or soft-deleted document. */
    method GetDoc(params: map<string, string>) returns (r: Result<Response>)
      requires model.Valid()
      ensures var key := CrudServices.KeyOf(ParamText(params, idParam));
        && (key.Err? ==> r == Err(CastError))
        && (key.Ok? && (key.value !in model.docs || SoftDeleted(model.docs[key.value])) ==> r == Ok(NotFound404))
        && (key.Ok? && key.value in model.docs && !SoftDeleted(model.docs[key.value]) ==>
              r == Ok(Response(200, Document(model.docs[key.value]))))
    {
      var key := CrudServices.KeyOf(ParamText(params, idParam));
      if key.Err? {
        return Err(key.failure);
      }
      var doc := model.Lookup(key.value);
      if doc.None? || SoftDeleted(doc.value) {
        return Ok(NotFound404);
      }
      r := Ok(Response(200, Document(doc.value)));
    }

    /** `create`: validate, stamp, insert; `newId` is the generated id. */
    method Create(body: Doc, userId: Option<string>, newId: string) returns (r: Result<Response>)
      requires model.Valid()
      modifies model
      ensures model.Valid()
      ensures schema.Some? && schema.value.parse(body).Err? ==>
        r == Err(schema.value.parse(body).failure) && model.docs == old(model.docs) && model.order == old(model.order)
      ensures schema.None? || schema.value.parse(body).Ok? ==>
        var data := StampCreate(if schema.None? then body else schema.value.parse(body).value, userId);
        && (newId in old(model.docs) ==>
              r == Err(DuplicateKey) && model.docs == old(model.docs) && model.order == old(model.order))
        && (newId !in old(model.docs) ==>
              && r == Ok(Response(201, Document(Stored(data, newId))))
              && model.docs == old(model.docs)[newId := Stored(data, newId)]
              && model.order == old(model.order) + [newId])
    {
      var data := body;
      if schema.Some? {
        var parsed := schema.value.parse(body);
        if parsed.Err? {
          return Err(parsed.failure);
        }
        data := parsed.value;
      }
      data := StampCreate(data, userId);
      var created := model.Insert(newId, data);
      if created.Err? {
        return Err(created.failure);
      }
      r := Ok(Response(201, Document(created.value)));
    }

    /** `patch`: validate against the partial schema, stamp, `$set`. */
    method Patch(params: map<string, string>, body: Doc, userId: Option<string>) returns (r: Result<Response>)
      requires model.Valid()
      modifies model
      ensures model.Valid() && model.order == old(model.order)
      ensures schema.Some? && schema.value.partial(body).Err? ==>
        r == Err(schema.value.partial(body).failure) && model.docs == old(model.docs)
      ensures schema.None? || schema.value.partial(body).Ok? ==>
        var partial := StampUpdate(if schema.None? then body else schema.value.partial(body).value, userId);
        var key := CrudServices.KeyOf(ParamText(params, idParam));
        && (key.Err? ==> r == Err(CastError) && model.docs == old(model.docs))
        && (key.Ok? && key.value !in old(model.docs) ==> r == Ok(NotFound404) && model.docs == old(model.docs))
        && (key.Ok? && key.value in old(model.docs) ==>
              && model.docs == old(model.docs)[key.value := Patched(old(model.docs)[key.value], partial)]
              && r == Ok(Response(200, Document(Patched(old(model.docs)[key.value], partial)))))
    {
      var partial := body;
      if schema.Some? {
        var parsed := schema.value.partial(body);
        if parsed.Err? {
          return Err(parsed.failure);
        }
        partial := parsed.value;
      }
      partial := StampUpdate(partial, userId);
      var key := CrudServices.KeyOf(ParamText(params, idParam));
      if key.Err? {
        return Err(key.failure);
      }
      var doc := model.SetFields(key.value, partial);
      if doc.None? {
        return Ok(NotFound404);
      }
      r := Ok(Response(200, Document(doc.value)));
    }

    /** `put`: validate, stamp, replace the whole document. */
    method Put(params: map<string, string>, body: Doc, userId: Option<string>) returns (r: Result<Response>)
      requires model.Valid()
      modifies model
      ensures model.Valid() && model.order == old(model.order)
      ensures schema.Some? && schema.value.parse(body).Err? ==>
        r == Err(schema.value.parse(body).failure) && model.docs == old(model.docs)
      ensures schema.None? || schema.value.parse(body).Ok? ==>
        var value := StampUpdate(if schema.None? then body else schema.value.parse(body).value, userId);
        var key := CrudServices.KeyOf(ParamText(params, idParam));
        && (key.Err? ==> r == Err(CastError) && model.docs == old(model.docs))
        && (key.Ok? && key.value !in old(model.docs) ==> r == Ok(NotFound404) && model.docs == old(model.docs))
        && (key.Ok? && key.value in old(model.docs) ==>
              && model.docs == old(model.docs)[key.value := Stored(value, key.value)]
              && r == Ok(Response(200, Document(Stored(value, key.value)))))
    {
      var value := body;
      if schema.Some? {
        var parsed := schema.value.parse(body);
        if parsed.Err? {
          return Err(parsed.failure);
        }
        value := parsed.value;
      }
      value := StampUpdate(value, userId);
      var key := CrudServices.KeyOf(ParamText(params, idParam));
      if key.Err? {
        return Err(key.failure);
      }
      var doc := model.Replace(key.value, value);
      if doc.None? {
        return Ok(NotFound404);
      }
      r := Ok(Response(200, Document(doc.value)));
    }

    /** `remove`: a document with a `deleted` field is flagged and stamped
        with `now` and stays stored; any other is deleted. */
    method Remove(params: map<string, string>, now: string) returns (r: Result<Response>)
      requires model.Valid()
      modifies model
      ensures model.Valid()
      ensures var key := CrudServices.KeyOf(ParamText(params, idParam));
        && (key.Err? ==> r == Err(CastError) && model.docs == old(model.docs) && model.order == old(model.order))
        && (key.Ok? && key.value !in old(model.docs) ==>
              r == Ok(NotFound404) && model.docs == old(model.docs) && model.order == old(model.order))
        && (key.Ok? && key.value in old(model.docs) && "deleted" in old(model.docs)[key.value] ==>
              && r == Ok(Response(200, Acknowledged))
              && model.order == old(model.order)
              && model.docs == old(model.docs)[key.value := old(model.docs)[key.value]["deleted" := Bool(true)]["deletedAt" := Str(now)]])
        && (key.Ok? && key.value in old(model.docs) && "deleted" !in old(model.docs)[key.value] ==>
              && r == Ok(Response(200, Acknowledged))
              && model.docs == old(model.docs) - {key.value}
              && model.order == Without(old(model.order), key.value))
    {
      var key := CrudServices.KeyOf(ParamText(params, idParam));
      if key.Err? {
        return Err(key.failure);
      }
      var doc := model.Lookup(key.value);
      if doc.None? {
        return Ok(NotFound404);
      }
      if "deleted" in doc.value {
        var flags := SoftDeleteFlags(now);
        SoftDeletePatch(doc.value, now);
        var saved := model.SetFields(key.value, flags);
        return Ok(Response(200, Acknowledged));
      }
      var deleted := model.Delete(key.value);
      r := Ok(Response(200, Acknowledged));
    }
  }

  /** `getByParam(model, paramName, fieldName)`: the first live document
      whose field equals the parameter's text. */
  method GetByParam(model: Collection, paramName: Option<string>, fieldName: Option<string>, params: map<string, string>)
    returns (r: Response)
    requires model.Valid()
    ensures var q := ParamQuery(fieldName.GetOr(paramName.GetOr("key")), ParamText(params, paramName.GetOr("key")));
      && (model.Find(q) == [] ==> r == NotFound404)
      && (model.Find(q) != [] ==> r == Response(200, Document(model.Find(q)[0])) && Matches(r.body.doc, q))
  {
    var name := paramName.GetOr("key");
    var q := ParamQuery(fieldName.GetOr(name), ParamText(params, name));
    var doc := model.FindOne(q);
    if doc.None? {
      return NotFound404;
    }
    r := Response(200, Document(doc.value));
  }

  /** `findByParam(model, paramName, fieldName)`: every live document whose
      field equals the parameter's text, in store order. */
  method FindByParam(model: Collection, paramName: Option<string>, fieldName: Option<string>, params: map<string, string>)
    returns (r: Response)
    requires model.Valid()
    ensures var q := ParamQuery(fieldName.GetOr(paramName.GetOr("key")), ParamText(params, paramName.GetOr("key")));
      && r.status == 200 && r.body.Documents?
      && (forall d :: d in r.body.docs ==> Get(d, "deleted") == Some(Bool(false)) && Matches(d, q))
      && (forall k :: k in model.docs && Matches(model.docs[k], q) ==> model.docs[k] in r.body.docs)
      && r.body.docs == model.Find(q)
  {
    var name := paramName.GetOr("key");
    var q := ParamQuery(fieldName.GetOr(name), ParamText(params, name));
    var docs := model.Find(q);
    r := Response(200, Documents(docs));
  }

  /** The discrepancy of `list` as written: a limit of 0 turns the cap off,
      so a collection of more than 100 live documents comes back whole. */
  lemma {:induction false} ZeroLimitUncapped(docs: seq<Doc>)
    ensures LimitAsWritten(Some(0)) == 0
    ensures Window(docs, Skip(None), LimitAsWritten(Some(0))) == docs
    ensures |docs| > 100 ==> |Window(docs, Skip(None), LimitAsWritten(Some(0)))| > 100
    ensures |Window(docs, Skip(None), Limit(Some(0)))| <= 1
  {
    assert docs[0..] == docs;
  }

  /** A page of the corrected list never holds more than 100 documents, and
      the default page is the first 50. */
  lemma {:induction false} PageBounds(docs: seq<Doc>, limit: Option<int>, skip: Option<int>)
    ensures |Window(docs, Skip(skip), Limit(limit))| <= 100
    ensures Window(docs, Skip(None), Limit(None)) == if |docs| <= 50 then docs else docs[..50]
  {
    assert docs[0..] == docs;
  }
}
