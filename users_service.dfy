/** The users resource: a CrudService over the user collection with a fixed
    list of public fields and an access policy keyed on the signed-in user. */
module UsersService {
  import opened Common
  import opened DocumentStore
  import CrudServices

  /** `req.user` as the authentication middleware leaves it. */
  datatype ReqUser = ReqUser(id: Option<string>, role: Option<string>)

  /** The fields a user record exposes; the password hash is not one. */
  const PublicFields: seq<string> :=
    ["_id", "id", "username", "email", "role", "createdAt", "updatedAt", "isActive", "createdBy", "updatedBy"]

  /** `resId === user.id`: the resource's id is `_id.toString()` when `_id`
      is truthy and its `id` property otherwise; strict equality with the
      user's (possibly undefined) id. */
  predicate SameId(resource: Doc, userId: Option<string>) {
    if Has(resource, "_id") then userId == Some(ToText(resource["_id"]))
    else if "id" !in resource then userId.None?
    else resource["id"].Str? && userId == Some(resource["id"].s)
  }

  /** The `allow` policy of the users resource. */
  predicate Allow(action: Action, user: Option<ReqUser>, resource: Option<Doc>) {
    if user.None? then action == Create
    else if user.value.role == Some("admin") then true
    else if action == List then false
    else if action == Create then true
    else if resource.Some? then SameId(resource.value, user.value.id)
    else false
  }

  /** The policy as a hook for the CrudService operations of one request. */
  function Hook(user: Option<ReqUser>): (h: CrudServices.Hook)
    ensures h.Some?
    ensures forall a, r :: CrudServices.Gate(h, a, r).None? <==> Allow(a, user, r)
    ensures forall a, r :: CrudServices.Gate(h, a, r).Some? ==> CrudServices.Gate(h, a, r) == Some(Forbidden)
  {
    Some((a, r) => Ok(Allow(a, user, r)))
  }

  /** Anonymous requests may register and do nothing else. */
  lemma {:induction false} AnonymousOnlyCreates(action: Action, resource: Option<Doc>)
    ensures Allow(action, None, resource) <==> action == Create
  {
  }

  /** Administrators may do everything. */
  lemma {:induction false} AdminMayDoAll(action: Action, id: Option<string>, resource: Option<Doc>)
    ensures Allow(action, Some(ReqUser(id, Some("admin"))), resource)
  {
  }

  /** A signed-in user who is not an administrator never lists users and
      may always create one. */
  lemma {:induction false} NonAdminListsNothing(u: ReqUser, resource: Option<Doc>)
    requires u.role != Some("admin")
    ensures !Allow(List, Some(u), resource)
    ensures Allow(Create, Some(u), resource)
  {
  }

  /** On a stored user record, a signed-in user who is not an administrator
      may read, update or delete exactly their own record; with no record
      found the answer is no. */
  lemma {:induction false} OwnRecordOnly(u: ReqUser, a: Action, key: string, d: Doc)
    requires u.role != Some("admin") && a in {Read, Update, Delete}
    requires Get(d, "_id") == Some(Oid(key))
    ensures Allow(a, Some(u), Some(d)) <==> u.id == Some(key)
    ensures !Allow(a, Some(u), None)
  {
    assert Has(d, "_id");
  }

  /** A plain object with neither `_id` nor `id` compares `undefined` with
      `undefined`: a signed-in user without an id is then allowed. */
  lemma {:induction false} UndefinedIdsCompareEqual(role: Option<string>, a: Action)
    requires a in {Read, Update, Delete}
    ensures Allow(a, Some(ReqUser(None, role)), Some(map[]))
  {
  }

  /** No record the users service returns carries the password hash. */
  lemma {:induction false} NoPasswordLeaves(doc: Doc)
    ensures var r := CrudServices.Sanitized(Some(PublicFields), Some(doc));
      r.Some? && "password" !in r.value && r.value.Keys <= doc.Keys
  {
    assert "password" !in PublicFields;
  }

  /** `findByEmail(email)`: the first user stored with that e-mail. */
  function FindByEmail(users: Collection, email: string): (r: Option<Doc>)
    reads users
    requires users.Valid()
    ensures r.Some? ==> Get(r.value, "email") == Some(Str(email))
    ensures r.None? <==> users.Find(map["email" := Str(email)]) == []
  {
    users.FindOne(map["email" := Str(email)])
  }
}
