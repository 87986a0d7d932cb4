/** The contacts resource: a CrudService over the contact collection whose
    policy lets the owner do everything and a user the contact is shared
    with read it, plus the share collection that backs the derived
    `sharedWith` list of every contact it returns. */
module Contacts {
  import opened Common
  import opened DocumentStore
  import ObjectIds
  import CrudServices
  import opened ContactShares

  /** The fields a contact record exposes. */
  const PublicFields: seq<string> :=
    ["_id", "id", "firstName", "lastName", "phoneNumber", "email", "address", "owner",
     "createdAt", "updatedAt", "isActive", "createdBy", "updatedBy"]

  /** `req.user.id` is present and non-empty. */
  predicate SignedIn(userId: Option<string>) {
    userId.Some? && userId.value != ""
  }

  /** `toStringId(value)`: an ObjectId as its hex text, a non-empty string
      as itself, anything else as undefined. */
  function ToStringId(v: Option<Value>): (r: Option<string>)
    ensures r.Some? ==> v.Some? && ToText(v.value) == r.value
    ensures v.Some? && v.value.Oid? ==> r == Some(v.value.hex)
    ensures r.None? ==> v.None? || !Truthy(v.value) || !(v.value.Oid? || v.value.Str?)
  {
    match v
    case Some(Oid(h)) => Some(h)
    case Some(Str(s)) => if s == "" then None else Some(s)
    case _ => None
  }

  /** `extractOwnerId(resource)`: the owner field as text; it applies the
      same rules as `toStringId`. */
  function ExtractOwnerId(resource: Doc): Option<string> {
    ToStringId(Get(resource, "owner"))
  }

  /** `new Types.ObjectId(v)` for an id value: ObjectIds pass, strings are
      cast, anything else is refused. */
  function OidOf(v: Value): Option<string> {
    match v
    case Oid(h) => Some(h)
    case Str(s) => ObjectIds.Cast(s)
    case _ => None
  }

  /** `isSharedWith(resource, userId)`: a share (contact, user) exists, the
      contact id being `_id ?? id`; casting either id can throw. */
  function IsSharedWith(resource: Doc, userId: string, shares: seq<Share>): (r: Result<bool>)
    ensures r.Ok? && r.value ==> ObjectIds.Cast(userId).Some?
  {
    var cid := Coalesce(Get(resource, "_id"), Get(resource, "id"));
    if cid.None? || !Truthy(cid.value) then Ok(false)
    else
      match (OidOf(cid.value), ObjectIds.Cast(userId))
      case (Some(c), Some(u)) => Ok(u in SharedUsers(shares, c))
      case _ => Err(CastError)
  }

  /** `canPerform(action, req, resource)`: the contacts policy. */
  function CanPerform(action: Action, userId: Option<string>, resource: Option<Doc>, shares: seq<Share>): Result<bool> {
    if !SignedIn(userId) then Ok(false)
    else if resource.None? then Ok(action == Create || action == List)
    else
      var owner := ExtractOwnerId(resource.value);
      if owner.Some? && owner.value != "" && owner.value == userId.value then Ok(true)
      else if action == Read then IsSharedWith(resource.value, userId.value, shares)
      else Ok(false)
  }

  /** The policy as the `allow` hook of one request, over the share
      collection as it is when the hook runs. */
  function Policy(userId: Option<string>, shares: seq<Share>): (h: CrudServices.Hook)
    ensures h.Some?
    ensures forall a, r :: h.value(a, r) == CanPerform(a, userId, r, shares)
  {
    Some((a: Action, r: Option<Doc>) => CanPerform(a, userId, r, shares))
  }

  /** Without a user id, every action is denied. */
  lemma {:induction false} NoUserNoAction(a: Action, userId: Option<string>, resource: Option<Doc>, shares: seq<Share>)
    requires !SignedIn(userId)
    ensures CanPerform(a, userId, resource, shares) == Ok(false)
  {
  }

  /** With no resource, a signed-in user may create and list only; so
      reading, updating or deleting a missing contact is Forbidden. */
  lemma {:induction false} NoResource(a: Action, userId: Option<string>, shares: seq<Share>)
    ensures SignedIn(userId) ==> CanPerform(a, userId, None, shares) == Ok(a == Create || a == List)
    ensures a in {Read, Update, Delete} ==> CrudServices.Gate(Policy(userId, shares), a, None) == Some(Forbidden)
  {
  }

  /** The owner may do everything with the contact. */
  lemma {:induction false} OwnerMayDoAll(a: Action, userId: Option<string>, d: Doc, shares: seq<Share>)
    requires SignedIn(userId) && ExtractOwnerId(d) == userId
    ensures CanPerform(a, userId, Some(d), shares) == Ok(true)
  {
  }

  /** On a stored contact owned by someone else, a user may read it exactly
      when it is shared with them (a user id that is not an ObjectId makes
      the lookup throw), and may never update or delete it. */
  lemma {:induction false} NonOwner(a: Action, userId: Option<string>, d: Doc, key: string, shares: seq<Share>)
    requires SignedIn(userId) && ExtractOwnerId(d) != userId
    requires Get(d, "_id") == Some(Oid(key))
    ensures a != Read ==> CanPerform(a, userId, Some(d), shares) == Ok(false)
    ensures a == Read && ObjectIds.Cast(userId.value).None? ==> CanPerform(a, userId, Some(d), shares) == Err(CastError)
    ensures a == Read && ObjectIds.Cast(userId.value).Some? ==>
      CanPerform(a, userId, Some(d), shares) == Ok(ObjectIds.Cast(userId.value).value in SharedUsers(shares, key))
  {
    assert Coalesce(Get(d, "_id"), Get(d, "id")) == Some(Oid(key));
  }

  /** The id of a stored document, read from `_id`. */
  function IdOf(d: Doc): string {
    if "_id" in d && d["_id"].Oid? then d["_id"].hex else ""
  }

  /** The `$or` of `findAll`: owned by the user, or among the contacts
      shared with the user. */
  predicate Visible(d: Doc, uid: string, shares: seq<Share>) {
    Get(d, "owner") == Some(Oid(uid))
    || ("_id" in d && d["_id"].Oid? && d["_id"].hex in SharedWithUser(shares, uid))
  }

  /** The documents of `docs` that the user may see, in order. */
  function VisibleDocs(docs: seq<Doc>, uid: string, shares: seq<Share>): (r: seq<Doc>)
    ensures forall d :: d in r <==> d in docs && Visible(d, uid, shares)
  {
    if docs == [] then []
    else (if Visible(docs[0], uid, shares) then [docs[0]] else []) + VisibleDocs(docs[1..], uid, shares)
  }

  /** Every contact `findAll` lists for a user whose id is an ObjectId, the
      policy lets that user read. */
  lemma {:induction false} ListedAreReadable(uid: string, d: Doc, shares: seq<Share>)
    requires ObjectIds.IsCanonical(uid) && Visible(d, uid, shares)
    ensures CanPerform(Read, Some(uid), Some(d), shares) == Ok(true)
  {
    ObjectIds.CastCanonical(uid);
    if Get(d, "owner") != Some(Oid(uid)) {
      var k := d["_id"].hex;
      SharedWithUserIff(shares, uid, k);
      assert Coalesce(Get(d, "_id"), Get(d, "id")) == Some(Oid(k));
    }
  }

  /** `docs.map((doc) => toStringId(doc._id)).filter(Boolean)`. */
  function IdsOf(docs: seq<Doc>): (r: seq<string>)
    ensures forall x :: x in r ==> x != "" && exists i :: 0 <= i < |docs| && ToStringId(Get(docs[i], "_id")) == Some(x)
    ensures forall i :: 0 <= i < |docs| && ToStringId(Get(docs[i], "_id")).Some? && ToStringId(Get(docs[i], "_id")).value != "" ==>
      ToStringId(Get(docs[i], "_id")).value in r
  {
    if docs == [] then []
    else
      var id := ToStringId(Get(docs[0], "_id"));
      var rest := IdsOf(docs[1..]);
      assert forall x :: (exists i :: 0 <= i < |docs[1..]| && ToStringId(Get(docs[1..][i], "_id")) == Some(x)) ==>
        (exists i :: 0 <= i < |docs| && ToStringId(Get(docs[i], "_id")) == Some(x));
      (if id.Some? && id.value != "" then [id.value] else []) + rest
  }

  /** The contact ids `mapShares` queries, as ObjectIds. */
  function CastSet(ids: seq<string>): set<string> {
    set i | 0 <= i < |ids| && ObjectIds.Cast(ids[i]).Some? :: ObjectIds.Cast(ids[i]).value
  }

  /** The share users of every wanted contact that has some, in collection
      order: what `mapShares` builds. */
  function Grouped(shares: seq<Share>, wanted: set<string>): map<string, seq<string>> {
    map c | c in wanted && UsersOf(shares, c) != [] :: UsersOf(shares, c)
  }

  /** A contact as the service returns it. */
  datatype ContactView = ContactView(fields: Doc, sharedWith: seq<string>)

  /** The id `formatContact` reads: `doc._id ?? sanitized._id ?? sanitized.id`. */
  function RawId(d: Doc): Option<string> {
    var out := CrudServices.Sanitized(Some(PublicFields), Some(d)).value;
    ToStringId(Coalesce(Coalesce(Get(d, "_id"), Get(out, "_id")), Get(out, "id")))
  }

  /** The fields `formatContact` returns: the public fields, with `id`,
      `_id` and `owner` turned into text. */
  function FormattedFields(d: Doc): Doc {
    var out := CrudServices.Sanitized(Some(PublicFields), Some(d)).value;
    var rawId := RawId(d);
    var withId := if rawId.Some? && rawId.value != "" then out["id" := Str(rawId.value)]["_id" := Str(rawId.value)] else out;
    var ownerId := ToStringId(Coalesce(Get(d, "owner"), Get(out, "owner")));
    if ownerId.Some? && ownerId.value != "" then withId["owner" := Str(ownerId.value)] else withId
  }

  /** `formatContact(doc, shares)`. */
  function FormatContact(doc: Option<Doc>, shares: map<string, seq<string>>): (r: Option<ContactView>)
    ensures r.Some? <==> doc.Some?
    ensures shares == map[] && r.Some? ==> r.value.sharedWith == []
  {
    if doc.None? then None
    else
      var rawId := RawId(doc.value);
      var shared := if rawId.Some? && rawId.value != "" && rawId.value in shares then shares[rawId.value] else [];
      Some(ContactView(FormattedFields(doc.value), shared))
  }

  /** A stored contact comes out with its id as text under `id` and `_id`,
      its owner as text, its other public fields as stored, and the share
      users grouped under its id. */
  lemma {:induction false} FormatStored(d: Doc, k: string, m: map<string, seq<string>>)
    requires Get(d, "_id") == Some(Oid(k)) && k != ""
    ensures var v := FormatContact(Some(d), m).value;
      && Get(v.fields, "_id") == Some(Str(k))
      && Get(v.fields, "id") == Some(Str(k))
      && v.sharedWith == (if k in m then m[k] else [])
      && ("owner" in d && d["owner"].Oid? && d["owner"].hex != "" ==> Get(v.fields, "owner") == Some(Str(d["owner"].hex)))
      && (forall f :: f in d && f in PublicFields && f !in {"_id", "id", "owner"} ==> Get(v.fields, f) == Some(d[f]))
      && (forall f :: f in v.fields ==> f in PublicFields)
  {
    assert "_id" in PublicFields && "id" in PublicFields && "owner" in PublicFields;
    assert RawId(d) == Some(k);
  }

  /** Looking a wanted contact up in the grouping gives its share users. */
  lemma {:induction false} GroupedLookup(shares: seq<Share>, wanted: set<string>, c: string)
    requires c in wanted
    ensures (if c in Grouped(shares, wanted) then Grouped(shares, wanted)[c] else []) == UsersOf(shares, c)
  {
  }

  /** One more share extends the grouping of its contact, when wanted. */
  lemma {:induction false} GroupedSnoc(s: seq<Share>, x: Share, wanted: set<string>)
    ensures var g := Grouped(s, wanted);
      Grouped(s + [x], wanted) ==
        if x.contact in wanted then g[x.contact := (if x.contact in g then g[x.contact] else []) + [x.user]] else g
  {
    var g := Grouped(s, wanted);
    var g2 := Grouped(s + [x], wanted);
    var rhs := if x.contact in wanted then g[x.contact := (if x.contact in g then g[x.contact] else []) + [x.user]] else g;
    forall c
      ensures UsersOf(s + [x], c) == UsersOf(s, c) + (if x.contact == c then [x.user] else [])
    {
      UsersOfSnoc(s, x, c);
    }
    assert forall c :: c in g2 <==> c in rhs;
    assert forall c :: c in g2 ==> g2[c] == rhs[c];
  }

  /** The ids of stored contacts are the canonical ids of the documents. */
  lemma {:induction false} StoredIds(found: seq<Doc>)
    requires forall d: Doc :: d in found ==> "_id" in d && d["_id"].Oid? && ObjectIds.IsCanonical(d["_id"].hex)
    ensures forall x :: x in IdsOf(found) ==> ObjectIds.IsCanonical(x)
    ensures forall d :: d in found ==> IdOf(d) in IdsOf(found)
  {
    var ids := IdsOf(found);
    forall x | x in ids
      ensures ObjectIds.IsCanonical(x)
    {
      var i :| 0 <= i < |found| && ToStringId(Get(found[i], "_id")) == Some(x);
      assert found[i] in found;
    }
    forall d | d in found
      ensures IdOf(d) in ids
    {
      var i :| 0 <= i < |found| && found[i] == d;
      assert ToStringId(Get(found[i], "_id")) == Some(IdOf(d));
    }
  }

  /** A stored contact formatted with the grouping of a set of ids it
      belongs to carries its own share users. */
  lemma {:induction false} FormatFound(d: Doc, shares: seq<Share>, ids: seq<string>)
    requires "_id" in d && d["_id"].Oid? && ObjectIds.IsCanonical(d["_id"].hex)
    requires IdOf(d) in ids && forall x :: x in ids ==> ObjectIds.IsCanonical(x)
    ensures var v := FormatContact(Some(d), Grouped(shares, CastSet(ids))).value;
      && v == ContactView(FormattedFields(d), UsersOf(shares, IdOf(d)))
      && Get(v.fields, "_id") == Some(Str(IdOf(d)))
  {
    CastSetCanonical(ids);
    GroupedLookup(shares, CastSet(ids), IdOf(d));
    FormatStored(d, IdOf(d), Grouped(shares, CastSet(ids)));
  }

  /** `docs.map((doc) => formatContact(doc, shares)).filter(Boolean)`. */
  function Views(docs: seq<Doc>, m: map<string, seq<string>>): (r: seq<ContactView>)
    ensures |r| == |docs|
    ensures forall i :: 0 <= i < |docs| ==> Some(r[i]) == FormatContact(Some(docs[i]), m)
  {
    if docs == [] then [] else [FormatContact(Some(docs[0]), m).value] + Views(docs[1..], m)
  }

  /** Every document `find` returns from a collection keyed by canonical
      ObjectIds carries one as its `_id`. */
  lemma {:induction false} StoredCanonical(model: Collection, filter: Doc)
    requires model.Valid() && forall k :: k in model.docs ==> ObjectIds.IsCanonical(k)
    ensures forall d: Doc :: d in model.Find(filter) ==> "_id" in d && d["_id"].Oid? && ObjectIds.IsCanonical(d["_id"].hex)
  {
  }

  /** Formatting the listed contacts with the grouping of their ids gives
      each one its own share users. */
  lemma {:induction false} FormatAllFound(found: seq<Doc>, shares: seq<Share>)
    requires forall d: Doc :: d in found ==> "_id" in d && d["_id"].Oid? && ObjectIds.IsCanonical(d["_id"].hex)
    ensures var v := Views(found, Grouped(shares, CastSet(IdsOf(found))));
      forall i :: 0 <= i < |found| ==>
        && v[i] == ContactView(FormattedFields(found[i]), UsersOf(shares, IdOf(found[i])))
        && Get(v[i].fields, "_id") == Some(Str(IdOf(found[i])))
  {
    var ids := IdsOf(found);
    StoredIds(found);
    forall i | 0 <= i < |found|
      ensures FormatContact(Some(found[i]), Grouped(shares, CastSet(ids))).value ==
              ContactView(FormattedFields(found[i]), UsersOf(shares, IdOf(found[i])))
      ensures Get(FormatContact(Some(found[i]), Grouped(shares, CastSet(ids))).value.fields, "_id") == Some(Str(IdOf(found[i])))
    {
      assert found[i] in found;
      FormatFound(found[i], shares, ids);
    }
  }

  /** Ids that are ObjectIds already in canonical form cast to themselves. */
  lemma {:induction false} CastSetCanonical(ids: seq<string>)
    requires forall x :: x in ids ==> ObjectIds.IsCanonical(x)
    ensures CastSet(ids) == set x | x in ids
  {
    forall x | x in ids
      ensures x in CastSet(ids)
    {
      ObjectIds.CastCanonical(x);
      var i :| 0 <= i < |ids| && ids[i] == x;
      assert ObjectIds.Cast(ids[i]).value == x;
    }
    forall x | x in CastSet(ids)
      ensures x in ids
    {
      var i :| 0 <= i < |ids| && ObjectIds.Cast(ids[i]).Some? && ObjectIds.Cast(ids[i]).value == x;
      ObjectIds.CastCanonical(ids[i]);
    }
  }

  /** The `sharedBy` ObjectId of `syncShares`: none when no user id is
      given, and a cast that can throw otherwise. */
  function Grantor(sharedBy: Option<string>): Result<Option<string>> {
    if sharedBy.None? || sharedBy.value == "" then Ok(None)
    else match ObjectIds.Cast(sharedBy.value)
      case Some(g) => Ok(Some(g))
      case None => Err(CastError)
  }

  /** The owner `create` stores: the payload's owner as text, else the
      acting user. */
  function CreateOwner(data: Doc, userId: string): string {
    ToStringId(Get(data, "owner")).GetOr(userId)
  }

  /** The payload `update` passes on: a truthy owner that reads as text is
      cast to an ObjectId, which can throw. */
  function UpdatePayload(data: Doc): (r: Result<Doc>)
    ensures r.Ok? ==> r.value.Keys == data.Keys
    ensures r.Ok? ==> forall f :: f in data && f != "owner" ==> r.value[f] == data[f]
    ensures r.Err? ==> r == Err(CastError) && Has(data, "owner")
  {
    if !Has(data, "owner") then Ok(data)
    else match ToStringId(Get(data, "owner"))
      case None => Ok(data)
      case Some(o) =>
        match ObjectIds.Cast(o)
        case Some(h) => Ok(data["owner" := Oid(h)])
        case None => Err(CastError)
  }

  class ContactsService {
    const base: CrudServices.CrudService
    var shares: seq<Share>

    ghost predicate Valid()
      reads this, base, base.model
    {
      && base.Valid()
      && base.publicFields == Some(PublicFields)
      && (forall k :: k in base.model.docs ==> ObjectIds.IsCanonical(k))
      && WellFormed(shares)
    }

    constructor (contacts: Collection)
      requires contacts.Valid() && forall k :: k in contacts.docs ==> ObjectIds.IsCanonical(k)
      ensures Valid() && base.model == contacts && shares == []
    {
      base := new CrudServices.CrudService(contacts, Some(PublicFields));
      shares := [];
    }

    /** `mapShares(contactIds)`: the share users of each queried contact,
        collected in one pass over the share collection. */
    method MapShares(contactIds: seq<string>) returns (r: Result<map<string, seq<string>>>)
      requires Valid()
      ensures (exists x :: x in contactIds && ObjectIds.Cast(x).None?) ==> r == Err(CastError)
      ensures (forall x :: x in contactIds ==> ObjectIds.Cast(x).Some?) ==> r == Ok(Grouped(shares, CastSet(contactIds)))
    {
      if |contactIds| == 0 {
        return Ok(map[]);
      }
      if exists x :: x in contactIds && ObjectIds.Cast(x).None? {
        return Err(CastError);
      }
      var wanted := CastSet(contactIds);
      var m: map<string, seq<string>> := map[];
      for i := 0 to |shares|
        invariant m == Grouped(shares[..i], wanted)
      {
        var share := shares[i];
        assert shares[..i + 1] == shares[..i] + [share];
        GroupedSnoc(shares[..i], share, wanted);
        if share.contact in wanted {
          var arr := if share.contact in m then m[share.contact] else [];
          m := m[share.contact := arr + [share.user]];
        }
      }
      assert shares[..|shares|] == shares;
      r := Ok(m);
    }

    /** The insert and delete steps of `syncShares` for a normalized
        target: the ordered `insertMany` stops at the first duplicate
        (contact, user) and the call throws, so the delete never runs. */
    method Reconcile(c: string, target: seq<string>, grantor: Option<string>) returns (r: Result<()>)
      requires Valid() && ObjectIds.IsCanonical(c)
      requires forall x :: x in target ==> ObjectIds.IsCanonical(x)
      modifies this
      ensures Valid()
      ensures NoDup(ToAdd(old(shares), c, target)) ==>
        r == Ok(()) && shares == Reconciled(old(shares), c, target, grantor)
      ensures !NoDup(ToAdd(old(shares), c, target)) ==>
        && r == Err(DuplicateKey)
        && shares == InsertMany(old(shares), NewShares(c, ToAdd(old(shares), c, target), grantor)).store
    {
      var toAdd := ToAdd(shares, c, target);
      var gone := Removed(shares, c, target);
      var records := NewShares(c, toAdd, grantor);
      InsertManyRefused(shares, c, toAdd, grantor);
      assert Fresh(shares, c, toAdd) <==> NoDup(toAdd);
      InsertManyAppends(shares, records);
      InsertManyWellFormed(shares, records);
      if |toAdd| == 0 {
        assert records == [] && shares + records == shares;
      }
      var inserted := if |toAdd| > 0 then InsertMany(shares, records) else Inserted(shares, false);
      shares := inserted.store;
      if inserted.refused {
        return Err(DuplicateKey);
      }
      assert shares == old(shares) + records;
      DeleteKeepsWellFormed(shares, c, gone);
      if gone != {} {
        shares := AfterDelete(shares, c, gone);
      } else {
        assert AfterDelete(shares, c, gone) == shares;
      }
      r := Ok(());
    }

    /** `syncShares(contactId, sharedWith, ownerId, sharedBy)` with the
        target deduplicated after the ObjectId cast. */
    method SyncShares(contactId: string, sharedWith: seq<string>, ownerId: Option<string>, sharedBy: Option<string>)
      returns (r: Result<()>)
      requires Valid()
      modifies this
      ensures Valid()
      ensures CrudServices.KeyOf(contactId).Err? || Grantor(sharedBy).Err? ==>
        r == Err(CastError) && shares == old(shares)
      ensures CrudServices.KeyOf(contactId).Ok? && Grantor(sharedBy).Ok? ==>
        && r == Ok(())
        && shares == Reconciled(old(shares), CrudServices.KeyOf(contactId).value,
                                Normalize(sharedWith, ownerId), Grantor(sharedBy).value)
    {
      var c := CrudServices.KeyOf(contactId);
      if c.Err? {
        return Err(c.failure);
      }
      var grantor := Grantor(sharedBy);
      if grantor.Err? {
        return Err(grantor.failure);
      }
      r := Reconcile(c.value, Normalize(sharedWith, ownerId), grantor.value);
    }

    /** `syncShares` as written: duplicates are removed before the cast, so
        two spellings of one ObjectId reach `insertMany` twice. */
    method SyncSharesAsWritten(contactId: string, sharedWith: seq<string>, ownerId: Option<string>, sharedBy: Option<string>)
      returns (r: Result<()>)
      requires Valid()
      modifies this
      ensures Valid()
      ensures CrudServices.KeyOf(contactId).Err? || Grantor(sharedBy).Err? ==>
        r == Err(CastError) && shares == old(shares)
      ensures CrudServices.KeyOf(contactId).Ok? && Grantor(sharedBy).Ok? ==>
        var c := CrudServices.KeyOf(contactId).value;
        var toAdd := ToAdd(old(shares), c, NormalizeAsWritten(sharedWith, ownerId));
        && (NoDup(toAdd) ==> r == Ok(()) && shares == Reconciled(old(shares), c, NormalizeAsWritten(sharedWith, ownerId), Grantor(sharedBy).value))
        && (!NoDup(toAdd) ==> r == Err(DuplicateKey))
    {
      var c := CrudServices.KeyOf(contactId);
      if c.Err? {
        return Err(c.failure);
      }
      var grantor := Grantor(sharedBy);
      if grantor.Err? {
        return Err(grantor.failure);
      }
      r := Reconcile(c.value, NormalizeAsWritten(sharedWith, ownerId), grantor.value);
    }

    /** `findAll(filter)`: the contacts matching the filter that the user
        owns or that are shared with the user, each with its share users. */
    method FindAll(filter: Doc, userId: Option<string>) returns (r: Result<seq<ContactView>>)
      requires Valid()
      ensures !SignedIn(userId) ==> r == Err(Unauthorized)
      ensures SignedIn(userId) && ObjectIds.Cast(userId.value).None? ==> r == Err(CastError)
      ensures SignedIn(userId) && ObjectIds.Cast(userId.value).Some? ==>
        var found := VisibleDocs(base.model.Find(filter), ObjectIds.Cast(userId.value).value, shares);
        && r.Ok?
        && |r.value| == |found|
        && forall i :: 0 <= i < |found| ==>
             && r.value[i] == ContactView(FormattedFields(found[i]), UsersOf(shares, IdOf(found[i])))
             && Get(r.value[i].fields, "_id") == Some(Str(IdOf(found[i])))
    {
      if !SignedIn(userId) {
        return Err(Unauthorized);
      }
      // The list check of the policy always passes for a signed-in user.
      assert CanPerform(List, userId, None, shares) == Ok(true);
      var uid := ObjectIds.Cast(userId.value);
      if uid.None? {
        return Err(CastError);
      }
      var all := base.model.Find(filter);
      StoredCanonical(base.model, filter);
      var found := VisibleDocs(all, uid.value, shares);
      var ids := IdsOf(found);
      StoredIds(found);
      CastSetCanonical(ids);
      var grouped := MapShares(ids);
      FormatAllFound(found, shares);
      r := Ok(Views(found, grouped.value));
    }

    /** `findById(id)`: the base lookup under the contacts policy, then the
        contact's share users. A missing contact is refused by the policy. */
    method FindById(id: string, userId: Option<string>) returns (r: Result<Option<ContactView>>)
      requires Valid()
      ensures CrudServices.KeyOf(id).Err? ==> r == Err(CastError)
      ensures CrudServices.KeyOf(id).Ok? ==>
        var key := CrudServices.KeyOf(id).value;
        var gate := CrudServices.Gate(Policy(userId, shares), Read, base.model.Lookup(key));
        && (gate.Some? ==> r == Err(gate.value))
        && (gate.None? ==>
              && key in base.model.docs
              && r.Ok? && r.value.Some?
              && r.value.value.sharedWith == UsersOf(shares, key)
              && Get(r.value.value.fields, "_id") == Some(Str(key)))
    {
      var doc := base.FindById(id, Policy(userId, shares));
      if doc.Err? {
        return Err(doc.failure);
      }
      var key := CrudServices.KeyOf(id).value;
      var grouped := MapShares([id]);
      assert [id][0] == id;
      assert key in CastSet([id]);
      assert CastSet([id]) == {key};
      var m := grouped.value;
      assert doc.value.Some?;
      var d := doc.value.value;
      assert "_id" in PublicFields;
      GroupedLookup(shares, {key}, key);
      FormatStored(d, key, m);
      r := Ok(FormatContact(doc.value, m));
    }

    /** `create(data)` as written: `created.id` is never set on the plain
        object the base service returns, so the method returns right after
        the insert and the `sharedWith` list is dropped. */
    method CreateAsWritten(data: Doc, sharedWith: seq<string>, userId: Option<string>, newId: string)
      returns (r: Result<Doc>)
      requires Valid() && ObjectIds.IsCanonical(newId)
      modifies base.model
      ensures Valid()
      ensures !SignedIn(userId) ==> r == Err(Unauthorized)
      ensures SignedIn(userId) && ObjectIds.Cast(CreateOwner(data, userId.value)).None? ==> r == Err(CastError)
      ensures SignedIn(userId) && ObjectIds.Cast(CreateOwner(data, userId.value)).Some? && newId !in old(base.model.docs) ==>
        var payload := data["owner" := Oid(ObjectIds.Cast(CreateOwner(data, userId.value)).value)];
        && base.model.docs == old(base.model.docs)[newId := Stored(payload, newId)]
        && r.Ok? && "id" !in r.value
    {
      if !SignedIn(userId) {
        return Err(Unauthorized);
      }
      var ownerId := CreateOwner(data, userId.value);
      var owner := ObjectIds.Cast(ownerId);
      if owner.None? {
        return Err(CastError);
      }
      var created := base.Create(data["owner" := Oid(owner.value)], Policy(userId, shares), newId);
      if created.Err? {
        return Err(created.failure);
      }
      if !Has(created.value, "id") {
        return Ok(created.value);
      }
      assert false;
    }

    /** `create(data)` reading the new id from `_id` and filtering the
        stored (cast) owner out of the share list: the contact is stored
        with its owner, the shares are reconciled when `sharedWith` is not
        empty, never with the owner, and the contact is fetched again. */
    method Create(data: Doc, sharedWith: seq<string>, userId: Option<string>, newId: string)
      returns (r: Result<Option<ContactView>>)
      requires Valid() && ObjectIds.IsCanonical(newId)
      modifies this, base.model
      ensures Valid()
      ensures !SignedIn(userId) ==>
        r == Err(Unauthorized) && base.model.docs == old(base.model.docs) && base.model.order == old(base.model.order) && shares == old(shares)
      ensures SignedIn(userId) && ObjectIds.Cast(CreateOwner(data, userId.value)).None? ==>
        r == Err(CastError) && base.model.docs == old(base.model.docs) && base.model.order == old(base.model.order) && shares == old(shares)
      ensures SignedIn(userId) && ObjectIds.Cast(CreateOwner(data, userId.value)).Some? && newId in old(base.model.docs) ==>
        r == Err(DuplicateKey) && base.model.docs == old(base.model.docs) && base.model.order == old(base.model.order) && shares == old(shares)
      ensures SignedIn(userId) && ObjectIds.Cast(CreateOwner(data, userId.value)).Some? && newId !in old(base.model.docs) ==>
        var ownerId := CreateOwner(data, userId.value);
        var payload := data["owner" := Oid(ObjectIds.Cast(ownerId).value)];
        && base.model.docs == old(base.model.docs)[newId := Stored(payload, newId)]
        && base.model.order == old(base.model.order) + [newId]
        && (sharedWith == [] ==> shares == old(shares))
        && (sharedWith != [] && Grantor(userId).Err? ==> r == Err(CastError) && shares == old(shares))
        && (sharedWith != [] && Grantor(userId).Ok? ==>
              && shares == Reconciled(old(shares), newId, Normalize(sharedWith, Some(ObjectIds.Cast(ownerId).value)),
                                      Grantor(userId).value)
              && ObjectIds.Cast(ownerId).value !in SharedUsers(shares, newId))
        && (r.Ok? ==> r.value.Some? && r.value.value.sharedWith == UsersOf(shares, newId))
    {
      if !SignedIn(userId) {
        return Err(Unauthorized);
      }
      var ownerId := CreateOwner(data, userId.value);
      var owner := ObjectIds.Cast(ownerId);
      if owner.None? {
        return Err(CastError);
      }
      var created := base.Create(data["owner" := Oid(owner.value)], Policy(userId, shares), newId);
      if created.Err? {
        return Err(created.failure);
      }
      var createdId := ToStringId(Get(created.value, "_id"));
      assert "_id" in PublicFields;
      assert createdId == Some(newId);
      ObjectIds.CastCanonical(newId);
      if |sharedWith| > 0 {
        if Grantor(userId).Ok? {
          OwnerNeverShared(shares, newId, sharedWith, ownerId, Grantor(userId).value);
        }
        var synced := SyncShares(newId, sharedWith, Some(owner.value), userId);
        if synced.Err? {
          return Err(synced.failure);
        }
      }
      r := FindById(newId, userId);
    }

    /** `update(id, data)`: the base update under the contacts policy, with
        the owner cast to an ObjectId; a `sharedWith` list, even an empty
        one, is reconciled against the updated owner. */
    method Update(id: string, data: Doc, sharedWith: Option<seq<string>>, userId: Option<string>)
      returns (r: Result<Option<ContactView>>)
      requires Valid()
      modifies this, base.model
      ensures Valid()
      ensures base.model.order == old(base.model.order)
      ensures UpdatePayload(data).Err? || CrudServices.KeyOf(id).Err? ==>
        r == Err(CastError) && base.model.docs == old(base.model.docs) && shares == old(shares)
      ensures UpdatePayload(data).Ok? && CrudServices.KeyOf(id).Ok? ==>
        var key := CrudServices.KeyOf(id).value;
        var gate := CrudServices.Gate(Policy(userId, old(shares)), Action.Update, old(base.model.Lookup(key)));
        && (gate.Some? ==> r == Err(gate.value) && base.model.docs == old(base.model.docs) && shares == old(shares))
        && (gate.None? ==>
              var updated := Patched(old(base.model.docs)[key], UpdatePayload(data).value);
              && key in old(base.model.docs)
              && base.model.docs == old(base.model.docs)[key := updated]
              && (sharedWith.None? ==> shares == old(shares))
              && (sharedWith.Some? && Grantor(userId).Err? ==> r == Err(CastError) && shares == old(shares))
              && (sharedWith.Some? && Grantor(userId).Ok? ==>
                    shares == Reconciled(old(shares), key,
                                         Normalize(sharedWith.value, ToStringId(Get(updated, "owner"))),
                                         Grantor(userId).value))
              && (r.Ok? ==> r.value.Some? && r.value.value.sharedWith == UsersOf(shares, key)))
    {
      var payload := UpdatePayload(data);
      if payload.Err? {
        return Err(payload.failure);
      }
      var updated := base.Update(id, payload.value, Policy(userId, shares));
      if updated.Err? {
        return Err(updated.failure);
      }
      var key := CrudServices.KeyOf(id).value;
      assert updated.value.Some?;
      var doc := updated.value.value;
      assert "owner" in PublicFields;
      assert Get(doc, "owner") == Get(Patched(old(base.model.docs)[key], payload.value), "owner");
      if sharedWith.Some? {
        var ownerId := ToStringId(Get(doc, "owner"));
        var synced := SyncShares(id, sharedWith.value, ownerId, userId);
        if synced.Err? {
          return Err(synced.failure);
        }
      }
      r := FindById(id, userId);
    }

    /** `remove(id)`: the base delete under the contacts policy, then every
        share of the contact; the record comes back with no share users. */
    method Remove(id: string, userId: Option<string>) returns (r: Result<Option<ContactView>>)
      requires Valid()
      modifies this, base.model
      ensures Valid()
      ensures CrudServices.KeyOf(id).Err? ==>
        r == Err(CastError) && base.model.docs == old(base.model.docs) && base.model.order == old(base.model.order) && shares == old(shares)
      ensures CrudServices.KeyOf(id).Ok? ==>
        var key := CrudServices.KeyOf(id).value;
        var gate := CrudServices.Gate(Policy(userId, old(shares)), Delete, old(base.model.Lookup(key)));
        && (gate.Some? ==>
              r == Err(gate.value) && base.model.docs == old(base.model.docs) && base.model.order == old(base.model.order) && shares == old(shares))
        && (gate.None? ==>
              && key in old(base.model.docs)
              && base.model.docs == old(base.model.docs) - {key}
              && base.model.order == Without(old(base.model.order), key)
              && shares == DropContact(old(shares), key)
              && (forall x :: x in shares ==> x.contact != key)
              && r.Ok? && r.value.Some? && r.value.value.sharedWith == []
              && Get(r.value.value.fields, "_id") == Some(Str(key)))
    {
      var deleted := base.Remove(id, Policy(userId, shares));
      if deleted.Err? {
        return Err(deleted.failure);
      }
      var key := CrudServices.KeyOf(id).value;
      assert deleted.value.Some?;
      assert "_id" in PublicFields;
      DeleteKeepsWellFormed(shares, key, SharedUsers(shares, key));
      shares := DropContact(shares, key);
      FormatStored(deleted.value.value, key, map[]);
      r := Ok(FormatContact(deleted.value, map[]));
    }
  }
}
