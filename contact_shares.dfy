/** The ContactShare collection and the pieces of the share reconciliation
    (`syncShares`) of the contacts service: the target list is normalized,
    compared with the users the contact is already shared with, the missing
    shares are inserted and the extra ones deleted. Ids are ObjectIds in
    canonical (lower-case hexadecimal) text. */
module ContactShares {
  import opened Common
  import ObjectIds

  /** One share record: `contact` is readable by `user`; `sharedBy` is the
      user who granted it, when known. */
  datatype Share = Share(contact: string, user: string, sharedBy: Option<string>)

  /** The unique index on (contact, user). */
  predicate Unique(s: seq<Share>) {
    forall i, j :: 0 <= i < j < |s| ==> !(s[i].contact == s[j].contact && s[i].user == s[j].user)
  }

  /** What the collection always holds: unique (contact, user) pairs of
      ObjectIds. */
  predicate WellFormed(s: seq<Share>) {
    && Unique(s)
    && forall x :: x in s ==> ObjectIds.IsCanonical(x.contact) && ObjectIds.IsCanonical(x.user)
  }

  /** The users contact `c` is shared with. */
  function SharedUsers(s: seq<Share>, c: string): set<string> {
    set x | x in s && x.contact == c :: x.user
  }

  /** The contacts shared with user `u`: `find({user: u}).distinct("contact")`. */
  function SharedWithUser(s: seq<Share>, u: string): set<string> {
    set x | x in s && x.user == u :: x.contact
  }

  /** The two views of the collection agree: a contact is among those shared
      with a user exactly when the user is among those it is shared with. */
  lemma {:induction false} SharedWithUserIff(s: seq<Share>, u: string, c: string)
    ensures c in SharedWithUser(s, u) <==> u in SharedUsers(s, c)
  {
    if c in SharedWithUser(s, u) {
      var x :| x in s && x.user == u && x.contact == c;
      assert x.user in SharedUsers(s, c);
    }
    if u in SharedUsers(s, c) {
      var x :| x in s && x.contact == c && x.user == u;
      assert x.contact in SharedWithUser(s, u);
    }
  }

  /** The users of the shares of `c`, in collection order. */
  function UsersOf(s: seq<Share>, c: string): (r: seq<string>)
    ensures forall u :: u in r <==> u in SharedUsers(s, c)
  {
    if s == [] then []
    else
      var init := s[..|s| - 1];
      var last := s[|s| - 1];
      assert s == init + [last];
      UsersOf(init, c) + (if last.contact == c then [last.user] else [])
  }

  /** Appending a share appends its user to the users of its contact. */
  lemma {:induction false} UsersOfSnoc(s: seq<Share>, x: Share, c: string)
    ensures UsersOf(s + [x], c) == UsersOf(s, c) + (if x.contact == c then [x.user] else [])
  {
    assert (s + [x])[..|s|] == s;
  }

  /** `[...new Set(ids)]`: the distinct elements in first-occurrence order. */
  function Dedup(ids: seq<string>): (r: seq<string>)
    ensures NoDup(r)
    ensures forall x :: x in r <==> x in ids
  {
    if ids == [] then []
    else
      var d := Dedup(ids[..|ids| - 1]);
      var last := ids[|ids| - 1];
      assert ids == ids[..|ids| - 1] + [last];
      if last in d then d else d + [last]
  }

  /** The ids that are ObjectIds, cast to canonical form, in order. */
  function CastAll(ids: seq<string>): (r: seq<string>)
    ensures forall i :: 0 <= i < |r| ==> ObjectIds.IsCanonical(r[i])
    ensures forall x :: x in r <==> exists i :: 0 <= i < |ids| && ObjectIds.Cast(ids[i]) == Some(x)
  {
    if ids == [] then []
    else
      var rest := CastAll(ids[1..]);
      assert forall x :: (exists i :: 0 <= i < |ids[1..]| && ObjectIds.Cast(ids[1..][i]) == Some(x)) <==>
        (exists i :: 1 <= i < |ids| && ObjectIds.Cast(ids[i]) == Some(x));
      match ObjectIds.Cast(ids[0])
      case Some(h) => [h] + rest
      case None => rest
  }

  /** `.filter((oid) => oid.toString() !== ownerId)`. */
  function DropOwner(ids: seq<string>, owner: Option<string>): (r: seq<string>)
    ensures forall x :: x in r <==> x in ids && owner != Some(x)
    ensures NoDup(ids) ==> NoDup(r)
  {
    if ids == [] then []
    else
      assert NoDup(ids) ==> NoDup(ids[1..]) && ids[0] !in ids[1..];
      (if owner == Some(ids[0]) then [] else [ids[0]]) + DropOwner(ids[1..], owner)
  }

  /** The target users of `syncShares` as the code computes them: duplicates
      are removed from the raw strings, before the ObjectId cast lower-cases
      them. */
  function NormalizeAsWritten(ids: seq<string>, owner: Option<string>): (r: seq<string>)
    ensures forall x :: x in r ==> ObjectIds.IsCanonical(x)
  {
    DropOwner(CastAll(Dedup(ids)), owner)
  }

  /** The target users with duplicates removed after the cast, so that two
      spellings of one ObjectId give one user. */
  function Normalize(ids: seq<string>, owner: Option<string>): (r: seq<string>)
    ensures NoDup(r)
    ensures forall x :: x in r ==> ObjectIds.IsCanonical(x)
    ensures owner.Some? ==> owner.value !in r
    ensures forall x :: x in r <==>
      owner != Some(x) && exists i :: 0 <= i < |ids| && ObjectIds.Cast(ids[i]) == Some(x)
  {
    var cast := CastAll(ids);
    var d := Dedup(cast);
    assert forall x :: x in cast ==> ObjectIds.IsCanonical(x);
    assert forall i :: 0 <= i < |d| ==> d[i] in cast;
    DropOwner(d, owner)
  }

  /** The lists differ only where an id is spelled in upper case: on ids
      that are already canonical both give the same users. */
  lemma {:induction false} NormalizeAgreesOnCanonical(ids: seq<string>, owner: Option<string>)
    requires forall i :: 0 <= i < |ids| ==> ObjectIds.IsCanonical(ids[i])
    ensures NormalizeAsWritten(ids, owner) == Normalize(ids, owner)
  {
    CastAllCanonical(ids);
    var d := Dedup(ids);
    assert forall i :: 0 <= i < |d| ==> d[i] in ids;
    CastAllCanonical(d);
  }

  lemma {:induction false} CastAllCanonical(ids: seq<string>)
    requires forall i :: 0 <= i < |ids| ==> ObjectIds.IsCanonical(ids[i])
    ensures CastAll(ids) == ids
  {
    if ids != [] {
      ObjectIds.CastCanonical(ids[0]);
      CastAllCanonical(ids[1..]);
    }
  }

  /** The entries of `target` that the contact is not yet shared with
      (`toAdd`), in order. */
  function ToAdd(s: seq<Share>, c: string, target: seq<string>): (r: seq<string>)
    ensures forall x :: x in r <==> x in target && x !in SharedUsers(s, c)
    ensures NoDup(target) ==> NoDup(r)
    ensures |r| <= |target|
  {
    if target == [] then []
    else
      assert NoDup(target) ==> NoDup(target[1..]) && target[0] !in target[1..];
      (if target[0] in SharedUsers(s, c) then [] else [target[0]]) + ToAdd(s, c, target[1..])
  }

  /** Inserting shares of `c` for `users` adds exactly those users. */
  lemma {:induction false} AddedUsers(s: seq<Share>, c: string, users: seq<string>, grantor: Option<string>)
    ensures SharedUsers(s + NewShares(c, users, grantor), c) == SharedUsers(s, c) + set u | u in users
  {
    var t := s + NewShares(c, users, grantor);
    forall u | u in SharedUsers(t, c)
      ensures u in SharedUsers(s, c) || u in users
    {
      var x :| x in t && x.contact == c && x.user == u;
      if x in s {
        assert u in SharedUsers(s, c);
      }
    }
    forall u | u in SharedUsers(s, c) || u in users
      ensures u in SharedUsers(t, c)
    {
      if u in SharedUsers(s, c) {
        var x :| x in s && x.contact == c && x.user == u;
        assert x in t;
      } else {
        assert Share(c, u, grantor) in NewShares(c, users, grantor);
        assert Share(c, u, grantor) in t;
      }
    }
  }

  /** Appending a share for a new (contact, user) pair keeps the unique
      index. */
  lemma {:induction false} AppendUnique(s: seq<Share>, x: Share)
    requires Unique(s) && x.user !in SharedUsers(s, x.contact)
    ensures Unique(s + [x])
  {
    var t := s + [x];
    forall i, j | 0 <= i < j < |t|
      ensures !(t[i].contact == t[j].contact && t[i].user == t[j].user)
    {
      if j == |s| {
        assert t[i] in s && t[j] == x;
        assert t[i].contact == x.contact ==> t[i].user in SharedUsers(s, x.contact);
      } else {
        assert t[i] == s[i] && t[j] == s[j];
      }
    }
  }

  /** The outcome of an ordered `insertMany`: the collection afterwards and
      whether a record was refused by the unique index. */
  datatype Inserted = Inserted(store: seq<Share>, refused: bool)

  /** An ordered `insertMany(xs)`: the records go in one by one and the
      first one whose (contact, user) pair is already present stops the
      call, leaving the records inserted before it in place. */
  function InsertMany(s: seq<Share>, xs: seq<Share>): (r: Inserted)
    ensures |s| <= |r.store| && r.store[..|s|] == s
    ensures !r.refused ==> |r.store| == |s| + |xs|
    decreases |xs|
  {
    if xs == [] then Inserted(s, false)
    else if xs[0].user in SharedUsers(s, xs[0].contact) then Inserted(s, true)
    else
      var r := InsertMany(s + [xs[0]], xs[1..]);
      assert (s + [xs[0]])[..|s|] == s;
      assert r.store[..|s|] == r.store[..|s| + 1][..|s|];
      r
  }

  /** `users` are distinct and none of them is shared `c` yet. */
  predicate Fresh(s: seq<Share>, c: string, users: seq<string>) {
    NoDup(users) && forall u :: u in users ==> u !in SharedUsers(s, c)
  }

  /** Inserting shares of one contact for `users` is refused exactly when a
      user is already shared with or listed twice. */
  lemma {:induction false} InsertManyRefused(s: seq<Share>, c: string, users: seq<string>, grantor: Option<string>)
    ensures InsertMany(s, NewShares(c, users, grantor)).refused <==> !Fresh(s, c, users)
    decreases |users|
  {
    if users != [] {
      var u := users[0];
      var rest := users[1..];
      var xs := NewShares(c, users, grantor);
      assert xs[0] == Share(c, u, grantor) && xs[1..] == NewShares(c, rest, grantor);
      assert users == [u] + rest;
      if u !in SharedUsers(s, c) {
        InsertManyRefused(s + [Share(c, u, grantor)], c, rest, grantor);
        FreshCons(s, c, u, rest, grantor);
      } else {
        assert u in users;
      }
    }
  }

  /** Freshness of `[u] + rest` before inserting `u` is freshness of `rest`
      after. */
  lemma {:induction false} FreshCons(s: seq<Share>, c: string, u: string, rest: seq<string>, grantor: Option<string>)
    requires u !in SharedUsers(s, c)
    ensures Fresh(s + [Share(c, u, grantor)], c, rest) <==> Fresh(s, c, [u] + rest)
  {
    SnocUsers(s, c, u, grantor);
    var users := [u] + rest;
    assert forall v :: v in users <==> v == u || v in rest;
    if NoDup(users) {
      forall i, j | 0 <= i < j < |rest|
        ensures rest[i] != rest[j]
      {
        assert rest[i] == users[i + 1] && rest[j] == users[j + 1];
      }
      forall k | 0 <= k < |rest|
        ensures rest[k] != u
      {
        assert users[0] != users[k + 1];
      }
    }
    if NoDup(rest) && u !in rest {
      forall i, j | 0 <= i < j < |users|
        ensures users[i] != users[j]
      {
        if i == 0 {
          assert users[j] == rest[j - 1];
        } else {
          assert users[i] == rest[i - 1] && users[j] == rest[j - 1];
        }
      }
    }
  }

  /** An `insertMany` that is not refused appends every record, in order. */
  lemma {:induction false} InsertManyAppends(s: seq<Share>, xs: seq<Share>)
    ensures !InsertMany(s, xs).refused ==> InsertMany(s, xs).store == s + xs
    decreases |xs|
  {
    if xs != [] && xs[0].user !in SharedUsers(s, xs[0].contact) {
      InsertManyAppends(s + [xs[0]], xs[1..]);
      assert s + [xs[0]] + xs[1..] == s + xs;
    }
  }

  /** Appending a share of `c` for `u` adds `u` to the users of `c`. */
  lemma {:induction false} SnocUsers(s: seq<Share>, c: string, u: string, grantor: Option<string>)
    ensures SharedUsers(s + [Share(c, u, grantor)], c) == SharedUsers(s, c) + {u}
  {
    var t := s + [Share(c, u, grantor)];
    assert Share(c, u, grantor) in t;
    forall v | v in SharedUsers(t, c)
      ensures v in SharedUsers(s, c) || v == u
    {
      var x :| x in t && x.contact == c && x.user == v;
      if x in s {
        assert v in SharedUsers(s, c);
      }
    }
    forall v | v in SharedUsers(s, c)
      ensures v in SharedUsers(t, c)
    {
      var x :| x in s && x.contact == c && x.user == v;
      assert x in t;
    }
  }

  /** An ordered `insertMany` of records for ObjectIds keeps the collection
      well formed, whether or not it is refused. */
  lemma {:induction false} InsertManyWellFormed(s: seq<Share>, xs: seq<Share>)
    requires WellFormed(s)
    requires forall x :: x in xs ==> ObjectIds.IsCanonical(x.contact) && ObjectIds.IsCanonical(x.user)
    ensures WellFormed(InsertMany(s, xs).store)
    decreases |xs|
  {
    if xs != [] && xs[0].user !in SharedUsers(s, xs[0].contact) {
      AppendUnique(s, xs[0]);
      assert xs[0] in xs;
      assert forall x :: x in xs[1..] ==> x in xs;
      InsertManyWellFormed(s + [xs[0]], xs[1..]);
    }
  }

  /** The users of the shares to delete (`toRemove`): shared now, not in the
      target. */
  function Removed(s: seq<Share>, c: string, target: seq<string>): set<string> {
    SharedUsers(s, c) - set x | x in target
  }

  /** The records `insertMany` creates. */
  function NewShares(c: string, users: seq<string>, grantor: Option<string>): (r: seq<Share>)
    ensures |r| == |users|
    ensures forall i :: 0 <= i < |r| ==> r[i] == Share(c, users[i], grantor)
    ensures forall x :: x in r <==> x.contact == c && x.user in users && x.sharedBy == grantor
  {
    if users == [] then [] else [Share(c, users[0], grantor)] + NewShares(c, users[1..], grantor)
  }

  /** `deleteMany({contact: c, user: {$in: gone}})`: the other records, in
      order. */
  function AfterDelete(s: seq<Share>, c: string, gone: set<string>): (r: seq<Share>)
    ensures forall x :: x in r <==> x in s && !(x.contact == c && x.user in gone)
    ensures Unique(s) ==> Unique(r)
    ensures (forall x :: x in s ==> !(x.contact == c && x.user in gone)) ==> r == s
  {
    if s == [] then []
    else
      var rest := AfterDelete(s[1..], c, gone);
      assert Unique(s) ==> Unique(s[1..]);
      if s[0].contact == c && s[0].user in gone then rest
      else
        assert Unique(s) ==> forall x :: x in rest ==> !(x.contact == s[0].contact && x.user == s[0].user);
        [s[0]] + rest
  }

  /** `deleteMany({contact: c})`: the cascade when a contact is removed. */
  function DropContact(s: seq<Share>, c: string): (r: seq<Share>)
    ensures forall x :: x in r <==> x in s && x.contact != c
    ensures Unique(s) ==> Unique(r)
  {
    AfterDelete(s, c, SharedUsers(s, c))
  }

  /** Deleting shares keeps the collection well formed. */
  lemma DeleteKeepsWellFormed(s: seq<Share>, c: string, gone: set<string>)
    requires WellFormed(s)
    ensures WellFormed(AfterDelete(s, c, gone))
  {
  }

  /** The collection after a reconciliation whose inserts all succeed. */
  function Reconciled(s: seq<Share>, c: string, target: seq<string>, grantor: Option<string>): seq<Share> {
    AfterDelete(s + NewShares(c, ToAdd(s, c, target), grantor), c, Removed(s, c, target))
  }

  /** After reconciling, the contact is shared with exactly the target. */
  lemma {:induction false} ReconciledUsers(s: seq<Share>, c: string, target: seq<string>, grantor: Option<string>)
    ensures SharedUsers(Reconciled(s, c, target, grantor), c) == set x | x in target
  {
    var r := Reconciled(s, c, target, grantor);
    var added := NewShares(c, ToAdd(s, c, target), grantor);
    forall u | u in target
      ensures u in SharedUsers(r, c)
    {
      if u in SharedUsers(s, c) {
        var x :| x in s && x.contact == c && x.user == u;
        assert x in s + added;
        assert x in r;
      } else {
        var x := Share(c, u, grantor);
        assert x in added;
        assert x in s + added;
        assert x in r;
      }
    }
    forall u | u in SharedUsers(r, c)
      ensures u in target
    {
      var x :| x in r && x.contact == c && x.user == u;
      assert x in s + added;
      if x in s {
        assert u in SharedUsers(s, c);
      }
    }
  }

  /** Shares of every other contact are neither inserted nor deleted. */
  lemma {:induction false} ReconciledKeepsOthers(s: seq<Share>, c: string, target: seq<string>, grantor: Option<string>)
    ensures forall x: Share :: x.contact != c ==> (x in Reconciled(s, c, target, grantor) <==> x in s)
  {
    var added := NewShares(c, ToAdd(s, c, target), grantor);
    forall x: Share | x.contact != c
      ensures x in Reconciled(s, c, target, grantor) <==> x in s
    {
      assert x in s + added <==> x in s || x in added;
    }
  }

  /** A share whose user stays in the target keeps its original record. */
  lemma {:induction false} ReconciledKeepsRecords(s: seq<Share>, c: string, target: seq<string>, grantor: Option<string>)
    ensures forall x :: x in s && x.contact == c && x.user in target ==> x in Reconciled(s, c, target, grantor)
  {
    var added := NewShares(c, ToAdd(s, c, target), grantor);
    forall x | x in s && x.contact == c && x.user in target
      ensures x in Reconciled(s, c, target, grantor)
    {
      assert x in s + added;
    }
  }

  /** Reconciling with a target free of duplicates keeps the unique index,
      and ids that are ObjectIds keep the collection well formed. */
  lemma {:induction false} ReconciledWellFormed(s: seq<Share>, c: string, target: seq<string>, grantor: Option<string>)
    requires WellFormed(s) && NoDup(target) && ObjectIds.IsCanonical(c)
    requires forall x :: x in target ==> ObjectIds.IsCanonical(x)
    ensures WellFormed(Reconciled(s, c, target, grantor))
  {
    var add := ToAdd(s, c, target);
    var added := NewShares(c, add, grantor);
    var t := s + added;
    forall i, j | 0 <= i < j < |t|
      ensures !(t[i].contact == t[j].contact && t[i].user == t[j].user)
    {
      if j < |s| {
      } else if i < |s| {
        assert t[j] == added[j - |s|];
        assert t[j].contact == c && t[j].user in add;
        assert t[i] in s;
      } else {
        assert t[i] == added[i - |s|] && t[j] == added[j - |s|];
        assert add[i - |s|] != add[j - |s|];
      }
    }
    assert Unique(t);
  }

  /** A second reconciliation with the same target inserts nothing and
      deletes nothing, so it leaves the collection as it is. */
  lemma {:induction false} ReconcileIdempotent(s: seq<Share>, c: string, target: seq<string>, grantor: Option<string>, grantor2: Option<string>)
    ensures var r := Reconciled(s, c, target, grantor);
      && ToAdd(r, c, target) == []
      && Removed(r, c, target) == {}
      && Reconciled(r, c, target, grantor2) == r
  {
    var r := Reconciled(s, c, target, grantor);
    ReconciledUsers(s, c, target, grantor);
    var add := ToAdd(r, c, target);
    assert r + NewShares(c, add, grantor2) == r;
  }

  /** `syncShares` never shares a contact with the owner text it is given;
      given the owner's ObjectId cast, as the contact stores it, it never
      shares the contact with its stored owner, however the owner was
      spelled. */
  lemma {:induction false} OwnerNeverShared(s: seq<Share>, c: string, ids: seq<string>, owner: string, grantor: Option<string>)
    ensures owner !in SharedUsers(Reconciled(s, c, Normalize(ids, Some(owner)), grantor), c)
    ensures ObjectIds.Cast(owner).Some? ==>
      var stored := ObjectIds.Cast(owner).value;
      stored !in SharedUsers(Reconciled(s, c, Normalize(ids, Some(stored)), grantor), c)
  {
    ReconciledUsers(s, c, Normalize(ids, Some(owner)), grantor);
    if ObjectIds.Cast(owner).Some? {
      var stored := ObjectIds.Cast(owner).value;
      ReconciledUsers(s, c, Normalize(ids, Some(stored)), grantor);
    }
  }

  /** The owner filter as written compares the cast ids with the owner text
      as the payload spelled it: an owner given in upper case is not
      filtered out of its own share list, although the contact stores the
      lower-cased ObjectId, so the contact gets shared with its owner. */
  lemma {:induction false} OwnerFilterAsWritten()
    ensures var upper := seq(24, _ => 'A');
      var lower := seq(24, _ => 'a');
      && ObjectIds.Cast(upper) == Some(lower)
      && NormalizeAsWritten([lower], Some(upper)) == [lower]
      && lower in SharedUsers(Reconciled([], lower, NormalizeAsWritten([lower], Some(upper)), None), lower)
      && Normalize([lower], Some(lower)) == []
  {
    var upper := seq(24, _ => 'A');
    var lower := seq(24, _ => 'a');
    assert upper[0] != lower[0];
    assert ObjectIds.Lower(upper) == lower;
    assert ObjectIds.Lower(lower) == lower;
    assert ObjectIds.Cast(upper) == Some(lower);
    assert ObjectIds.Cast(lower) == Some(lower);
    assert Dedup([lower]) == [lower];
    assert CastAll([lower]) == [lower];
    assert DropOwner([lower], Some(upper)) == [lower];
    var target := NormalizeAsWritten([lower], Some(upper));
    assert target == [lower];
    ReconciledUsers([], lower, target, None);
    assert lower in target;
    assert DropOwner([lower], Some(lower)) == [];
  }

  /** The discrepancy of the code as written: one ObjectId spelled in upper
      and in lower case is kept twice, so both copies are sent to the unique
      index of a contact that has no share yet. */
  lemma {:induction false} NormalizeAsWrittenDuplicates()
    ensures var upper := seq(24, _ => 'A');
      var lower := seq(24, _ => 'a');
      && NormalizeAsWritten([upper, lower], None) == [lower, lower]
      && !NoDup(ToAdd([], lower, NormalizeAsWritten([upper, lower], None)))
      && Normalize([upper, lower], None) == [lower]
  {
    var upper := seq(24, _ => 'A');
    var lower := seq(24, _ => 'a');
    assert upper[0] != lower[0];
    assert Dedup([upper]) == [upper];
    assert Dedup([upper, lower]) == [upper, lower];
    assert ObjectIds.Lower(upper) == lower;
    assert ObjectIds.Lower(lower) == lower;
    assert ObjectIds.Cast(upper) == Some(lower);
    assert ObjectIds.Cast(lower) == Some(lower);
    assert [upper, lower][1..] == [lower];
    assert CastAll([lower]) == [lower];
    assert CastAll([upper, lower]) == [lower, lower];
    assert [lower, lower][1..] == [lower];
    assert DropOwner([lower], None) == [lower];
    assert DropOwner([lower, lower], None) == [lower, lower];
    var out := NormalizeAsWritten([upper, lower], None);
    assert out == [lower, lower];
    assert SharedUsers([], lower) == {};
    assert ToAdd([], lower, out) == [lower, lower];
    assert Dedup([lower, lower]) == [lower];
  }
}
