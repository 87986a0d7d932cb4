/** The paging state of the infinite contact list: pages requested by
    offset, each page merged into the items already shown with duplicates
    dropped by id (the first occurrence wins), and the rules that stop
    further loading. The fetch is supplied as its outcome. */
module InfiniteContacts {
  import opened Common

  /** `c._id ?? c.id`, when that is truthy. */
  function KeyOf(c: Doc): Option<Value> {
    var id := Coalesce(Get(c, "_id"), Get(c, "id"));
    if id.Some? && Truthy(id.value) then id else None
  }

  /** The items in order, skipping those without an id and those whose id
      is already in `seen` or met earlier. */
  function Dedup(xs: seq<Doc>, seen: set<Value>): seq<Doc>
    decreases |xs|
  {
    if xs == [] then []
    else
      var k := KeyOf(xs[0]);
      if k.None? || k.value in seen then Dedup(xs[1..], seen)
      else [xs[0]] + Dedup(xs[1..], seen + {k.value})
  }

  /** The list after a page is merged into the items shown. */
  function Merged(prev: seq<Doc>, page: seq<Doc>): seq<Doc> {
    Dedup(prev + page, {})
  }

  /** The values of a map in the insertion order recorded by `order`. */
  function InOrder(order: seq<Value>, byId: map<Value, Doc>): (r: seq<Doc>)
    requires forall v :: v in order ==> v in byId
    ensures |r| == |order| && forall j :: 0 <= j < |order| ==> r[j] == byId[order[j]]
  {
    seq(|order|, j requires 0 <= j < |order| => byId[order[j]])
  }

  /** Recording a new id after the others appends its item to the values
      in insertion order. */
  lemma InOrderAppend(order: seq<Value>, byId: map<Value, Doc>, v: Value, d: Doc)
    requires forall u :: u in order <==> u in byId
    requires v !in byId
    ensures forall u :: u in order + [v] <==> u in byId[v := d]
    ensures InOrder(order + [v], byId[v := d]) == InOrder(order, byId) + [d]
  {
    var before := InOrder(order, byId);
    var after := InOrder(order + [v], byId[v := d]);
    forall j | 0 <= j < |order|
      ensures after[j] == before[j]
    {
      assert order[j] in byId;
      assert (order + [v])[j] == order[j];
    }
  }

  /** A pass of the merge loop that meets a new id keeps that item ahead of
      the items still to be kept once the id is recorded. */
  lemma MergeKeep(merged: seq<Doc>, i: nat, byId: map<Value, Doc>, id: Value)
    requires i < |merged| && KeyOf(merged[i]) == Some(id) && id !in byId
    ensures Dedup(merged[i..], byId.Keys) == [merged[i]] + Dedup(merged[i + 1..], byId[id := merged[i]].Keys)
  {
    assert merged[i..][1..] == merged[i + 1..];
    assert merged[i..][0] == merged[i];
    assert byId[id := merged[i]].Keys == byId.Keys + {id};
  }

  /** Moving the next item from the pending part to the kept part leaves
      their concatenation unchanged. */
  lemma MovedAcross(kept: seq<Doc>, x: Doc, rest: seq<Doc>, total: seq<Doc>)
    requires kept + ([x] + rest) == total
    ensures (kept + [x]) + rest == total
  {
    assert (kept + [x]) + rest == kept + ([x] + rest);
  }

  /** A pass of the merge loop that meets an item without an id, or with an
      id already recorded, changes nothing that is still to be kept. */
  lemma MergeSkip(merged: seq<Doc>, i: nat, byId: map<Value, Doc>)
    requires i < |merged| && (KeyOf(merged[i]).None? || KeyOf(merged[i]).value in byId)
    ensures Dedup(merged[i..], byId.Keys) == Dedup(merged[i + 1..], byId.Keys)
  {
    assert merged[i..][1..] == merged[i + 1..];
    assert merged[i..][0] == merged[i];
  }

  /** The `setItems` updater of `loadPage`: walk the concatenation once,
      keep the first item of each truthy id in an insertion-ordered map, and
      return its values. */
  method Merge(prev: seq<Doc>, page: seq<Doc>) returns (r: seq<Doc>)
    ensures r == Merged(prev, page)
  {
    var merged := prev + page;
    var order: seq<Value> := [];
    var byId: map<Value, Doc> := map[];
    assert merged[0..] == merged;
    assert InOrder(order, byId) == [] && byId.Keys == {};
    for i := 0 to |merged|
      invariant forall v :: v in order <==> v in byId
      invariant InOrder(order, byId) + Dedup(merged[i..], byId.Keys) == Dedup(merged, {})
    {
      var id := KeyOf(merged[i]);
      if id.Some? && id.value !in byId {
        MergeKeep(merged, i, byId, id.value);
        InOrderAppend(order, byId, id.value, merged[i]);
        MovedAcross(InOrder(order, byId), merged[i], Dedup(merged[i + 1..], byId[id.value := merged[i]].Keys), Dedup(merged, {}));
        order := order + [id.value];
        byId := byId[id.value := merged[i]];
      } else {
        MergeSkip(merged, i, byId);
      }
    }
    r := InOrder(order, byId);
  }

  /** Every kept item has a truthy id that was not in `seen`, and no two
      kept items share an id. */
  lemma {:induction false} DedupUnique(xs: seq<Doc>, seen: set<Value>)
    ensures forall k :: 0 <= k < |Dedup(xs, seen)| ==> KeyOf(Dedup(xs, seen)[k]).Some? && KeyOf(Dedup(xs, seen)[k]).value !in seen
    ensures forall a, b :: 0 <= a < b < |Dedup(xs, seen)| ==> KeyOf(Dedup(xs, seen)[a]) != KeyOf(Dedup(xs, seen)[b])
    decreases |xs|
  {
    if xs != [] {
      var k := KeyOf(xs[0]);
      var skip := k.None? || k.value in seen;
      var seen' := if skip then seen else seen + {k.value};
      var rest := Dedup(xs[1..], seen');
      DedupUnique(xs[1..], seen');
      if !skip {
        var r := Dedup(xs, seen);
        assert r == [xs[0]] + rest;
        forall j | 0 <= j < |r|
          ensures KeyOf(r[j]).Some? && KeyOf(r[j]).value !in seen
        {
          if j > 0 {
            assert r[j] == rest[j - 1];
          }
        }
        forall a, b | 0 <= a < b < |r|
          ensures KeyOf(r[a]) != KeyOf(r[b])
        {
          assert r[b] == rest[b - 1];
          assert KeyOf(rest[b - 1]).Some? && KeyOf(rest[b - 1]).value !in seen';
          if a > 0 {
            assert r[a] == rest[a - 1];
          }
        }
      }
    }
  }

  /** The truthy ids of a list. */
  function Ids(xs: seq<Doc>): set<Value>
    decreases |xs|
  {
    if xs == [] then {}
    else (if KeyOf(xs[0]).Some? then {KeyOf(xs[0]).value} else {}) + Ids(xs[1..])
  }

  /** An item's truthy id is among the ids of its list. */
  lemma {:induction false} IdsMember(xs: seq<Doc>, i: nat)
    requires i < |xs| && KeyOf(xs[i]).Some?
    ensures KeyOf(xs[i]).value in Ids(xs)
    decreases i
  {
    if i > 0 {
      assert xs[1..][i - 1] == xs[i];
      IdsMember(xs[1..], i - 1);
    }
  }

  /** The ids of a concatenation. */
  lemma {:induction false} IdsAppend(a: seq<Doc>, b: seq<Doc>)
    ensures Ids(a + b) == Ids(a) + Ids(b)
    decreases |a|
  {
    if a != [] {
      assert (a + b)[1..] == a[1..] + b;
      IdsAppend(a[1..], b);
    } else {
      assert a + b == b;
    }
  }

  /** The kept items carry exactly the truthy ids of the input that are not
      in `seen`: no id is lost. */
  lemma {:induction false} DedupIds(xs: seq<Doc>, seen: set<Value>)
    ensures Ids(Dedup(xs, seen)) == Ids(xs) - seen
    decreases |xs|
  {
    if xs != [] {
      var k := KeyOf(xs[0]);
      var skip := k.None? || k.value in seen;
      var seen' := if skip then seen else seen + {k.value};
      DedupIds(xs[1..], seen');
      if !skip {
        var r := Dedup(xs, seen);
        assert r == [xs[0]] + Dedup(xs[1..], seen');
        assert r[0] == xs[0] && r[1..] == Dedup(xs[1..], seen');
      }
    }
  }

  /** The first item of a list with the given id. */
  function FirstOf(xs: seq<Doc>, v: Value): (r: Doc)
    requires v in Ids(xs)
    ensures KeyOf(r) == Some(v)
    decreases |xs|
  {
    if KeyOf(xs[0]) == Some(v) then xs[0] else FirstOf(xs[1..], v)
  }

  /** Every kept item is the first item of the input with its id. */
  lemma {:induction false} DedupFirst(xs: seq<Doc>, seen: set<Value>)
    ensures forall k :: 0 <= k < |Dedup(xs, seen)| ==>
      KeyOf(Dedup(xs, seen)[k]).Some? && KeyOf(Dedup(xs, seen)[k]).value in Ids(xs)
      && Dedup(xs, seen)[k] == FirstOf(xs, KeyOf(Dedup(xs, seen)[k]).value)
    decreases |xs|
  {
    if xs != [] {
      var k0 := KeyOf(xs[0]);
      var skip := k0.None? || k0.value in seen;
      var seen' := if skip then seen else seen + {k0.value};
      DedupFirst(xs[1..], seen');
      DedupUnique(xs[1..], seen');
      var rest := Dedup(xs[1..], seen');
      var r := Dedup(xs, seen);
      assert r == if skip then rest else [xs[0]] + rest;
      forall k | 0 <= k < |r|
        ensures KeyOf(r[k]).Some? && KeyOf(r[k]).value in Ids(xs) && r[k] == FirstOf(xs, KeyOf(r[k]).value)
      {
        if !skip && k == 0 {
          assert r[k] == xs[0];
        } else {
          var m := if skip then k else k - 1;
          assert r[k] == rest[m];
          assert KeyOf(rest[m]).Some? && KeyOf(rest[m]).value !in seen';
        }
      }
    }
  }

  /** Items already shown with distinct truthy ids stay first and in order:
      a page never replaces one of them. */
  lemma {:induction false} ShownItemsKept(prev: seq<Doc>, page: seq<Doc>, seen: set<Value>)
    requires forall k :: 0 <= k < |prev| ==> KeyOf(prev[k]).Some? && KeyOf(prev[k]).value !in seen
    requires forall a, b :: 0 <= a < b < |prev| ==> KeyOf(prev[a]) != KeyOf(prev[b])
    ensures |Dedup(prev + page, seen)| >= |prev| && Dedup(prev + page, seen)[..|prev|] == prev
    decreases |prev|
  {
    if prev != [] {
      var k := KeyOf(prev[0]).value;
      assert (prev + page)[1..] == prev[1..] + page;
      forall j | 0 <= j < |prev[1..]|
        ensures KeyOf(prev[1..][j]).value !in seen + {k}
      {
        assert prev[1..][j] == prev[j + 1];
      }
      ShownItemsKept(prev[1..], page, seen + {k});
    }
  }

  /** Merging a page into a merged list: ids stay unique, the items shown
      before stay in front unchanged, the ids are those of both lists (so
      every item of the page with a truthy id is represented and items
      without one are left out), and each item is the first of its id. */
  lemma {:induction false} MergeSpec(prev: seq<Doc>, page: seq<Doc>)
    requires forall k :: 0 <= k < |prev| ==> KeyOf(prev[k]).Some?
    requires forall a, b :: 0 <= a < b < |prev| ==> KeyOf(prev[a]) != KeyOf(prev[b])
    ensures var r := Merged(prev, page);
      && (forall k :: 0 <= k < |r| ==> KeyOf(r[k]).Some?)
      && (forall a, b :: 0 <= a < b < |r| ==> KeyOf(r[a]) != KeyOf(r[b]))
      && |r| >= |prev| && r[..|prev|] == prev
      && Ids(r) == Ids(prev) + Ids(page)
      && (forall i :: 0 <= i < |page| && KeyOf(page[i]).Some? ==> KeyOf(page[i]).value in Ids(r))
      && (forall k :: 0 <= k < |r| ==> KeyOf(r[k]).value in Ids(prev + page) && r[k] == FirstOf(prev + page, KeyOf(r[k]).value))
  {
    DedupFirst(prev + page, {});
    DedupUnique(prev + page, {});
    ShownItemsKept(prev, page, {});
    DedupIds(prev + page, {});
    IdsAppend(prev, page);
    forall i | 0 <= i < |page| && KeyOf(page[i]).Some?
      ensures KeyOf(page[i]).value in Ids(Merged(prev, page))
    {
      IdsMember(page, i);
    }
  }

  /** What a `findContacts` call came back with. */
  datatype Response = Page(items: seq<Doc>) | NotAnArray | Failed

  /** The request body of page `pageIndex`: the criteria, then the page
      size as `limit` and `pageIndex * pageSize` as `offset`. */
  function PageQuery(criteria: Doc, pageSize: int, pageIndex: int): (q: Doc)
    ensures "limit" in q && "offset" in q
    ensures q["limit"] == Num(pageSize) && q["offset"] == Num(pageIndex * pageSize)
    ensures forall k :: k in criteria && k != "limit" && k != "offset" ==> k in q && q[k] == criteria[k]
  {
    criteria["limit" := Num(pageSize)]["offset" := Num(pageIndex * pageSize)]
  }

  /** The `items`, `page` and `hasMore` state cells of the list. */
  class Pager {
    var items: seq<Doc>
    var page: int
    var hasMore: bool
    const pageSize: int
    var criteria: Doc

    /** The items shown all have distinct truthy ids. */
    predicate Valid()
      reads this
    {
      && (forall k :: 0 <= k < |items| ==> KeyOf(items[k]).Some?)
      && (forall a, b :: 0 <= a < b < |items| ==> KeyOf(items[a]) != KeyOf(items[b]))
    }

    constructor (criteria: Doc, pageSize: int)
      ensures Valid() && items == [] && page == 0 && hasMore
      ensures this.criteria == criteria && this.pageSize == pageSize
    {
      items := [];
      page := 0;
      hasMore := true;
      this.criteria := criteria;
      this.pageSize := pageSize;
    }

    /** `loadPage(pageIndex)` with the outcome of its fetch: nothing without
        a token; otherwise the query for that page, and then a non-array
        response or a failure stops loading, while a page is merged in and
        stops loading when it is short. */
    method LoadPage(signedIn: bool, pageIndex: int, response: Response) returns (query: Option<Doc>)
      requires Valid()
      modifies this
      ensures Valid() && page == old(page) && criteria == old(criteria)
      ensures !old(hasMore) ==> !hasMore
      ensures query == if signedIn then Some(PageQuery(criteria, pageSize, pageIndex)) else None
      ensures !signedIn ==> items == old(items) && hasMore == old(hasMore)
      ensures signedIn && !response.Page? ==> items == old(items) && !hasMore
      ensures signedIn && response.Page? ==>
        items == Merged(old(items), response.items)
        && hasMore == (old(hasMore) && |response.items| >= pageSize)
    {
      if !signedIn {
        return None;
      }
      query := Some(PageQuery(criteria, pageSize, pageIndex));
      match response {
        case NotAnArray => hasMore := false;
        case Failed => hasMore := false;
        case Page(res) =>
          MergeSpec(items, res);
          items := Merge(items, res);
          if |res| < pageSize {
            hasMore := false;
          }
      }
    }

    /** The criteria changed to `next`: the pager queries by them from now
        on and starts over. */
    method Reset(next: Doc)
      modifies this
      ensures Valid() && items == [] && page == 0 && hasMore && criteria == next
    {
      items := [];
      page := 0;
      hasMore := true;
      criteria := next;
    }

    /** The first-load effect: with more to load and nothing shown, load
        page 0 and move on to page 1. */
    method LoadFirst(signedIn: bool, response: Response) returns (query: Option<Doc>)
      requires Valid()
      modifies this
      ensures Valid() && criteria == old(criteria)
      ensures !(old(hasMore) && old(items) == []) ==> query.None? && items == old(items) && page == old(page) && hasMore == old(hasMore)
      ensures old(hasMore) && old(items) == [] ==>
        && page == 1 && query == (if signedIn then Some(PageQuery(criteria, pageSize, 0)) else None)
        && (!signedIn ==> items == old(items) && hasMore)
        && (signedIn && !response.Page? ==> items == old(items) && !hasMore)
        && (signedIn && response.Page? ==>
              items == Merged(old(items), response.items) && hasMore == (|response.items| >= pageSize))
      ensures !old(hasMore) ==> !hasMore
    {
      query := None;
      if hasMore && |items| == 0 {
        query := LoadPage(signedIn, 0, response);
        page := 1;
      }
    }

    /** The sentinel came into view: with more to load, load the current
        page and move on to the next. */
    method LoadNext(signedIn: bool, response: Response) returns (query: Option<Doc>)
      requires Valid()
      modifies this
      ensures Valid() && criteria == old(criteria)
      ensures !old(hasMore) ==> query.None? && items == old(items) && page == old(page) && !hasMore
      ensures old(hasMore) ==>
        && page == old(page) + 1 && query == (if signedIn then Some(PageQuery(criteria, pageSize, old(page))) else None)
        && (!signedIn ==> items == old(items) && hasMore)
        && (signedIn && !response.Page? ==> items == old(items) && !hasMore)
        && (signedIn && response.Page? ==>
              items == Merged(old(items), response.items) && hasMore == (|response.items| >= pageSize))
    {
      query := None;
      if hasMore {
        query := LoadPage(signedIn, page, response);
        page := page + 1;
      }
    }
  }
}
