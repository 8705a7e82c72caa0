/** The paginated, filtered and sorted company list, and the count beside it.

A SELECT with ORDER BY returns some arrangement of the selected rows in which no row comes before a row that
sorts ahead of it; pages are slices of such arrangements, one per request. Text columns are compared through
`rank`, the collation's order, and the search pattern is any predicate on rows. */
module CompanyListing {
  import opened Wrappers
  import opened CompanyModel
  import opened CompanyScope

  datatype Hierarchy = All | Root | Subsidiary

  datatype SortBy = ById | ByName | ByTicker | ByCreatedAt | ByParent

  datatype Query = Query(
    scope: Scope, search: Company -> bool, hierarchy: Hierarchy, sortBy: SortBy, ascending: bool,
    rank: string -> int, createdAt: nat -> int)

  type Rows = map<nat, Company>

  predicate InHierarchy(h: Hierarchy, c: Company) {
    match h
    case All => true
    case Root => c.parent.None?
    case Subsidiary => c.parent.Some?
  }

  predicate Selects(q: Query, rows: Rows, id: nat)
    requires id in rows
  {
    Listed(q.scope, id, rows[id].groupRoot) && q.search(rows[id]) && InHierarchy(q.hierarchy, rows[id])
  }

  function Selected(q: Query, rows: Rows): set<nat> { set id | id in rows && Selects(q, rows, id) }

  // ----- the self-join -----

  /** LEFT JOIN of each selected company with its parent row; None is the all-null side. */
  function Joined(q: Query, rows: Rows): set<(nat, Option<nat>)> {
    (set id, parent | id in Selected(q, rows) && parent in rows && rows[id].parent == Some(parent) ::
       (id, Some(parent)))
    + (set id | id in Selected(q, rows) && (rows[id].parent.None? || rows[id].parent.value !in rows) :: (id, None))
  }

  function JoinPartner(rows: Rows, id: nat): Option<nat>
    requires id in rows
  {
    if rows[id].parent.Some? && rows[id].parent.value in rows then rows[id].parent else None
  }

  lemma {:induction false} TaggedSize(rows: Rows, ids: set<nat>)
    requires ids <= rows.Keys
    ensures |set id | id in ids :: (id, JoinPartner(rows, id))| == |ids|
  {
    var tagged := set id | id in ids :: (id, JoinPartner(rows, id));
    if id :| id in ids {
      TaggedSize(rows, ids - {id});
      assert tagged == (set i | i in ids - {id} :: (i, JoinPartner(rows, i))) + {(id, JoinPartner(rows, id))};
    } else {
      assert tagged == {};
    }
  }

  /** Joining in the parent's name neither drops nor repeats a company: the count query, which does not join,
  returns the length of the full list. */
  lemma JoinKeepsTheCount(q: Query, rows: Rows)
    ensures |Joined(q, rows)| == |Selected(q, rows)|
    ensures forall id :: id in Selected(q, rows) ==> exists partner :: (id, partner) in Joined(q, rows)
    ensures forall id, a, b :: (id, a) in Joined(q, rows) && (id, b) in Joined(q, rows) ==> a == b
  {
    var tagged := set id | id in Selected(q, rows) :: (id, JoinPartner(rows, id));
    assert Joined(q, rows) == tagged;
    TaggedSize(rows, Selected(q, rows));
    forall id | id in Selected(q, rows) ensures exists partner :: (id, partner) in Joined(q, rows) {
      assert (id, JoinPartner(rows, id)) in tagged;
    }
  }

  /** The stats tile: every visible company is a group root or a subsidiary, never both. */
  lemma TotalIsRootsPlusSubsidiaries(q: Query, rows: Rows)
    ensures |Selected(q.(hierarchy := All), rows)|
         == |Selected(q.(hierarchy := Root), rows)| + |Selected(q.(hierarchy := Subsidiary), rows)|
  {
    var roots, subs := Selected(q.(hierarchy := Root), rows), Selected(q.(hierarchy := Subsidiary), rows);
    assert Selected(q.(hierarchy := All), rows) == roots + subs && roots !! subs;
  }

  // ----- sorting -----

  /** The sort column of a row; None is NULL, which only the joined parent name can be. */
  function SortValue(q: Query, rows: Rows, id: nat): Option<int>
    requires id in rows
  {
    match q.sortBy
    case ById => Some(id)
    case ByName => Some(q.rank(rows[id].name))
    case ByTicker => Some(q.rank(rows[id].ticker))
    case ByCreatedAt => Some(q.createdAt(id))
    case ByParent =>
      match JoinPartner(rows, id)
      case Some(parent) => Some(q.rank(rows[parent].name))
      case None => None
  }

  /** PostgreSQL's ascending order: nulls last. */
  predicate Smaller(a: Option<int>, b: Option<int>) { a.Some? && (b.None? || a.value < b.value) }

  /** `ORDER BY column, id`, both in the requested direction. */
  predicate Ahead(q: Query, rows: Rows, a: nat, b: nat)
    requires a in rows && b in rows
  {
    var x, y := SortValue(q, rows, a), SortValue(q, rows, b);
    if q.ascending then Smaller(x, y) || (x == y && a < b) else Smaller(y, x) || (x == y && b < a)
  }

  ghost predicate Arrangement(q: Query, rows: Rows, p: seq<nat>) {
    && (forall k :: 0 <= k < |p| ==> p[k] in Selected(q, rows))
    && (forall id :: id in Selected(q, rows) ==> id in p)
    && (forall j, k :: 0 <= j < k < |p| ==> p[j] != p[k])
    && (forall j, k :: 0 <= j < k < |p| ==> !Ahead(q, rows, p[k], p[j]))
  }

  lemma AheadIsTotalOrder(q: Query, rows: Rows, a: nat, b: nat, c: nat)
    requires a in rows && b in rows && c in rows
    ensures a != b ==> (Ahead(q, rows, a, b) <==> !Ahead(q, rows, b, a))
    ensures Ahead(q, rows, a, b) && Ahead(q, rows, b, c) ==> Ahead(q, rows, a, c)
  {
  }

  /** A company that one arrangement has at position k comes, in another that agrees so far, there or later. */
  lemma FoundNoEarlier(q: Query, rows: Rows, p: seq<nat>, r: seq<nat>, k: nat) returns (i: nat)
    requires Arrangement(q, rows, p) && Arrangement(q, rows, r) && k < |p| && k <= |r| && p[..k] == r[..k]
    ensures k <= i < |r| && r[i] == p[k]
  {
    assert p[k] in r;
    i :| 0 <= i < |r| && r[i] == p[k];
    forall m | 0 <= m < k
      ensures r[m] != p[k]
    {
      assert r[m] == r[..k][m] && p[m] == p[..k][m];
    }
  }

  lemma SameFirst(q: Query, rows: Rows, p: seq<nat>, r: seq<nat>, k: nat)
    requires Arrangement(q, rows, p) && Arrangement(q, rows, r) && k < |p| && k < |r| && p[..k] == r[..k]
    ensures p[k] == r[k]
  {
    var i := FoundNoEarlier(q, rows, p, r, k);
    var j := FoundNoEarlier(q, rows, r, p, k);
    if p[k] != r[k] {
      AheadIsTotalOrder(q, rows, p[k], r[k], r[k]);
    }
  }

  lemma {:induction false} SamePrefix(q: Query, rows: Rows, p: seq<nat>, r: seq<nat>, k: nat)
    requires Arrangement(q, rows, p) && Arrangement(q, rows, r) && k <= |p| && k <= |r|
    ensures p[..k] == r[..k]
  {
    if k > 0 {
      SamePrefix(q, rows, p, r, k - 1);
      SameFirst(q, rows, p, r, k - 1);
      assert p[..k] == p[..k - 1] + [p[k - 1]] && r[..k] == r[..k - 1] + [r[k - 1]];
    }
  }

  lemma {:induction false} ArrangementLength(p: seq<nat>, ids: set<nat>)
    requires forall j, k :: 0 <= j < k < |p| ==> p[j] != p[k]
    requires forall id :: id in ids <==> id in p
    ensures |p| == |ids|
  {
    if p == [] {
      assert ids == {};
    } else {
      assert p == [p[0]] + p[1..];
      ArrangementLength(p[1..], ids - {p[0]});
    }
  }

  /** Because id breaks every tie, the order leaves no freedom: any two executions of the query agree. */
  lemma ArrangementIsUnique(q: Query, rows: Rows, p: seq<nat>, r: seq<nat>)
    requires Arrangement(q, rows, p) && Arrangement(q, rows, r)
    ensures p == r && |p| == |Selected(q, rows)|
  {
    ArrangementLength(p, Selected(q, rows));
    ArrangementLength(r, Selected(q, rows));
    SamePrefix(q, rows, p, r, |p|);
    assert p[..|p|] == p && r[..|r|] == r;
  }

  // ----- pages -----

  function Page(p: seq<nat>, limit: nat, offset: nat): seq<nat> {
    if offset >= |p| then [] else if offset + limit >= |p| then p[offset..] else p[offset..offset + limit]
  }

  /** What a client sees that asks for page 0, 1, ..., each answered from that request's own execution. */
  function Pages(answers: seq<seq<nat>>, limit: nat, n: nat): seq<nat>
    requires n <= |answers|
  {
    if n == 0 then [] else Pages(answers, limit, n - 1) + Page(answers[n - 1], limit, (n - 1) * limit)
  }

  function UpTo(p: seq<nat>, n: nat): seq<nat> { if n >= |p| then p else p[..n] }

  lemma PageExtends(p: seq<nat>, limit: nat, offset: nat)
    ensures UpTo(p, offset) + Page(p, limit, offset) == UpTo(p, offset + limit)
  {
  }

  lemma {:induction false} PagesArePrefix(p: seq<nat>, answers: seq<seq<nat>>, limit: nat, n: nat)
    requires n <= |answers| && forall k :: 0 <= k < n ==> answers[k] == p
    ensures Pages(answers, limit, n) == UpTo(p, n * limit)
  {
    if n > 0 {
      var offset := (n - 1) * limit;
      PagesArePrefix(p, answers, limit, n - 1);
      PageExtends(p, limit, offset);
      assert n * limit == offset + limit;
    }
  }

  /** Page after page, a client sees each company in scope exactly once and in order, and the count is the
  number of companies it sees; for any page size, filter, sort column and direction. */
  lemma PagesTile(q: Query, rows: Rows, p: seq<nat>, answers: seq<seq<nat>>, limit: nat)
    requires Arrangement(q, rows, p) && forall k :: 0 <= k < |answers| ==> Arrangement(q, rows, answers[k])
    requires |answers| * limit >= |Selected(q, rows)|
    ensures Pages(answers, limit, |answers|) == p && |p| == |Selected(q, rows)|
  {
    ArrangementIsUnique(q, rows, p, p);
    forall k | 0 <= k < |answers| ensures answers[k] == p { ArrangementIsUnique(q, rows, answers[k], p); }
    PagesArePrefix(p, answers, limit, |answers|);
  }
}
