/** The one-query list scope against the policy evaluator that decides about one company at a time. */
module CompanyScope {
  import opened Wrappers
  import opened Policies
  import opened CompanyModel
  import CompanyForest

  datatype Scope = Scope(unrestricted: bool, companyIds: set<Value>, groupRootIds: set<Value>) {
    predicate IsEmpty() { !unrestricted && companyIds == {} && groupRootIds == {} }
  }

  function ScopeDict(id: nat, groupRoot: nat): Resource {
    map["company_id" := Num(id), "group_root_id" := Num(groupRoot)]
  }

  /** The `resource_attributes` of a policy; empty when it has none. */
  function AttributesOf(d: Definition): map<string, Value> { FirstAttributes(Items(d.conditions)) }

  function FirstAttributes(items: seq<Condition>): map<string, Value> {
    if items == [] then map[]
    else if items[0].ResourceAttributes? then items[0].attrs
    else FirstAttributes(items[1..])
  }

  /** `conditions` is a JSON object, so the key occurs at most once. */
  predicate OneAttributesKey(d: Definition) {
    forall j, k :: 0 <= j < k < |Items(d.conditions)| ==>
      !(Items(d.conditions)[j].ResourceAttributes? && Items(d.conditions)[k].ResourceAttributes?)
  }

  /** Some applicable policy has no attributes at all. */
  ghost predicate Opened(ds: seq<Definition>, action: string, resourceType: string) {
    exists d :: d in ds && Applies(d, action, resourceType) && AttributesOf(d) == map[]
  }

  /** Some applicable policy asks for `key` to be `v`. */
  ghost predicate Names(ds: seq<Definition>, action: string, resourceType: string, key: string, v: Value) {
    exists d :: d in ds && Applies(d, action, resourceType) && key in AttributesOf(d) && AttributesOf(d)[key] == v
  }

  /** What the scope of a list of policies contains. */
  ghost predicate IsScopeOf(s: Scope, ds: seq<Definition>, action: string, resourceType: string) {
    && (s.unrestricted <==> Opened(ds, action, resourceType))
    && (forall v :: v in s.companyIds <==> Names(ds, action, resourceType, "company_id", v))
    && (forall v :: v in s.groupRootIds <==> Names(ds, action, resourceType, "group_root_id", v))
  }

  lemma OneMorePolicy(ds: seq<Definition>, d: Definition, action: string, resourceType: string, key: string)
    ensures Opened(ds + [d], action, resourceType) <==>
      Opened(ds, action, resourceType) || (Applies(d, action, resourceType) && AttributesOf(d) == map[])
    ensures forall v :: Names(ds + [d], action, resourceType, key, v) <==>
      Names(ds, action, resourceType, key, v)
      || (Applies(d, action, resourceType) && key in AttributesOf(d) && AttributesOf(d)[key] == v)
  {
    assert forall e :: e in ds + [d] <==> e in ds || e == d;
  }

  method GetCompanyScope(policies: seq<Definition>, action: string, resourceType: string) returns (s: Scope)
    ensures IsScopeOf(s, policies, action, resourceType)
  {
    s := Scope(false, {}, {});
    for k := 0 to |policies|
      invariant IsScopeOf(s, policies[..k], action, resourceType)
    {
      var policy := policies[k];
      assert policies[..k + 1] == policies[..k] + [policy];
      OneMorePolicy(policies[..k], policy, action, resourceType, "company_id");
      OneMorePolicy(policies[..k], policy, action, resourceType, "group_root_id");
      if (policy.resourceType != resourceType && policy.resourceType != "*") || action !in policy.actions { continue; }
      var attrs := AttributesOf(policy);
      if attrs == map[] {
        s := s.(unrestricted := true);
        continue;
      }
      if "company_id" in attrs { s := s.(companyIds := s.companyIds + {attrs["company_id"]}); }
      if "group_root_id" in attrs { s := s.(groupRootIds := s.groupRootIds + {attrs["group_root_id"]}); }
    }
    assert policies[..|policies|] == policies;
  }

  // ----- the WHERE clause -----

  /** The OR-ed clauses of the list query, evaluated on one row. */
  function Clauses(s: Scope, id: nat, groupRoot: nat): seq<bool> {
    (if s.companyIds != {} then [Num(id) in s.companyIds] else [])
    + (if s.groupRootIds != {} then [Num(groupRoot) in s.groupRootIds] else [])
  }

  /** An OR over no clauses restricts nothing. */
  predicate AnyOf(clauses: seq<bool>) { clauses == [] || true in clauses }

  /** A row the list shows: the empty scope short-circuits, an unrestricted one adds no WHERE. */
  predicate Listed(s: Scope, id: nat, groupRoot: nat) {
    !s.IsEmpty() && (s.unrestricted || AnyOf(Clauses(s, id, groupRoot)))
  }

  /** The query is never run with an empty OR, so the list shows exactly the rows the scope names. */
  lemma ListedMeansNamed(s: Scope, id: nat, groupRoot: nat)
    ensures !s.IsEmpty() && !s.unrestricted ==> Clauses(s, id, groupRoot) != []
    ensures Listed(s, id, groupRoot) <==>
      s.unrestricted || Num(id) in s.companyIds || Num(groupRoot) in s.groupRootIds
  {
    var clauses := Clauses(s, id, groupRoot);
    if s.companyIds != {} { assert clauses[0] == (Num(id) in s.companyIds); }
    if s.groupRootIds != {} { assert clauses[|clauses| - 1] == (Num(groupRoot) in s.groupRootIds); }
  }

  // ----- the list against the evaluator -----

  ghost predicate Granted(
    ds: seq<Definition>, action: string, resourceType: string, id: nat, groupRoot: nat, handlers: Handlers)
  {
    exists d :: d in ds && Grants(d, action, resourceType, Some(ScopeDict(id, groupRoot)), handlers)
  }

  /** A policy the evaluator lets through for every company while the scope takes nothing from it: it asks
  for other attributes to be null. */
  predicate AsksOnlyForNulls(d: Definition) {
    && AttributesOf(d) != map[]
    && (forall f :: f in AttributesOf(d) ==> AttributesOf(d)[f] == Null && f != "company_id" && f != "group_root_id")
    && forall c :: c in Items(d.conditions) && c.Other? ==> Registered(c.key)
  }

  lemma {:induction false} AttributesAreAnItem(items: seq<Condition>)
    ensures FirstAttributes(items) != map[] ==> ResourceAttributes(FirstAttributes(items)) in items
  {
    if items != [] && !items[0].ResourceAttributes? {
      AttributesAreAnItem(items[1..]);
    }
  }

  lemma {:induction false} OnlyAttributesItem(items: seq<Condition>, c: Condition)
    requires c in items && c.ResourceAttributes?
    requires forall j, k :: 0 <= j < k < |items| ==> !(items[j].ResourceAttributes? && items[k].ResourceAttributes?)
    ensures c.attrs == FirstAttributes(items)
  {
    if !items[0].ResourceAttributes? { OnlyAttributesItem(items[1..], c); }
  }

  /** A satisfied policy whose attributes name neither id is satisfied because they are all null. */
  lemma GrantNamesOrNulls(
    d: Definition, action: string, resourceType: string, id: nat, groupRoot: nat, handlers: Handlers)
    requires Grants(d, action, resourceType, Some(ScopeDict(id, groupRoot)), handlers)
    ensures
      || AttributesOf(d) == map[]
      || ("company_id" in AttributesOf(d) && AttributesOf(d)["company_id"] == Num(id))
      || ("group_root_id" in AttributesOf(d) && AttributesOf(d)["group_root_id"] == Num(groupRoot))
      || AsksOnlyForNulls(d)
  {
    var attrs := AttributesOf(d);
    if attrs != map[] {
      AttributesAreAnItem(Items(d.conditions));
      assert Holds(ResourceAttributes(attrs), Some(ScopeDict(id, groupRoot)), handlers);
      forall f | f in attrs ensures attrs[f] == FieldOf(ScopeDict(id, groupRoot), f) {}
    }
  }

  /** The only way a granted company can be missing from the list. */
  lemma MissedOnlyThroughNulls(
    s: Scope, ds: seq<Definition>, action: string, resourceType: string, id: nat, groupRoot: nat, handlers: Handlers)
    requires IsScopeOf(s, ds, action, resourceType)
    requires Granted(ds, action, resourceType, id, groupRoot, handlers) && !Listed(s, id, groupRoot)
    ensures exists d :: d in ds && Applies(d, action, resourceType) && AsksOnlyForNulls(d)
  {
    var d :| d in ds && Grants(d, action, resourceType, Some(ScopeDict(id, groupRoot)), handlers);
    GrantNamesOrNulls(d, action, resourceType, id, groupRoot, handlers);
    ListedMeansNamed(s, id, groupRoot);
  }

  lemma {:induction false} UnusedNumber(vs: set<Value>) returns (n: nat)
    ensures forall m: nat :: m >= n ==> Num(m) !in vs
    decreases |vs|
  {
    n := 0;
    if v :| v in vs {
      n := UnusedNumber(vs - {v});
      if v.Num? && v.n >= n { n := v.n + 1; }
    }
  }

  lemma NullsGrantEverything(d: Definition, action: string, resourceType: string, id: nat, groupRoot: nat)
    requires Applies(d, action, resourceType) && AsksOnlyForNulls(d) && OneAttributesKey(d)
    ensures Grants(d, action, resourceType, Some(ScopeDict(id, groupRoot)), (key, config) => true)
  {
    forall c | c in Items(d.conditions)
      ensures Holds(c, Some(ScopeDict(id, groupRoot)), (key, config) => true)
    {
      if c.ResourceAttributes? { OnlyAttributesItem(Items(d.conditions), c); }
    }
  }

  /** For every company and every answer of the other handlers, what the evaluator grants is listed. */
  ghost predicate ListCovers(s: Scope, ds: seq<Definition>, action: string, resourceType: string) {
    forall id: nat, groupRoot: nat, handlers ::
      Granted(ds, action, resourceType, id, groupRoot, handlers) ==> Listed(s, id, groupRoot)
  }

  lemma NullPolicyIsMissed(s: Scope, ds: seq<Definition>, action: string, resourceType: string, d: Definition)
    requires IsScopeOf(s, ds, action, resourceType) && !s.unrestricted
    requires d in ds && Applies(d, action, resourceType) && AsksOnlyForNulls(d) && OneAttributesKey(d)
    ensures !ListCovers(s, ds, action, resourceType)
  {
    var id := UnusedNumber(s.companyIds);
    var groupRoot := UnusedNumber(s.groupRootIds);
    NullsGrantEverything(d, action, resourceType, id, groupRoot);
    ListedMeansNamed(s, id, groupRoot);
    assert Granted(ds, action, resourceType, id, groupRoot, (key, config) => true);
  }

  /** The plainest such policy, alone: it grants every company and lists none. */
  lemma NullPolicyGrantsAllAndListsNone(s: Scope, action: string, id: nat, groupRoot: nat, handlers: Handlers)
    requires IsScopeOf(s, [NullPolicy(action)], action, "company")
    ensures Granted([NullPolicy(action)], action, "company", id, groupRoot, handlers) && !Listed(s, id, groupRoot)
  {
    var d := NullPolicy(action);
    assert AttributesOf(d) == map["owner" := Null] && "owner" in AttributesOf(d);
    assert Grants(d, action, "company", Some(ScopeDict(id, groupRoot)), handlers);
    ListedMeansNamed(s, id, groupRoot);
  }

  function NullPolicy(action: string): Definition {
    Definition("unowned", None, [action], "company", Some([ResourceAttributes(map["owner" := Null])]), true)
  }

  lemma WithoutNullsNothingIsMissed(s: Scope, ds: seq<Definition>, action: string, resourceType: string)
    requires IsScopeOf(s, ds, action, resourceType)
    requires s.unrestricted || !exists d :: d in ds && Applies(d, action, resourceType) && AsksOnlyForNulls(d)
    ensures ListCovers(s, ds, action, resourceType)
  {
    forall id: nat, groupRoot: nat, handlers | Granted(ds, action, resourceType, id, groupRoot, handlers)
      ensures Listed(s, id, groupRoot)
    {
      ListedMeansNamed(s, id, groupRoot);
      if !Listed(s, id, groupRoot) { MissedOnlyThroughNulls(s, ds, action, resourceType, id, groupRoot, handlers); }
    }
  }

  /** The list shows every company the evaluator grants, exactly unless a policy asks for nothing but null
  attributes and no other policy opens the whole list. */
  lemma ListCoversExactlyWithoutNulls(s: Scope, ds: seq<Definition>, action: string, resourceType: string)
    requires IsScopeOf(s, ds, action, resourceType) && forall d :: d in ds ==> OneAttributesKey(d)
    ensures ListCovers(s, ds, action, resourceType) <==>
      s.unrestricted || !exists d :: d in ds && Applies(d, action, resourceType) && AsksOnlyForNulls(d)
  {
    if s.unrestricted || !exists d :: d in ds && Applies(d, action, resourceType) && AsksOnlyForNulls(d) {
      WithoutNullsNothingIsMissed(s, ds, action, resourceType);
    } else {
      var d :| d in ds && Applies(d, action, resourceType) && AsksOnlyForNulls(d);
      NullPolicyIsMissed(s, ds, action, resourceType, d);
    }
  }

  /** The condition shapes the app seeds: none, one company, one group. */
  predicate Documented(d: Definition) {
    var items := Items(d.conditions);
    || items == []
    || (|items| == 1 && items[0].ResourceAttributes?
        && (items[0].attrs.Keys == {"company_id"} || items[0].attrs.Keys == {"group_root_id"}))
  }

  lemma DocumentedGrant(
    d: Definition, action: string, resourceType: string, id: nat, groupRoot: nat, handlers: Handlers)
    requires Documented(d) && Applies(d, action, resourceType)
    ensures Grants(d, action, resourceType, Some(ScopeDict(id, groupRoot)), handlers) <==>
      || AttributesOf(d) == map[]
      || ("company_id" in AttributesOf(d) && AttributesOf(d)["company_id"] == Num(id))
      || ("group_root_id" in AttributesOf(d) && AttributesOf(d)["group_root_id"] == Num(groupRoot))
  {
    var items := Items(d.conditions);
    if items != [] {
      assert forall c :: c in items <==> c == items[0];
      var attrs := AttributesOf(d);
      assert attrs == items[0].attrs && attrs != map[];
      var key := if "company_id" in attrs then "company_id" else "group_root_id";
      assert attrs.Keys == {key} && forall f :: f in attrs <==> f == key;
      var resource := ScopeDict(id, groupRoot);
      assert Holds(items[0], Some(resource), handlers) <==> FieldOf(resource, key) == attrs[key];
    }
  }

  /** On the documented shapes the list and the evaluator agree on every company. */
  lemma DocumentedShapesAgree(
    s: Scope, ds: seq<Definition>, action: string, resourceType: string, id: nat, groupRoot: nat, handlers: Handlers)
    requires IsScopeOf(s, ds, action, resourceType)
    requires forall d :: d in ds && Applies(d, action, resourceType) ==> Documented(d)
    ensures Granted(ds, action, resourceType, id, groupRoot, handlers) <==> Listed(s, id, groupRoot)
  {
    ListedMeansNamed(s, id, groupRoot);
    forall d | d in ds && Applies(d, action, resourceType) {
      DocumentedGrant(d, action, resourceType, id, groupRoot, handlers);
    }
  }

  /** A group scope lists exactly one tree of the hierarchy, in every table the company operations produce. */
  lemma GroupScopeListsOneTree(t: Table, steps: seq<Step>, root: nat, id: nat)
    requires Forest(t) && id in Run(t, steps).rows
    ensures Listed(Scope(false, {}, {Num(root)}), id, Run(t, steps).rows[id].groupRoot)
       <==> Topmost(Run(t, steps).rows, id, root)
  {
    var t' := Run(t, steps);
    CompanyForest.RunKeepsForest(t, steps);
    CompanyForest.GroupRootSelectsOneTree(t', id, root);
    ListedMeansNamed(Scope(false, {}, {Num(root)}), id, t'.rows[id].groupRoot);
  }
}
