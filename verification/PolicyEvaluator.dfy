/** The evaluation engine: default deny, any satisfied applicable policy allows, and the explanation it
returns is the true one. */
module PolicyEvaluator {
  import opened Wrappers
  import opened Policies

  datatype Reason = NoAssignedPolicies | NoMatchingPolicy | ConditionFailed

  datatype Decision = Decision(
    allowed: bool, evaluated: seq<string>, matched: seq<string>, rejected: seq<string>,
    failed: map<string, seq<string>>, reason: Option<Reason>)

  datatype Request = Request(action: string, resourceType: string, resource: Option<Resource>, handlers: Handlers)

  predicate Granting(d: Definition, r: Request) { Grants(d, r.action, r.resourceType, r.resource, r.handlers) }

  predicate Rejecting(d: Definition, r: Request) { Applies(d, r.action, r.resourceType) && !Granting(d, r) }

  /** The names of the policies a predicate selects, in order. */
  function NamesOf(ds: seq<Definition>, pick: Definition -> bool): seq<string> {
    if ds == [] then []
    else NamesOf(ds[..|ds| - 1], pick) + if pick(ds[|ds| - 1]) then [ds[|ds| - 1].name] else []
  }

  lemma {:induction false} NamesOfIsEmpty(ds: seq<Definition>, pick: Definition -> bool)
    ensures NamesOf(ds, pick) == [] <==> forall d :: d in ds ==> !pick(d)
  {
    if ds != [] {
      assert ds == ds[..|ds| - 1] + [ds[|ds| - 1]];
      NamesOfIsEmpty(ds[..|ds| - 1], pick);
    }
  }

  function FailedKeys(items: seq<Condition>, r: Request): seq<string> {
    if items == [] then []
    else
      FailedKeys(items[..|items| - 1], r)
      + if Holds(items[|items| - 1], r.resource, r.handlers) then [] else [Key(items[|items| - 1])]
  }

  lemma {:induction false} NoFailedKeyMeansSatisfied(items: seq<Condition>, r: Request)
    ensures FailedKeys(items, r) == [] <==> forall c :: c in items ==> Holds(c, r.resource, r.handlers)
  {
    if items != [] {
      assert items == items[..|items| - 1] + [items[|items| - 1]];
      NoFailedKeyMeansSatisfied(items[..|items| - 1], r);
    }
  }

  /** Every key is checked, none short-circuited. */
  method EvaluateConditions(conditions: Option<seq<Condition>>, r: Request)
    returns (satisfied: bool, failed: seq<string>)
    ensures satisfied == Satisfied(conditions, r.resource, r.handlers)
    ensures failed == FailedKeys(Items(conditions), r)
  {
    failed := [];
    var items := Items(conditions);
    for k := 0 to |items|
      invariant failed == FailedKeys(items[..k], r)
    {
      assert items[..k + 1][..k] == items[..k];
      if !Holds(items[k], r.resource, r.handlers) {
        failed := failed + [Key(items[k])];
      }
    }
    assert items[..|items|] == items;
    NoFailedKeyMeansSatisfied(items, r);
    satisfied := |failed| == 0;
  }

  /** The failed keys recorded for a rejected policy name; as in the dictionary, a repeated name keeps the
  last one. */
  function FailedBy(ds: seq<Definition>, r: Request): map<string, seq<string>> {
    if ds == [] then map[]
    else
      var last := ds[|ds| - 1];
      var before := FailedBy(ds[..|ds| - 1], r);
      if Rejecting(last, r) then before[last.name := FailedKeys(Items(last.conditions), r)] else before
  }

  function DenialReason(evaluated: seq<string>, rejected: seq<string>): Reason {
    if evaluated == [] then NoAssignedPolicies
    else if rejected == [] then NoMatchingPolicy
    else ConditionFailed
  }

  /** The decision on one request over the caller's policies, in their order. */
  function DecisionOf(policies: seq<Definition>, r: Request): Decision {
    var evaluated := NamesOf(policies, p => true);
    var matched, rejected := NamesOf(policies, p => Granting(p, r)), NamesOf(policies, p => Rejecting(p, r));
    var reason := if matched == [] then Some(DenialReason(evaluated, rejected)) else None;
    Decision(matched != [], evaluated, matched, rejected, FailedBy(policies, r), reason)
  }

  /** What a decision means: allowed exactly when some policy grants, and the reason tells the three ways of being
  denied apart. */
  lemma DecisionExplains(policies: seq<Definition>, r: Request)
    ensures var d := DecisionOf(policies, r);
      && (d.allowed <==> exists p :: p in policies && Granting(p, r))
      && (d.allowed <==> d.reason.None?)
      && (d.reason == Some(NoAssignedPolicies) <==> policies == [])
      && (d.reason == Some(NoMatchingPolicy) <==>
            policies != [] && forall p :: p in policies ==> !Applies(p, r.action, r.resourceType))
      && (d.reason == Some(ConditionFailed) <==>
            (forall p :: p in policies ==> !Granting(p, r))
            && exists p :: p in policies && Applies(p, r.action, r.resourceType))
  {
    NamesOfIsEmpty(policies, p => Granting(p, r));
    NamesOfIsEmpty(policies, p => Rejecting(p, r));
    NamesOfIsEmpty(policies, p => true);
    if policies != [] { assert policies[0] in policies; }
  }

  method EvaluateDetailed(policies: seq<Definition>, r: Request) returns (d: Decision)
    ensures d == DecisionOf(policies, r)
  {
    var evaluated, matched, rejected, failed := [], [], [], map[];
    ghost var granting := (p: Definition) => Granting(p, r);
    ghost var rejecting := (p: Definition) => Rejecting(p, r);
    ghost var all := (p: Definition) => true;
    for k := 0 to |policies|
      invariant evaluated == NamesOf(policies[..k], all)
      invariant matched == NamesOf(policies[..k], granting)
      invariant rejected == NamesOf(policies[..k], rejecting)
      invariant failed == FailedBy(policies[..k], r)
    {
      var policy := policies[k];
      assert policies[..k + 1][..k] == policies[..k];
      evaluated := evaluated + [policy.name];
      if (policy.resourceType == r.resourceType || policy.resourceType == "*") && r.action in policy.actions {
        var satisfied, keys := EvaluateConditions(policy.conditions, r);
        if satisfied {
          matched := matched + [policy.name];
        } else {
          rejected := rejected + [policy.name];
          failed := failed[policy.name := keys];
        }
      }
    }
    assert policies[..|policies|] == policies;
    var allowed := |matched| > 0;
    var reason := if allowed then None else Some(DenialReason(evaluated, rejected));
    d := Decision(allowed, evaluated, matched, rejected, failed, reason);
  }
}
