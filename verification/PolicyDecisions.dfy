/** What the reports of a decision say, told from the policies and the request alone. */
module PolicyDecisions {
  import opened Wrappers
  import opened Policies
  import opened PolicyEvaluator

  // ----- conditions -----

  /** The condition keys that have a handler besides `resource_attributes`. */
  const HANDLED := ["self_only", "context_attributes", "time", "date_range", "network", "security_context"]

  /** A condition with a handler is decided by that handler, one without any is refused. */
  lemma HandlerDecides(key: string, config: string, resource: Option<Resource>, handlers: Handlers)
    ensures Holds(Other(key, config), resource, handlers) <==> key in HANDLED && handlers(key, config)
  {
    assert forall k :: k in HANDLED <==> k == HANDLED[0] || k == HANDLED[1] || k == HANDLED[2] || k == HANDLED[3]
                                         || k == HANDLED[4] || k == HANDLED[5];
  }

  /** `resource_attributes` asks for each listed field to be on the resource with the listed value, where null also
  stands for a missing field; an empty list asks for nothing, not even a resource. */
  lemma AttributesDecide(attrs: map<string, Value>, resource: Option<Resource>, handlers: Handlers)
    ensures Holds(ResourceAttributes(attrs), resource, handlers) <==>
      || attrs.Keys == {}
      || (resource.Some? && forall f :: f in attrs.Keys ==>
            if f in resource.value then resource.value[f] == attrs[f] else attrs[f] == Null)
  {
    assert attrs.Keys == {} <==> attrs == map[];
  }

  /** Satisfied if and only if no handler that is asked refuses, none is missing, and every attribute matches. */
  lemma SatisfiedExactlyWhenNothingRefuses(
    conditions: Option<seq<Condition>>, resource: Option<Resource>, handlers: Handlers)
    ensures Satisfied(conditions, resource, handlers) <==>
      conditions == None
      || ((forall key, config :: Other(key, config) in conditions.value ==> key in HANDLED && handlers(key, config))
          && forall attrs :: ResourceAttributes(attrs) in conditions.value ==>
              || attrs.Keys == {}
              || (resource.Some? && forall f :: f in attrs.Keys ==>
                    if f in resource.value then resource.value[f] == attrs[f] else attrs[f] == Null))
  {
    forall key, config
      ensures Holds(Other(key, config), resource, handlers) <==> key in HANDLED && handlers(key, config)
    {
      HandlerDecides(key, config, resource, handlers);
    }
    forall attrs
      ensures Holds(ResourceAttributes(attrs), resource, handlers) <==>
        || attrs.Keys == {}
        || (resource.Some? && forall f :: f in attrs.Keys ==>
              if f in resource.value then resource.value[f] == attrs[f] else attrs[f] == Null)
    {
      AttributesDecide(attrs, resource, handlers);
    }
    if conditions.Some? { EachIsOfEitherKind(conditions.value, resource, handlers); }
  }

  lemma EachIsOfEitherKind(items: seq<Condition>, resource: Option<Resource>, handlers: Handlers)
    ensures (forall c :: c in items ==> Holds(c, resource, handlers)) <==>
      (forall key, config :: Other(key, config) in items ==> Holds(Other(key, config), resource, handlers))
      && (forall attrs :: ResourceAttributes(attrs) in items ==> Holds(ResourceAttributes(attrs), resource, handlers))
  {
    if (forall key, config :: Other(key, config) in items ==> Holds(Other(key, config), resource, handlers))
      && (forall attrs :: ResourceAttributes(attrs) in items ==> Holds(ResourceAttributes(attrs), resource, handlers))
    {
      forall c | c in items
        ensures Holds(c, resource, handlers)
      {
        match c
        case Other(key, config) => assert Other(key, config) in items;
        case ResourceAttributes(attrs) => assert ResourceAttributes(attrs) in items;
      }
    }
  }

  // ----- reports are in order and complete -----

  /** The failed keys of two stretches of conditions are those of the first, then those of the second. */
  lemma {:induction false} FailedKeysComeInOrder(a: seq<Condition>, b: seq<Condition>, r: Request)
    ensures FailedKeys(a + b, r) == FailedKeys(a, r) + FailedKeys(b, r)
  {
    if b == [] {
      assert a + b == a;
    } else {
      var rest, last := b[..|b| - 1], b[|b| - 1];
      FailedKeysComeInOrder(a, rest, r);
      assert (a + b)[..|a + b| - 1] == a + rest && (a + b)[|a + b| - 1] == last;
    }
  }

  /** One condition fails under its own key, or not at all. With the law above this fixes the whole report. */
  lemma OneConditionFailsUnderItsKey(r: Request)
    ensures FailedKeys([], r) == []
    ensures forall key, config ::
      FailedKeys([Other(key, config)], r) == if key in HANDLED && r.handlers(key, config) then [] else [key]
    ensures forall attrs ::
      FailedKeys([ResourceAttributes(attrs)], r)
      == if Holds(ResourceAttributes(attrs), r.resource, r.handlers) then [] else ["resource_attributes"]
  {
    forall key, config
      ensures FailedKeys([Other(key, config)], r) == if key in HANDLED && r.handlers(key, config) then [] else [key]
    {
      HandlerDecides(key, config, r.resource, r.handlers);
      assert [Other(key, config)][..0] == [];
    }
    forall attrs
      ensures FailedKeys([ResourceAttributes(attrs)], r)
           == if Holds(ResourceAttributes(attrs), r.resource, r.handlers) then [] else ["resource_attributes"]
    {
      assert [ResourceAttributes(attrs)][..0] == [];
    }
  }

  /** The names picked from two stretches of policies are those of the first, then those of the second. */
  lemma {:induction false} NamesComeInOrder(a: seq<Definition>, b: seq<Definition>, pick: Definition -> bool)
    ensures NamesOf(a + b, pick) == NamesOf(a, pick) + NamesOf(b, pick)
  {
    if b == [] {
      assert a + b == a;
    } else {
      var rest, last := b[..|b| - 1], b[|b| - 1];
      NamesComeInOrder(a, rest, pick);
      assert (a + b)[..|a + b| - 1] == a + rest && (a + b)[|a + b| - 1] == last;
    }
  }

  lemma OnePolicyIsNamedIfPicked(d: Definition, pick: Definition -> bool)
    ensures NamesOf([], pick) == [] && NamesOf([d], pick) == if pick(d) then [d.name] else []
  {
    assert [d][..0] == [];
  }

  /** Position k is the last rejected policy of that name. */
  ghost predicate LastRejected(ds: seq<Definition>, r: Request, name: string, k: nat) {
    && k < |ds| && ds[k].name == name && Rejecting(ds[k], r)
    && forall j :: k < j < |ds| && ds[j].name == name ==> !Rejecting(ds[j], r)
  }

  lemma LastRejectedStays(rest: seq<Definition>, last: Definition, r: Request, name: string, k: nat)
    requires LastRejected(rest, r, name, k) && !(last.name == name && Rejecting(last, r))
    ensures LastRejected(rest + [last], r, name, k)
  {
    forall j | k < j < |rest + [last]| && (rest + [last])[j].name == name
      ensures !Rejecting((rest + [last])[j], r)
    {
      if j < |rest| { assert (rest + [last])[j] == rest[j]; }
    }
  }

  /** The failed conditions are recorded for exactly the rejected policies; of several with one name the last counts. */
  lemma {:induction false} FailedIsRecordedForTheRejected(ds: seq<Definition>, r: Request, name: string)
    returns (k: nat)
    ensures name in FailedBy(ds, r) <==> exists d :: d in ds && d.name == name && Rejecting(d, r)
    ensures name in FailedBy(ds, r) ==>
      LastRejected(ds, r, name, k) && FailedBy(ds, r)[name] == FailedKeys(Items(ds[k].conditions), r)
  {
    k := 0;
    if ds != [] {
      var rest, last := ds[..|ds| - 1], ds[|ds| - 1];
      assert ds == rest + [last];
      k := FailedIsRecordedForTheRejected(rest, r, name);
      if Rejecting(last, r) && last.name == name {
        k := |ds| - 1;
      } else if name in FailedBy(rest, r) {
        LastRejectedStays(rest, last, r, name, k);
      }
    }
  }

  // ----- verdicts -----

  /** The policies that grant are those that name the action, cover the resource type and have their conditions met. */
  lemma GrantingMeans(d: Definition, r: Request)
    ensures Granting(d, r) <==>
      r.action in d.actions && (d.resourceType == "*" || d.resourceType == r.resourceType)
      && Satisfied(d.conditions, r.resource, r.handlers)
  {
  }

  /** A decision over policies each of which carries a condition whose handler refuses is a denial. */
  lemma RefusedEverywhereIsDenied(ds: seq<Definition>, r: Request)
    requires forall d :: d in ds ==>
      exists key, config :: Other(key, config) in Items(d.conditions) && !r.handlers(key, config)
    ensures !DecisionOf(ds, r).allowed && DecisionOf(ds, r).matched == []
  {
    forall d | d in ds
      ensures !Granting(d, r)
    {
      var key, config :| Other(key, config) in Items(d.conditions) && !r.handlers(key, config);
      HandlerDecides(key, config, r.resource, r.handlers);
    }
    NamesOfIsEmpty(ds, p => Granting(p, r));
  }

  /** Every policy that applies is reported as matched or as rejected, by whether it grants, and no other is. */
  lemma ReportsAreComplete(ds: seq<Definition>, r: Request, name: string)
    ensures name in DecisionOf(ds, r).matched <==> exists d :: d in ds && d.name == name && Granting(d, r)
    ensures name in DecisionOf(ds, r).rejected <==> exists d :: d in ds && d.name == name && Rejecting(d, r)
    ensures |DecisionOf(ds, r).evaluated| == |ds|
    ensures forall k :: 0 <= k < |ds| ==> DecisionOf(ds, r).evaluated[k] == ds[k].name
  {
    NamedExactlyIfPicked(ds, p => Granting(p, r), name);
    NamedExactlyIfPicked(ds, p => Rejecting(p, r), name);
    AllAreNamed(ds);
  }

  lemma {:induction false} NamedExactlyIfPicked(ds: seq<Definition>, pick: Definition -> bool, name: string)
    ensures name in NamesOf(ds, pick) <==> exists d :: d in ds && d.name == name && pick(d)
  {
    if ds != [] {
      assert ds == ds[..|ds| - 1] + [ds[|ds| - 1]];
      NamedExactlyIfPicked(ds[..|ds| - 1], pick, name);
    }
  }

  lemma {:induction false} AllAreNamed(ds: seq<Definition>)
    ensures var names := NamesOf(ds, p => true);
      |names| == |ds| && forall k :: 0 <= k < |ds| ==> names[k] == ds[k].name
  {
    if ds != [] { AllAreNamed(ds[..|ds| - 1]); }
  }
}
