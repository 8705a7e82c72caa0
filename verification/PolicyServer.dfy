/** The policy repository, the authorization service and the policy routes as the code runs them: one object
holding the tables, the cache and the clock. Each request is proved to take exactly the step PolicyStore
describes, so what is proved of every run of steps is proved of these methods. */
module PolicyServer {
  import opened Wrappers
  import opened Policies
  import opened PolicyEvaluator
  import opened PolicyHistory
  import opened PolicyStore
  import opened PolicyTables

  class Server {
    const sensitive: set<string>
    var now: nat
    var users: map<Email, Account>
    var nextUser: nat
    var policies: map<nat, Definition>
    var nextPolicy: nat
    var held: set<(nat, nat)>
    var history: seq<Entry>
    var cache: map<Email, Cached>
    ghost var inFlight: set<(Email, set<Definition>)>

    ghost function Now(): State
      reads this
    {
      State(now, sensitive, users, nextUser, policies, nextPolicy, held, history, cache, inFlight)
    }

    constructor (sensitive: set<string>, users: map<Email, Account>, nextUser: nat, policies: map<nat, Definition>,
                 nextPolicy: nat, held: set<(nat, nat)>, start: nat)
      ensures Now() == State(start, sensitive, users, nextUser, policies, nextPolicy, held, [], map[], {})
    {
      this.sensitive, this.users, this.nextUser := sensitive, users, nextUser;
      this.policies, this.nextPolicy, this.held := policies, nextPolicy, held;
      now, history, cache, inFlight := start, [], map[], {};
    }

    // ----- policy_repository -----

    method GetByName(name: string) returns (found: Option<nat>)
      requires NamesUnique(policies)
      ensures found == FindByName(policies, name)
    {
      found := None;
      var ids := policies.Keys;
      while ids != {}
        invariant ids <= policies.Keys
        invariant forall p :: Named(policies, p, name) ==> p in ids
        decreases |ids|
      {
        var p :| p in ids;
        if policies[p].name == name {
          assert Named(policies, p, name);
          return Some(p);
        }
        ids := ids - {p};
      }
    }

    /** Cache-aside: a live entry is returned as it is, a miss runs the join and fills the cache. */
    method GetActivePoliciesForUser(email: Email) returns (list: set<Definition>)
      modifies this`cache
      ensures list == ListFor(old(Now()), email) && Now() == Fetch(old(Now()), email)
    {
      if email in cache && now < cache[email].deadline { return cache[email].list; }
      list := {};
      var ids := policies.Keys;
      while ids != {}
        invariant ids <= policies.Keys
        invariant list == set p | p in policies && p !in ids && email in users && (users[email].id, p) in held
                                  && policies[p].active :: policies[p]
        decreases |ids|
      {
        var p :| p in ids;
        if email in users && (users[email].id, p) in held && policies[p].active {
          list := list + {policies[p]};
        }
        ids := ids - {p};
      }
      cache := cache[email := Cached(list, now + CACHE_TTL)];
    }

    method CreateRow(d: Definition, author: Email)
      modifies this`policies, this`nextPolicy, this`history
      ensures Now() == Inserted(old(Now()), d, author)
    {
      policies := policies[nextPolicy := d];
      history := history + [Entry(nextPolicy, d.name, Created, None, Some(d), None, author)];
      nextPolicy := nextPolicy + 1;
    }

    /** One `setattr` per change, then the comparison of the two snapshots over the changed columns. */
    method UpdateRow(p: nat, cs: seq<Change>, kind: Kind, author: Email)
      requires p in policies
      modifies this`policies, this`history, this`cache
      ensures Now() == Rewritten(old(Now()), p, cs, kind, author)
    {
      var before := policies[p];
      var after := before;
      for k := 0 to |cs|
        invariant after == WriteAll(before, cs[..k])
      {
        assert cs[..k + 1][..k] == cs[..k];
        after := Write(after, cs[k]);
      }
      var changed := [];
      for k := 0 to |cs|
        invariant changed == ChangedFields(cs[..k], before, after)
      {
        assert cs[..k + 1][..k] == cs[..k];
        if Differs(ColumnOf(cs[k]), before, after) {
          changed := changed + [ColumnOf(cs[k])];
        }
      }
      assert cs[..|cs|] == cs;
      policies := policies[p := after];
      history := history + [Entry(p, after.name, kind, Some(before), Some(after), Some(changed), author)];
      cache := map[];
    }

    method DeleteRow(p: nat, author: Email)
      requires p in policies
      modifies this`policies, this`held, this`history, this`cache
      ensures Now() == Removed(old(Now()), p, author)
    {
      history := history + [Entry(p, policies[p].name, Deleted, Some(policies[p]), None, None, author)];
      held := held - (set a | a in held && a.1 == p);
      policies := policies - {p};
      cache := map[];
    }

    method AssignPolicyToUser(email: Email, p: nat)
      requires email in users
      modifies this`held, this`cache
      ensures Now() == Assigned(old(Now()), email, p)
    {
      if (users[email].id, p) in held { return; }
      held := held + {(users[email].id, p)};
      cache := cache - {email};
    }

    method RemovePolicyFromUser(email: Email, p: nat) returns (removed: bool)
      requires email in users
      modifies this`held, this`cache
      ensures removed == ((users[email].id, p) in old(held))
      ensures Now() == if removed then Unassigned(old(Now()), email, p) else old(Now())
    {
      removed := (users[email].id, p) in held;
      if !removed { return; }
      held := held - {(users[email].id, p)};
      cache := cache - {email};
    }

    method CountAssignments(p: nat) returns (count: nat)
      ensures count == |Holders(Now(), p)|
    {
      var rows := set a | a in held && a.1 == p;
      count := |rows|;
    }

    // ----- authorization_service -----

    /** One decision, explained, on the list the account is shown. */
    method Authorize(email: Email, r: Request) returns (decision: Decision)
      modifies this`cache
      ensures Now() == Fetch(old(Now()), email)
      ensures exists rows :: Arranges(rows, ListFor(old(Now()), email)) && decision == DecisionOf(rows, r)
      ensures decision.allowed <==> exists d :: d in ListFor(old(Now()), email) && Granting(d, r)
    {
      var list := GetActivePoliciesForUser(email);
      var rows := InSomeOrder(list);
      decision := EvaluateDetailed(rows, r);
      DecisionExplains(rows, r);
    }

    /** One fetch for the whole batch: the decisions, reasons and reports included, are those of single checks on one
    arrangement of the list, in request order. */
    method AuthorizeBatch(email: Email, checks: seq<Request>) returns (decisions: seq<Decision>)
      modifies this`cache
      ensures Now() == Fetch(old(Now()), email) && |decisions| == |checks|
      ensures exists rows ::
        (Arranges(rows, ListFor(old(Now()), email))
         && forall k :: 0 <= k < |checks| ==> decisions[k] == DecisionOf(rows, checks[k]))
    {
      var list := GetActivePoliciesForUser(email);
      var rows := InSomeOrder(list);
      decisions := [];
      for k := 0 to |checks|
        invariant Now() == Fetch(old(Now()), email) && |decisions| == k
        invariant forall i :: 0 <= i < k ==> decisions[i] == DecisionOf(rows, checks[i])
      {
        var decision := EvaluateDetailed(rows, checks[k]);
        decisions := decisions + [decision];
      }
      assert Arranges(rows, list);
    }

    /** `require` without a resource: what the route dependency and the grant guard ask. */
    method Require(email: Email, action: string, resourceType: string, handlers: Handlers) returns (allowed: bool)
      modifies this`cache
      ensures allowed == Allows(ListFor(old(Now()), email), action, resourceType, handlers)
      ensures Now() == Fetch(old(Now()), email)
    {
      var decision := Authorize(email, Request(action, resourceType, None, handlers));
      GrantingIsAllowing(ListFor(old(Now()), email), Request(action, resourceType, None, handlers));
      allowed := decision.allowed;
    }

    /** The grant guard: the first guarded action the caller does not hold ends the loop. */
    method AssertAuthorizedToGrant(email: Email, actions: seq<string>, resourceType: string, handlers: Handlers)
      returns (granted: bool)
      modifies this`cache
      ensures granted == MayGrant(old(Now()), email, actions, resourceType, handlers)
      ensures Now() == old(Now()) || Now() == Fetch(old(Now()), email)
    {
      ghost var start := Now();
      for k := 0 to |actions|
        invariant Now() == start || Now() == Fetch(start, email)
        invariant forall i :: 0 <= i < k && actions[i] in sensitive ==>
          Allows(ListFor(start, email), actions[i], resourceType, handlers)
      {
        if actions[k] in sensitive {
          var allowed := Require(email, actions[k], resourceType, handlers);
          if !allowed { return false; }
        }
      }
      granted := true;
    }

    /** Authentication, then the route's permission. */
    method Check(caller: Caller, action: string, resourceType: string) returns (refused: Option<Outcome>)
      modifies this`cache
      ensures Now() == if CanCall(old(Now()), caller.email) then Fetch(old(Now()), caller.email) else old(Now())
      ensures refused == Refusal(old(Now()), caller, action, resourceType)
      ensures refused.None? ==> Hit(Now(), caller.email)
    {
      if caller.email !in users { return Some(Unauthenticated); }
      if !users[caller.email].active { return Some(Forbidden); }
      var allowed := Require(caller.email, action, resourceType, caller.here);
      refused := if allowed then None else Some(Forbidden);
    }

    /** The same in front of a request that writes: what it leaves to be done is the body of that step. */
    method Admit(caller: Caller, action: string, resourceType: string, ghost step: Step)
      returns (refused: Option<Outcome>)
      requires GateOf(step) == Some(Gate(caller, action, resourceType))
      modifies this`cache
      ensures refused.Some? ==> (Now(), refused.value) == Do(old(Now()), step)
      ensures refused.None? ==> Hit(Now(), caller.email) && Now() == Entered(old(Now()), step)
      ensures refused.None? ==> Possible(Now(), Body(Now(), step))
      ensures refused.None? ==> Do(old(Now()), step) == Answer(Now(), Body(Now(), step))
    {
      GateDecides(Now(), step);
      ReadingChangesNoAnswer(Now(), step);
      refused := Check(caller, action, resourceType);
    }

    // ----- the routes -----

    method CreatePolicy(caller: Caller, wellFormed: bool, d: Definition) returns (outcome: Outcome)
      requires TablesOk(Now())
      modifies this
      ensures (Now(), outcome) == Do(old(Now()), Step.CreatePolicy(caller, wellFormed, d))
    {
      var refused := Admit(caller, "policies:create", "policies", Step.CreatePolicy(caller, wellFormed, d));
      if refused.Some? { return refused.value; }
      if !wellFormed { return Invalid; }
      var existing := GetByName(d.name);
      if existing.Some? { return Conflict; }
      var granted := AssertAuthorizedToGrant(caller.email, d.actions, d.resourceType, caller.bare);
      if !granted { return Forbidden; }
      CreateRow(d.(active := true), caller.email);
      outcome := Ok;
    }

    method GuardUpdate(caller: Caller, wellFormed: bool, p: nat, cs: seq<Change>) returns (refused: Option<Outcome>)
      requires TablesOk(Now()) && p in policies && Hit(Now(), caller.email)
      modifies this`cache
      ensures Now() == old(Now()) && refused == UpdateRefusal(Now(), caller, wellFormed, p, cs)
    {
      var policy := policies[p];
      var wanted := WriteAll(policy, cs);
      if Touches(cs, Conditions) && !wellFormed { return Some(Invalid); }
      if Protected(policy.name) && wanted.name != policy.name { return Some(Forbidden); }
      if wanted.name != policy.name {
        var existing := GetByName(wanted.name);
        if existing.Some? { return Some(Conflict); }
      }
      if Protected(policy.name) && Touches(cs, Active) && !wanted.active { return Some(Forbidden); }
      if Touches(cs, Actions) || Touches(cs, ResourceType) {
        var granted := AssertAuthorizedToGrant(caller.email, wanted.actions, wanted.resourceType, caller.bare);
        if !granted { return Some(Forbidden); }
      }
      refused := None;
    }

    method UpdatePolicy(caller: Caller, wellFormed: bool, name: string, cs: seq<Change>) returns (outcome: Outcome)
      requires TablesOk(Now())
      modifies this
      ensures (Now(), outcome) == Do(old(Now()), Step.UpdatePolicy(caller, wellFormed, name, cs))
    {
      var refused := Admit(caller, "policies:update", "policies", Step.UpdatePolicy(caller, wellFormed, name, cs));
      if refused.Some? { return refused.value; }
      var found := GetByName(name);
      if found.None? { return Missing; }
      refused := GuardUpdate(caller, wellFormed, found.value, cs);
      if refused.Some? { return refused.value; }
      UpdateRow(found.value, cs, Updated, caller.email);
      outcome := Ok;
    }

    method RollbackPolicy(caller: Caller, wellFormed: bool, name: string, k: nat) returns (outcome: Outcome)
      requires TablesOk(Now())
      modifies this
      ensures (Now(), outcome) == Do(old(Now()), Step.RollbackPolicy(caller, wellFormed, name, k))
    {
      var refused := Admit(caller, "policies:update", "policies", Step.RollbackPolicy(caller, wellFormed, name, k));
      if refused.Some? { return refused.value; }
      var found := GetByName(name);
      if found.None? { return Missing; }
      if k >= |history| || history[k].policyName != name { return Missing; }
      assert EntryNamed(history[k]);
      var policy, target := policies[found.value], DefinitionOf(history[k]).value;
      if !wellFormed { return Invalid; }
      if Protected(policy.name) && target.name != policy.name { return Forbidden; }
      if Protected(policy.name) && !target.active { return Forbidden; }
      var granted := AssertAuthorizedToGrant(caller.email, target.actions, target.resourceType, caller.bare);
      if !granted { return Forbidden; }
      UpdateRow(found.value, Restoring(target), RolledBack, caller.email);
      outcome := Ok;
    }

    method ComparePolicyHistory(caller: Caller, name: string, from: nat, to: nat) returns (answer: Option<Comparison>)
      requires TablesOk(Now())
      modifies this`cache
      ensures Now() == old(Now()).(cache := cache)
      ensures answer.None? <==> Refusal(old(Now()), caller, "policies:read", "policies").Some?
      ensures answer.Some? ==> ComparesTo(history, name, from, to, answer.value)
    {
      var refused := Check(caller, "policies:read", "policies");
      if refused.Some? { return None; }
      if from >= |history| { return Some(NoSuchEntry); }
      if history[from].policyName != name { return Some(OtherPolicy); }
      if to >= |history| { return Some(NoSuchEntry); }
      if history[to].policyName != name { return Some(OtherPolicy); }
      assert EntryNamed(history[from]) && EntryNamed(history[to]);
      var before, after := DefinitionOf(history[from]).value, DefinitionOf(history[to]).value;
      var changed: set<Column> := {};
      for k := 0 to |COLUMNS|
        invariant forall column :: column in changed <==> column in COLUMNS[..k] && Differs(column, before, after)
      {
        assert COLUMNS[..k + 1] == COLUMNS[..k] + [COLUMNS[k]];
        if Differs(COLUMNS[k], before, after) {
          changed := changed + {COLUMNS[k]};
        }
      }
      EveryColumnIsCompared();
      answer := Some(Compared(before, after, changed));
    }

    method DeletePolicy(caller: Caller, name: string) returns (outcome: Outcome)
      requires TablesOk(Now())
      modifies this
      ensures (Now(), outcome) == Do(old(Now()), Step.DeletePolicy(caller, name))
    {
      var refused := Admit(caller, "policies:delete", "policies", Step.DeletePolicy(caller, name));
      if refused.Some? { return refused.value; }
      var found := GetByName(name);
      if found.None? { return Missing; }
      if Protected(name) { return Forbidden; }
      DeleteRow(found.value, caller.email);
      outcome := Ok;
    }

    method AssignPolicy(caller: Caller, email: Email, name: string) returns (outcome: Outcome)
      requires TablesOk(Now())
      modifies this
      ensures (Now(), outcome) == Do(old(Now()), Step.AssignPolicy(caller, email, name))
    {
      var refused := Admit(caller, "policies:assign", "policies", Step.AssignPolicy(caller, email, name));
      if refused.Some? { return refused.value; }
      if email !in users { return Missing; }
      var found := GetByName(name);
      if found.None? { return Missing; }
      var policy := policies[found.value];
      var granted := AssertAuthorizedToGrant(caller.email, policy.actions, policy.resourceType, caller.bare);
      if !granted { return Forbidden; }
      AssignPolicyToUser(email, found.value);
      outcome := Ok;
    }

    method RevokePolicy(caller: Caller, email: Email, name: string) returns (outcome: Outcome)
      requires TablesOk(Now())
      modifies this
      ensures (Now(), outcome) == Do(old(Now()), Step.RevokePolicy(caller, email, name))
    {
      var refused := Admit(caller, "policies:revoke", "policies", Step.RevokePolicy(caller, email, name));
      if refused.Some? { return refused.value; }
      if email !in users { return Missing; }
      var found := GetByName(name);
      if found.None? { return Missing; }
      if name == SYSTEM_SUPERUSER {
        var count := CountAssignments(found.value);
        if count <= 1 { return Conflict; }
      }
      var removed := RemovePolicyFromUser(email, found.value);
      outcome := if removed then Ok else Missing;
    }

    method SignUp(email: Email) returns (outcome: Outcome)
      requires TablesOk(Now())
      modifies this
      ensures (Now(), outcome) == Do(old(Now()), Step.SignUp(email))
    {
      GateDecides(Now(), Step.SignUp(email));
      if email in users { return Conflict; }
      var baseline := GetByName(SELF_SERVICE);
      users := users[email := Account(nextUser, false, true)];
      if baseline.Some? {
        held := held + {(nextUser, baseline.value)};
      }
      assert old(held) + {} == old(held);
      nextUser := nextUser + 1;
      outcome := Ok;
    }

    method GuardRemoval(caller: Caller, email: Email) returns (refused: Option<Outcome>)
      ensures refused == RemovalRefusal(Now(), caller, email)
    {
      if email !in users { return Some(Missing); }
      if users[email].system { return Some(Forbidden); }
      if email == caller.email { return Some(Forbidden); }
      refused := None;
    }

    method PurgeUser(caller: Caller, email: Email) returns (outcome: Outcome)
      modifies this
      ensures (Now(), outcome) == Do(old(Now()), Step.PurgeUser(caller, email))
    {
      var refused := Admit(caller, "users:purge", "users", Step.PurgeUser(caller, email));
      if refused.Some? { return refused.value; }
      refused := GuardRemoval(caller, email);
      if refused.Some? { return refused.value; }
      held := set a | a in held && a.0 != users[email].id;
      users := users - {email};
      outcome := Ok;
    }

    method DeactivateUser(caller: Caller, email: Email) returns (outcome: Outcome)
      modifies this
      ensures (Now(), outcome) == Do(old(Now()), Step.DeactivateUser(caller, email))
    {
      var refused := Admit(caller, "users:delete_any", "users", Step.DeactivateUser(caller, email));
      if refused.Some? { return refused.value; }
      refused := GuardRemoval(caller, email);
      if refused.Some? { return refused.value; }
      users := users[email := users[email].(active := false)];
      outcome := Ok;
    }

    method ReactivateUser(caller: Caller, email: Email) returns (outcome: Outcome)
      modifies this
      ensures (Now(), outcome) == Do(old(Now()), Step.ReactivateUser(caller, email))
    {
      var refused := Admit(caller, "users:reactivate", "users", Step.ReactivateUser(caller, email));
      if refused.Some? { return refused.value; }
      if email !in users { return Missing; }
      if users[email].active { return Invalid; }
      users := users[email := users[email].(active := true)];
      outcome := Ok;
    }

    method GuardPromotion(caller: Caller, email: Email) returns (refused: Option<Outcome>)
      requires Hit(Now(), caller.email)
      modifies this`cache
      ensures Now() == old(Now())
      ensures var call := Promote(Now(), caller, email);
        refused == if call.Refuse? then Some(call.outcome) else None
    {
      if email !in users { return Some(Missing); }
      if users[email].system { return Some(Forbidden); }
      var allowed := Require(caller.email, "users:assign_system_role", "users", caller.here);
      refused := if allowed then None else Some(Forbidden);
    }

    method MakeSystem(caller: Caller, email: Email) returns (outcome: Outcome)
      modifies this
      ensures (Now(), outcome) == Do(old(Now()), Step.MakeSystem(caller, email))
    {
      var refused := Admit(caller, "users:assign_role", "users", Step.MakeSystem(caller, email));
      if refused.Some? { return refused.value; }
      refused := GuardPromotion(caller, email);
      if refused.Some? { return refused.value; }
      users := users[email := users[email].(system := true)];
      outcome := Ok;
    }
  }

  lemma EveryColumnIsCompared()
    ensures forall column :: column in COLUMNS[..|COLUMNS|]
  {
    assert COLUMNS[0] == Name && COLUMNS[1] == Description && COLUMNS[2] == Actions;
    assert COLUMNS[3] == ResourceType && COLUMNS[4] == Conditions && COLUMNS[5] == Active;
    assert COLUMNS[..|COLUMNS|] == COLUMNS;
    forall column
      ensures column in COLUMNS
    {
      match column
      case Name => case Description => case Actions => case ResourceType => case Conditions => case Active =>
    }
  }

  /** The rows of a query, in the order the database happened to return them. */
  ghost predicate Arranges(rows: seq<Definition>, list: set<Definition>) {
    |rows| == |list| && forall d :: d in rows <==> d in list
  }

  method InSomeOrder(list: set<Definition>) returns (rows: seq<Definition>)
    ensures Arranges(rows, list)
  {
    rows := [];
    var left := list;
    while left != {}
      invariant left <= list && |rows| + |left| == |list|
      invariant forall d :: d in rows <==> d in list && d !in left
      decreases |left|
    {
      var d :| d in left;
      rows := rows + [d];
      left := left - {d};
    }
  }

  lemma GrantingIsAllowing(list: set<Definition>, r: Request)
    requires r.resource == None
    ensures (exists d :: d in list && Granting(d, r)) <==> Allows(list, r.action, r.resourceType, r.handlers)
  {
  }
}
