/** What every policy route and account route answers, and what an accepted request leaves in the tables, told from
the request and the store before it. */
module PolicyOperations {
  import opened Wrappers
  import opened Policies
  import opened PolicyStore
  import opened PolicyTables
  import opened PolicyHistory

  // ----- who is let in, and what it may hand out -----

  /** The answer to a caller without the permission a route asks for: a stranger is told to sign in, anybody else is
  forbidden. */
  function Stopped(s: State, caller: Caller): Outcome { if caller.email in s.users then Forbidden else Unauthenticated }

  /** Some policy shown to the account grants the action. */
  predicate Shows(s: State, email: Email, action: string, resourceType: string, handlers: Handlers) {
    exists d :: d in ListFor(s, email) && GrantsHere(d, action, resourceType, handlers)
  }

  /** The policy names the action, covers the type and has its conditions met without any resource. */
  predicate GrantsHere(d: Definition, action: string, resourceType: string, handlers: Handlers) {
    action in d.actions && (d.resourceType == "*" || d.resourceType == resourceType)
    && Satisfied(d.conditions, None, handlers)
  }

  lemma AllowedMeansShown(s: State, email: Email, action: string, resourceType: string, handlers: Handlers)
    ensures Allows(ListFor(s, email), action, resourceType, handlers)
      <==> Shows(s, email, action, resourceType, handlers)
  {
    forall d
      ensures Grants(d, action, resourceType, None, handlers) <==> GrantsHere(d, action, resourceType, handlers)
    {
    }
    assert Allows(ListFor(s, email), action, resourceType, handlers)
      <==> exists d :: d in ListFor(s, email) && GrantsHere(d, action, resourceType, handlers);
  }

  /** Nobody hands out a guarded action it is not itself shown on that very type. */
  predicate MayHandOut(s: State, caller: Caller, actions: seq<string>, resourceType: string) {
    forall a :: a in actions && a in s.sensitive ==> Shows(s, caller.email, a, resourceType, caller.bare)
  }

  lemma GrantGuardMeans(s: State, caller: Caller, actions: seq<string>, resourceType: string)
    ensures MayGrant(s, caller.email, actions, resourceType, caller.bare) <==>
      MayHandOut(s, caller, actions, resourceType)
    ensures MayGrant(Fetch(s, caller.email), caller.email, actions, resourceType, caller.bare) <==>
      MayHandOut(s, caller, actions, resourceType)
  {
    forall a ensures Allows(ListFor(s, caller.email), a, resourceType, caller.bare)
                <==> Shows(s, caller.email, a, resourceType, caller.bare)
    {
      AllowedMeansShown(s, caller.email, a, resourceType, caller.bare);
    }
    assert ListFor(Fetch(s, caller.email), caller.email) == ListFor(s, caller.email);
  }

  /** The account is active and shown the permission. */
  predicate Enters(s: State, caller: Caller, action: string, resourceType: string) {
    && caller.email in s.users && s.users[caller.email].active
    && Shows(s, caller.email, action, resourceType, caller.here)
  }

  /** Past its permission check a route answers as its guards decide; before it, nothing but the caller's cached list is
  touched. */
  lemma EnteringDecides(s: State, step: Step, caller: Caller, action: string, resourceType: string)
    requires GateOf(step) == Some(Gate(caller, action, resourceType))
    ensures var entered := Entered(s, step);
      && entered == s.(cache := entered.cache) && ListFor(entered, caller.email) == ListFor(s, caller.email)
      && (!Enters(s, caller, action, resourceType) ==> Do(s, step) == (entered, Stopped(s, caller)))
      && (Enters(s, caller, action, resourceType) ==>
            Possible(entered, Body(entered, step)) && Do(s, step) == Answer(entered, Body(entered, step)))
  {
    GateDecides(s, step);
    ReadingChangesNoAnswer(s, step);
    AllowedMeansShown(s, caller.email, action, resourceType, caller.here);
  }

  // ----- policies: create, update, roll back, delete -----

  lemma CreateAnswers(s: State, caller: Caller, wellFormed: bool, d: Definition)
    ensures Do(s, CreatePolicy(caller, wellFormed, d)).1 ==
      if !Enters(s, caller, "policies:create", "policies") then Stopped(s, caller)
      else if !wellFormed then Invalid
      else if exists p :: p in s.policies && s.policies[p].name == d.name then Conflict
      else if !MayHandOut(s, caller, d.actions, d.resourceType) then Forbidden
      else Ok
  {
    EnteringDecides(s, CreatePolicy(caller, wellFormed, d), caller, "policies:create", "policies");
    GrantGuardMeans(s, caller, d.actions, d.resourceType);
    assert forall p :: Named(s.policies, p, d.name) <==> p in s.policies && s.policies[p].name == d.name;
  }

  /** An accepted create adds one policy, under an id not in use, with every field as submitted except that it starts
  active; it touches no other policy, no assignment and no account. */
  lemma CreateStoresTheSubmission(s: State, caller: Caller, wellFormed: bool, d: Definition)
    requires IdsInRange(s) && Do(s, CreatePolicy(caller, wellFormed, d)).1 == Ok
    ensures var after := Next(s, CreatePolicy(caller, wellFormed, d));
      && s.nextPolicy !in s.policies && after.policies.Keys == s.policies.Keys + {s.nextPolicy}
      && (var made := after.policies[s.nextPolicy];
          && made.name == d.name && made.description == d.description && made.actions == d.actions
          && made.resourceType == d.resourceType && made.conditions == d.conditions && made.active)
      && (forall p :: p in s.policies ==> after.policies[p] == s.policies[p])
      && after.held == s.held && after.users == s.users
  {
  }

  /** Of several values sent for one column the last is stored; a column nothing is sent for is
  `OnlyTouchedColumnsChange`. */
  lemma {:induction false} LastSentValueIsStored(d: Definition, cs: seq<Change>, k: nat)
    requires k < |cs| && forall j :: k < j < |cs| ==> ColumnOf(cs[j]) != ColumnOf(cs[k])
    ensures match cs[k]
      case SetName(name) => WriteAll(d, cs).name == name
      case SetDescription(description) => WriteAll(d, cs).description == description
      case SetActions(actions) => WriteAll(d, cs).actions == actions
      case SetResourceType(resourceType) => WriteAll(d, cs).resourceType == resourceType
      case SetConditions(conditions) => WriteAll(d, cs).conditions == conditions
      case SetActive(active) => WriteAll(d, cs).active == active
    decreases |cs|
  {
    if k < |cs| - 1 {
      LastSentValueIsStored(d, cs[..|cs| - 1], k);
      assert ColumnOf(cs[|cs| - 1]) != ColumnOf(cs[k]);
    }
  }

  lemma MissingPolicyIsMissing(s: State, step: Step, name: string)
    requires step.UpdatePolicy? || step.RollbackPolicy? || step.DeletePolicy?
    requires step.name == name && forall p :: p in s.policies ==> s.policies[p].name != name
    ensures Do(s, step).1 == Missing || Do(s, step).1 == Stopped(s, step.caller)
    ensures Do(s, step).1 == Missing <==>
      Enters(s, step.caller, if step.DeletePolicy? then "policies:delete" else "policies:update", "policies")
  {
    var action := if step.DeletePolicy? then "policies:delete" else "policies:update";
    EnteringDecides(s, step, step.caller, action, "policies");
    assert forall p :: !Named(s.policies, p, name);
  }

  /** The reasons an edit of a found policy is refused for, in the order they are looked at. */
  lemma EditGuardAnswers(s: State, caller: Caller, wellFormed: bool, p: nat, cs: seq<Change>)
    requires p in s.policies
    ensures var name, after := s.policies[p].name, WriteAll(s.policies[p], cs);
      UpdateRefusal(s, caller, wellFormed, p, cs) ==
      if Touches(cs, Conditions) && !wellFormed then Some(Invalid)
      else if after.name != name && Protected(name) then Some(Forbidden)
      else if after.name != name && exists q :: q in s.policies && s.policies[q].name == after.name then Some(Conflict)
      else if Protected(name) && Touches(cs, Active) && !after.active then Some(Forbidden)
      else if (Touches(cs, Actions) || Touches(cs, ResourceType))
        && !MayHandOut(s, caller, after.actions, after.resourceType) then Some(Forbidden)
      else None
  {
    var after := WriteAll(s.policies[p], cs);
    GrantGuardMeans(s, caller, after.actions, after.resourceType);
    assert forall q :: Named(s.policies, q, after.name) <==> q in s.policies && s.policies[q].name == after.name;
  }

  lemma UpdateAnswers(s: State, caller: Caller, wellFormed: bool, name: string, cs: seq<Change>, p: nat)
    requires NamesUnique(s.policies) && Named(s.policies, p, name)
    ensures Do(s, UpdatePolicy(caller, wellFormed, name, cs)).1 ==
      var after := WriteAll(s.policies[p], cs);
      if !Enters(s, caller, "policies:update", "policies") then Stopped(s, caller)
      else if Touches(cs, Conditions) && !wellFormed then Invalid
      else if after.name != name && Protected(name) then Forbidden
      else if after.name != name && exists q :: q in s.policies && s.policies[q].name == after.name then Conflict
      else if Protected(name) && Touches(cs, Active) && !after.active then Forbidden
      else if (Touches(cs, Actions) || Touches(cs, ResourceType))
        && !MayHandOut(s, caller, after.actions, after.resourceType) then Forbidden
      else Ok
  {
    var step := UpdatePolicy(caller, wellFormed, name, cs);
    var entered := Entered(s, step);
    EnteringDecides(s, step, caller, "policies:update", "policies");
    assert FindByName(s.policies, name) == Some(p);
    EditGuardAnswers(entered, caller, wellFormed, p, cs);
    assert MayHandOut(entered, caller, WriteAll(s.policies[p], cs).actions, WriteAll(s.policies[p], cs).resourceType)
      <==> MayHandOut(s, caller, WriteAll(s.policies[p], cs).actions, WriteAll(s.policies[p], cs).resourceType);
  }

  /** An accepted edit writes its policy and no other, and keeps every assignment and account. */
  lemma UpdateStoresTheEdit(s: State, caller: Caller, wellFormed: bool, name: string, cs: seq<Change>, p: nat)
    requires NamesUnique(s.policies) && Named(s.policies, p, name)
    requires Do(s, UpdatePolicy(caller, wellFormed, name, cs)).1 == Ok
    ensures var after := Next(s, UpdatePolicy(caller, wellFormed, name, cs));
      && after.policies == s.policies[p := WriteAll(s.policies[p], cs)]
      && after.held == s.held && after.users == s.users
  {
    EnteringDecides(s, UpdatePolicy(caller, wellFormed, name, cs), caller, "policies:update", "policies");
    assert FindByName(s.policies, name) == Some(p);
  }

  /** What an entry shows: the definition after the change, or, where there is none left, the one before it. */
  predicate EntryShows(e: Entry, d: Definition) { if e.next.Some? then e.next == Some(d) else e.previous == Some(d) }

  lemma RollbackAnswers(s: State, caller: Caller, wellFormed: bool, name: string, k: nat, p: nat, target: Definition)
    requires TablesOk(s) && Named(s.policies, p, name)
    requires k < |s.history| ==> EntryShows(s.history[k], target)
    ensures Do(s, RollbackPolicy(caller, wellFormed, name, k)).1 ==
      if !Enters(s, caller, "policies:update", "policies") then Stopped(s, caller)
      else if k >= |s.history| || s.history[k].policyName != name then Missing
      else if !wellFormed then Invalid
      else if Protected(name) && !target.active then Forbidden
      else if !MayHandOut(s, caller, target.actions, target.resourceType) then Forbidden
      else Ok
    ensures Do(s, RollbackPolicy(caller, wellFormed, name, k)).1 == Ok ==>
      Next(s, RollbackPolicy(caller, wellFormed, name, k)).policies == s.policies[p := target]
  {
    var step := RollbackPolicy(caller, wellFormed, name, k);
    EnteringDecides(s, step, caller, "policies:update", "policies");
    GrantGuardMeans(s, caller, target.actions, target.resourceType);
    assert FindByName(s.policies, name) == Some(p);
    if k < |s.history| { assert EntryNamed(s.history[k]); }
    RestoringRestores(s.policies[p], target);
  }

  /** Two entries are compared exactly if both exist and bear the requested name; the two sides are what they show. */
  lemma ComparisonIsOfOnePolicy(history: seq<Entry>, name: string, from: nat, to: nat, c: Comparison)
    requires ComparesTo(history, name, from, to, c)
    ensures c.Compared? <==>
      from < |history| && to < |history| && history[from].policyName == name && history[to].policyName == name
    ensures c.Compared? ==> EntryShows(history[from], c.before) && EntryShows(history[to], c.after)
  {
  }

  /** A protected policy cannot be deleted; any other is removed with exactly its own assignments. */
  lemma DeleteRemovesThePolicy(s: State, caller: Caller, name: string, p: nat)
    requires NamesUnique(s.policies) && Named(s.policies, p, name)
    ensures var (after, outcome) := Do(s, DeletePolicy(caller, name));
      && outcome == (if !Enters(s, caller, "policies:delete", "policies") then Stopped(s, caller)
                     else if name in ["self_service", "user_administration", "system_superuser"] then Forbidden
                     else Ok)
      && (outcome == Ok ==>
            && after.policies == s.policies - {p} && after.users == s.users
            && forall row :: row in after.held <==> row in s.held && row.1 != p)
  {
    EnteringDecides(s, DeletePolicy(caller, name), caller, "policies:delete", "policies");
    assert FindByName(s.policies, name) == Some(p);
    assert ["self_service", "user_administration", "system_superuser"]
        == [SELF_SERVICE, USER_ADMINISTRATION, SYSTEM_SUPERUSER];
  }

  // ----- assignments -----

  /** An accepted assignment adds one row, for the named account and policy; the caller could have handed out the
  guarded actions of that policy itself. */
  lemma AssignAddsTheRow(s: State, caller: Caller, email: Email, name: string, p: nat)
    requires NamesUnique(s.policies) && Named(s.policies, p, name)
    ensures var (after, outcome) := Do(s, AssignPolicy(caller, email, name));
      && outcome == (if !Enters(s, caller, "policies:assign", "policies") then Stopped(s, caller)
                     else if email !in s.users then Missing
                     else if !MayHandOut(s, caller, s.policies[p].actions, s.policies[p].resourceType) then Forbidden
                     else Ok)
      && (outcome == Ok ==>
            && after.held == s.held + {(s.users[email].id, p)}
            && after.policies == s.policies && after.users == s.users)
  {
    EnteringDecides(s, AssignPolicy(caller, email, name), caller, "policies:assign", "policies");
    GrantGuardMeans(s, caller, s.policies[p].actions, s.policies[p].resourceType);
    assert FindByName(s.policies, name) == Some(p);
  }

  /** An accepted revocation takes one row away, one that was there; the only holder of the superuser policy keeps
  it. */
  lemma RevokeRemovesTheRow(s: State, caller: Caller, email: Email, name: string, p: nat)
    requires NamesUnique(s.policies) && Named(s.policies, p, name)
    ensures var (after, outcome) := Do(s, RevokePolicy(caller, email, name));
      && outcome == (if !Enters(s, caller, "policies:revoke", "policies") then Stopped(s, caller)
                     else if email !in s.users then Missing
                     else if name == "system_superuser" && |set row | row in s.held && row.1 == p| <= 1 then Conflict
                     else if (s.users[email].id, p) !in s.held then Missing
                     else Ok)
      && (outcome == Ok ==>
            && after.held == s.held - {(s.users[email].id, p)}
            && after.policies == s.policies && after.users == s.users)
  {
    EnteringDecides(s, RevokePolicy(caller, email, name), caller, "policies:revoke", "policies");
    assert FindByName(s.policies, name) == Some(p);
    assert Holders(s, p) == set row | row in s.held && row.1 == p;
  }

  /** Assigning a policy to an account that does not hold it and revoking it again leave the assignments as they
  were. */
  lemma RevokeUndoesAssign(s: State, caller: Caller, email: Email, name: string, p: nat)
    requires NamesUnique(s.policies) && Named(s.policies, p, name)
    requires email in s.users && (s.users[email].id, p) !in s.held
    ensures var give, take := AssignPolicy(caller, email, name), RevokePolicy(caller, email, name);
      Do(s, give).1 == Ok && Do(Next(s, give), take).1 == Ok ==> Next(Next(s, give), take).held == s.held
  {
    AssignAddsTheRow(s, caller, email, name, p);
    var give := AssignPolicy(caller, email, name);
    if Do(s, give).1 == Ok { RevokeRemovesTheRow(Next(s, give), caller, email, name, p); }
  }

  // ----- what accounts are shown -----

  /** No policy of that name is on the list the account is shown. */
  ghost predicate Hidden(s: State, email: Email, name: string) { forall d :: d in ListFor(s, email) ==> d.name != name }

  /** A policy given to an account that did not hold it is shown to that account at once, if it is active. */
  lemma AssignedPolicyIsShownAtOnce(s: State, caller: Caller, email: Email, name: string, p: nat)
    requires NamesUnique(s.policies) && Named(s.policies, p, name) && email in s.users
    requires (s.users[email].id, p) !in s.held && Do(s, AssignPolicy(caller, email, name)).1 == Ok
    ensures s.policies[p] in ListFor(Next(s, AssignPolicy(caller, email, name)), email) <==> s.policies[p].active
  {
    EnteringDecides(s, AssignPolicy(caller, email, name), caller, "policies:assign", "policies");
    assert FindByName(s.policies, name) == Some(p);
  }

  /** A policy taken from an account is off its list at once. */
  lemma RevokedPolicyIsHiddenAtOnce(s: State, caller: Caller, email: Email, name: string, p: nat)
    requires NamesUnique(s.policies) && Named(s.policies, p, name)
    requires Do(s, RevokePolicy(caller, email, name)).1 == Ok
    ensures Hidden(Next(s, RevokePolicy(caller, email, name)), email, name)
  {
    EnteringDecides(s, RevokePolicy(caller, email, name), caller, "policies:revoke", "policies");
    assert FindByName(s.policies, name) == Some(p);
    var after := Next(s, RevokePolicy(caller, email, name));
    forall q | q in after.policies && after.policies[q].name == name
      ensures q == p
    {
      assert Named(s.policies, q, name);
    }
  }

  /** A deleted policy is off every list at once. */
  lemma DeletedPolicyIsHiddenAtOnce(s: State, caller: Caller, name: string, p: nat, email: Email)
    requires NamesUnique(s.policies) && Named(s.policies, p, name)
    requires Do(s, DeletePolicy(caller, name)).1 == Ok
    ensures Hidden(Next(s, DeletePolicy(caller, name)), email, name)
  {
    EnteringDecides(s, DeletePolicy(caller, name), caller, "policies:delete", "policies");
    assert FindByName(s.policies, name) == Some(p);
    var after := Next(s, DeletePolicy(caller, name));
    forall q | q in after.policies
      ensures after.policies[q].name != name
    {
      if after.policies[q].name == name { assert Named(s.policies, q, name); }
    }
  }

  /** An accepted edit shows at once: whoever holds the policy is shown the edited definition exactly if it is active,
  and nobody is shown a policy that is not. */
  lemma EditShowsAtOnce(s: State, caller: Caller, wellFormed: bool, name: string, cs: seq<Change>, p: nat, email: Email)
    requires NamesUnique(s.policies) && Named(s.policies, p, name)
    requires Do(s, UpdatePolicy(caller, wellFormed, name, cs)).1 == Ok
    ensures var (after, edited) := (Next(s, UpdatePolicy(caller, wellFormed, name, cs)), WriteAll(s.policies[p], cs));
      && (forall d :: d in ListFor(after, email) ==> d.active)
      && (email in s.users && (s.users[email].id, p) in s.held ==> (edited in ListFor(after, email) <==> edited.active))
  {
    UpdateStoresTheEdit(s, caller, wellFormed, name, cs, p);
    EditEmptiesTheCache(s, caller, wellFormed, name, cs);
    var (after, edited) := (Next(s, UpdatePolicy(caller, wellFormed, name, cs)), WriteAll(s.policies[p], cs));
    assert after.policies[p] == edited && ListFor(after, email) == Query(after, email);
  }

  lemma EditEmptiesTheCache(s: State, caller: Caller, wellFormed: bool, name: string, cs: seq<Change>)
    requires Do(s, UpdatePolicy(caller, wellFormed, name, cs)).1 == Ok
    ensures Next(s, UpdatePolicy(caller, wellFormed, name, cs)).cache == map[]
  {
    EnteringDecides(s, UpdatePolicy(caller, wellFormed, name, cs), caller, "policies:update", "policies");
  }

  /** A list that had to be read from the database is served from the cache for the next sixty seconds and no longer. */
  lemma ReadIsCachedForAMinute(s: State, email: Email, seconds: nat)
    requires CanCall(s, email) && !Hit(s, email)
    ensures Hit(Next(Next(s, ReadPolicies(email)), Tick(seconds)), email) <==> seconds < 60
  {
  }

  // ----- accounts -----

  /** A purge takes the account and exactly its own assignments away. It spares the system account and the caller. */
  lemma PurgeRemovesTheAccount(s: State, caller: Caller, email: Email)
    ensures var (after, outcome) := Do(s, PurgeUser(caller, email));
      && outcome == (if !Enters(s, caller, "users:purge", "users") then Stopped(s, caller)
                     else if email !in s.users then Missing
                     else if s.users[email].system || email == caller.email then Forbidden
                     else Ok)
      && (outcome == Ok ==>
            && after.users == s.users - {email} && after.policies == s.policies
            && forall row :: row in after.held <==> row in s.held && row.0 != s.users[email].id)
  {
    EnteringDecides(s, PurgeUser(caller, email), caller, "users:purge", "users");
  }

  /** A deactivation clears the active flag, a reactivation sets it, and neither touches another flag, another account
  or an assignment. */
  lemma DeactivationClearsTheFlag(s: State, caller: Caller, email: Email)
    ensures var (after, outcome) := Do(s, DeactivateUser(caller, email));
      && outcome == (if !Enters(s, caller, "users:delete_any", "users") then Stopped(s, caller)
                     else if email !in s.users then Missing
                     else if s.users[email].system || email == caller.email then Forbidden
                     else Ok)
      && (outcome == Ok ==>
            && after.users == s.users[email := s.users[email].(active := false)]
            && after.held == s.held && after.policies == s.policies)
  {
    EnteringDecides(s, DeactivateUser(caller, email), caller, "users:delete_any", "users");
  }

  lemma ReactivationSetsTheFlag(s: State, caller: Caller, email: Email)
    ensures var (after, outcome) := Do(s, ReactivateUser(caller, email));
      && outcome == (if !Enters(s, caller, "users:reactivate", "users") then Stopped(s, caller)
                     else if email !in s.users then Missing
                     else if s.users[email].active then Invalid
                     else Ok)
      && (outcome == Ok ==>
            && after.users == s.users[email := s.users[email].(active := true)]
            && after.held == s.held && after.policies == s.policies)
  {
    EnteringDecides(s, ReactivateUser(caller, email), caller, "users:reactivate", "users");
  }

  /** The system role takes both permissions, the one to assign roles and the one to assign this role, and a target that
  does not have it; it sets that flag and nothing else. */
  lemma SystemRoleTakesTwoPermissions(s: State, caller: Caller, email: Email)
    ensures var (after, outcome) := Do(s, MakeSystem(caller, email));
      && (outcome == Ok <==>
            && Enters(s, caller, "users:assign_role", "users")
            && Enters(s, caller, "users:assign_system_role", "users")
            && email in s.users && !s.users[email].system)
      && (Enters(s, caller, "users:assign_role", "users") && email !in s.users ==> outcome == Missing)
      && (outcome == Ok || outcome == Missing || outcome == Stopped(s, caller))
      && (outcome == Ok ==>
            && after.users == s.users[email := s.users[email].(system := true)]
            && after.held == s.held && after.policies == s.policies)
  {
    var step := MakeSystem(caller, email);
    EnteringDecides(s, step, caller, "users:assign_role", "users");
    AllowedMeansShown(s, caller.email, "users:assign_system_role", "users", caller.here);
  }

  /** Nobody becomes the system account except through that route, and nobody stops being it. */
  lemma OnlyPromotionMakesSystem(s: State, step: Step, email: Email)
    requires email in Next(s, step).users && Next(s, step).users[email].system
    requires !(email in s.users && s.users[email].system)
    ensures step.MakeSystem? && step.email == email && Enters(s, step.caller, "users:assign_system_role", "users")
  {
    if step.MakeSystem? { SystemRoleTakesTwoPermissions(s, step.caller, step.email); }
    else { OthersKeepSystemFlags(s, step, email); }
  }

  lemma OthersKeepSystemFlags(s: State, step: Step, email: Email)
    requires !step.MakeSystem? && email in Next(s, step).users && Next(s, step).users[email].system
    ensures email in s.users && s.users[email].system
  {
    var entered := Entered(s, step);
    DecidesPossibly(entered, step);
    if Decide(entered, step).Flag? { OthersFlagNobody(entered, step); }
    WriteKeepsSystemFlags(entered, Decide(entered, step), email);
  }

  lemma OthersFlagNobody(s: State, step: Step)
    requires !step.MakeSystem? && Decide(s, step).Flag?
    ensures Decide(s, step).email in s.users && Decide(s, step).system == s.users[Decide(s, step).email].system
  {
    if EditsPolicies(step) { EditsFlagNobody(s, step); }
  }

  lemma EditsFlagNobody(s: State, step: Step)
    requires EditsPolicies(step)
    ensures !Body(s, step).Flag?
  {
  }

  lemma WriteKeepsSystemFlags(s: State, call: Call, email: Email)
    requires Possible(s, call) && (call.Flag? ==> call.system == s.users[call.email].system)
    requires email in Apply(s, call).users && Apply(s, call).users[email].system
    ensures email in s.users && s.users[email].system
  {
  }

  /** A sign-up is accepted for an unused address. The account is active and not the system account, has an id of its
  own, and holds the baseline policy if there is one, and nothing else. */
  lemma SignUpAddsTheAccount(s: State, email: Email)
    requires IdsInRange(s) && NamesUnique(s.policies)
    ensures var (after, outcome) := Do(s, SignUp(email));
      && outcome == (if email in s.users then Conflict else Ok)
      && (outcome == Ok ==>
            && after.users.Keys == s.users.Keys + {email}
            && after.users[email].active && !after.users[email].system
            && (forall e :: e in s.users ==> after.users[e] == s.users[e] && s.users[e].id != after.users[email].id)
            && after.policies == s.policies && s.held <= after.held
            && (forall row :: row in after.held && row !in s.held ==>
                  row.0 == after.users[email].id && Named(s.policies, row.1, "self_service"))
            && forall p: nat :: Named(s.policies, p, "self_service") ==> (after.users[email].id, p) in after.held)
  {
    assert SELF_SERVICE == "self_service";
  }
}
