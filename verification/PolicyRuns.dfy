/** Two runs of accepted requests with an end one would not expect: nobody holds system_superuser any more, and a new
account is served the policies of a removed one. */
module PolicyRuns {
  import opened Wrappers
  import opened Policies
  import opened PolicyStore
  import opened PolicyTables
  import opened PolicyBaseline
  import opened PolicyCache

  ghost predicate Ready(s: State) { TablesOk(s) && Coherent(s) && CachedAreUsers(s) }

  lemma NextStaysReady(s: State, step: Step)
    requires Ready(s) && Whole(step) && !step.PurgeUser?
    ensures Ready(Next(s, step))
  {
    WithoutPurgesCachedAreUsers(s, step);
    NextIsCoherentExactlyWhenNoneGoesStale(s, step);
    NextKeepsTables(s, step);
  }

  /** The account holds the active, unconditional policy `p`. */
  predicate Wields(s: State, email: Email, p: nat) {
    CanCall(s, email) && p in s.policies && (s.users[email].id, p) in s.held
    && s.policies[p].active && s.policies[p].conditions == None
  }

  lemma WieldedIsAllowed(s: State, email: Email, p: nat, action: string, resourceType: string, handlers: Handlers)
    requires Coherent(s) && Wields(s, email, p)
    requires action in s.policies[p].actions && s.policies[p].resourceType in {resourceType, "*"}
    ensures Allows(ListFor(s, email), action, resourceType, handlers)
  {
    assert s.policies[p] in Query(s, email);
    assert ListFor(s, email) == Query(s, email);
    assert Grants(s.policies[p], action, resourceType, None, handlers);
  }

  /** An unconditional policy with every guarded action on every resource type. */
  predicate Almighty(s: State, p: nat) {
    p in s.policies && s.policies[p].resourceType == "*" && forall a :: a in s.sensitive ==> a in s.policies[p].actions
  }

  lemma AlmightyMayGrant(
    s: State, email: Email, p: nat, actions: seq<string>, resourceType: string, handlers: Handlers)
    requires Coherent(s) && Wields(s, email, p) && Almighty(s, p)
    ensures MayGrant(s, email, actions, resourceType, handlers)
  {
    forall a | a in actions && a in s.sensitive
      ensures Allows(ListFor(s, email), a, resourceType, handlers)
    {
      WieldedIsAllowed(s, email, p, a, resourceType, handlers);
    }
  }

  lemma NameFindsItsPolicy(policies: map<nat, Definition>, name: string, p: nat)
    requires NamesUnique(policies) && Named(policies, p, name)
    ensures FindByName(policies, name) == Some(p)
  {
  }

  lemma ReadingChangesNoTable(s: State, step: Step)
    ensures Entered(s, step) == s.(cache := Entered(s, step).cache)
    ensures Reader(step).Some? ==> ListFor(Entered(s, step), Reader(step).value) == ListFor(s, Reader(step).value)
  {
  }

  /** A caller who wields an almighty policy gets past the gate of a policy route. */
  lemma AlmightyIsAdmitted(s: State, step: Step, su: nat)
    requires Ready(s) && GateOf(step).Some? && GateOf(step).value.action in s.sensitive
    requires Wields(s, GateOf(step).value.caller.email, su) && Almighty(s, su)
    ensures Turned(Entered(s, step), step).None? && Ready(Entered(s, step))
  {
    var gate := GateOf(step).value;
    ReadingKeepsCoherent(s, step);
    ReadingChangesNoTable(s, step);
    WieldedIsAllowed(s, gate.caller.email, su, gate.action, gate.resourceType, gate.caller.here);
  }

  const JANITOR := Definition("account_janitor", None, ["users:purge"], "users", None, true)

  lemma CreateSucceeds(s: State, caller: Caller, su: nat)
    requires Ready(s) && "policies:create" in s.sensitive && Wields(s, caller.email, su) && Almighty(s, su)
    requires NameFree(s, JANITOR.name)
    ensures var (after, outcome) := Do(s, CreatePolicy(caller, true, JANITOR));
      && outcome == Ok && after.policies == s.policies[s.nextPolicy := JANITOR]
      && after.held == s.held && after.users == s.users && after.sensitive == s.sensitive
  {
    var step := CreatePolicy(caller, true, JANITOR);
    AlmightyIsAdmitted(s, step, su);
    AlmightyMayGrant(Entered(s, step), caller.email, su, JANITOR.actions, JANITOR.resourceType, caller.bare);
  }

  lemma AssignSucceeds(s: State, caller: Caller, email: Email, name: string, p: nat, su: nat)
    requires Ready(s) && "policies:assign" in s.sensitive && Wields(s, caller.email, su) && Almighty(s, su)
    requires email in s.users && Named(s.policies, p, name)
    ensures var (after, outcome) := Do(s, AssignPolicy(caller, email, name));
      && outcome == Ok && after.held == s.held + {(s.users[email].id, p)}
      && after.policies == s.policies && after.users == s.users && after.sensitive == s.sensitive
  {
    var step := AssignPolicy(caller, email, name);
    AlmightyIsAdmitted(s, step, su);
    AssignIsDecided(Entered(s, step), caller, email, name, p, su);
    ReadingChangesNoTable(s, step);
    AssigningAdds(Entered(s, step), email, p);
  }

  lemma AssigningAdds(s: State, email: Email, p: nat)
    requires email in s.users
    ensures Assigned(s, email, p) == s.(cache := Assigned(s, email, p).cache, held := s.held + {(s.users[email].id, p)})
  {
    if (s.users[email].id, p) in s.held { assert s.held + {(s.users[email].id, p)} == s.held; }
  }

  lemma AssignIsDecided(s: State, caller: Caller, email: Email, name: string, p: nat, su: nat)
    requires TablesOk(s) && Coherent(s) && Wields(s, caller.email, su) && Almighty(s, su)
    requires email in s.users && Named(s.policies, p, name)
    ensures AssignTo(s, caller, email, name) == Assign(email, p, caller.email)
  {
    NameFindsItsPolicy(s.policies, name, p);
    AlmightyMayGrant(s, caller.email, su, s.policies[p].actions, s.policies[p].resourceType, caller.bare);
  }

  lemma RevokeSucceeds(s: State, caller: Caller, email: Email, su: nat)
    requires Ready(s) && "policies:revoke" in s.sensitive && Wields(s, caller.email, su) && Almighty(s, su)
    requires email in s.users && Named(s.policies, su, SYSTEM_SUPERUSER)
    requires (s.users[email].id, su) in s.held && |Holders(s, su)| > 1
    ensures var (after, outcome) := Do(s, RevokePolicy(caller, email, SYSTEM_SUPERUSER));
      && outcome == Ok && after.held == s.held - {(s.users[email].id, su)}
      && after.policies == s.policies && after.users == s.users && after.sensitive == s.sensitive
  {
    var step := RevokePolicy(caller, email, SYSTEM_SUPERUSER);
    AlmightyIsAdmitted(s, step, su);
    ReadingChangesNoTable(s, step);
    RevokeIsDecided(Entered(s, step), email, su);
    GateDecides(s, step);
  }

  lemma RevokeIsDecided(s: State, email: Email, su: nat)
    requires TablesOk(s) && email in s.users && Named(s.policies, su, SYSTEM_SUPERUSER)
    requires (s.users[email].id, su) in s.held && |Holders(s, su)| > 1
    ensures RevokeFrom(s, email, SYSTEM_SUPERUSER) == Unassign(email, su)
  {
    NameFindsItsPolicy(s.policies, SYSTEM_SUPERUSER, su);
  }

  /** An unconditional permission to purge. */
  predicate CanPurge(d: Definition) { "users:purge" in d.actions && d.resourceType in {"users", "*"} }

  lemma PurgeSucceeds(s: State, caller: Caller, email: Email, janitor: nat)
    requires Ready(s) && Wields(s, caller.email, janitor) && CanPurge(s.policies[janitor])
    requires email in s.users && !s.users[email].system && email != caller.email
    ensures PurgeAccepted(s, caller, email)
  {
    WieldedIsAllowed(s, caller.email, janitor, "users:purge", "users", caller.here);
  }

  lemma TwoHolders(s: State, su: nat, a: (nat, nat), b: (nat, nat))
    requires a in Holders(s, su) && b in Holders(s, su) && a != b
    ensures |Holders(s, su)| > 1
  {
    assert {a, b} <= Holders(s, su);
    SubsetIsNoLarger({a, b}, Holders(s, su));
  }

  lemma SubsetIsNoLarger<T>(a: set<T>, b: set<T>)
    requires a <= b
    ensures |a| <= |b|
  {
    assert b == a + (b - a);
  }

  /** The system account, its only superuser, makes a purging policy and takes it, makes `heir` a second superuser and
  gives up its own assignment. */
  function HandOver(caller: Caller, heir: Email): seq<Step> {
    [CreatePolicy(caller, true, JANITOR), AssignPolicy(caller, caller.email, JANITOR.name),
     AssignPolicy(caller, heir, SYSTEM_SUPERUSER), RevokePolicy(caller, caller.email, SYSTEM_SUPERUSER)]
  }

  /** A store in which the system account alone holds an unconditional system_superuser. */
  ghost predicate OneSuperuser(s: State, root: Email, heir: Email, su: nat) {
    && Ready(s) && Standing(s, su, SYSTEM_SUPERUSER) && Almighty(s, su) && Wields(s, root, su)
    && {"policies:create", "policies:assign", "policies:revoke"} <= s.sensitive && NameFree(s, JANITOR.name)
    && s.users[root].system && heir in s.users && !s.users[heir].system && heir != root
    && Holders(s, su) == {(s.users[root].id, su)}
  }

  /** The store after the first two requests. */
  lemma JanitorIsTaken(s: State, caller: Caller, heir: Email, su: nat)
    requires OneSuperuser(s, caller.email, heir, su)
    ensures var create := CreatePolicy(caller, true, JANITOR);
      var take := AssignPolicy(caller, caller.email, JANITOR.name);
      var after := Next(Next(s, create), take);
      && Do(s, create).1 == Ok && Do(Next(s, create), take).1 == Ok
      && Ready(after) && after.users == s.users && after.sensitive == s.sensitive
      && after.policies == s.policies[s.nextPolicy := JANITOR]
      && after.held == s.held + {(s.users[caller.email].id, s.nextPolicy)}
  {
    var create := CreatePolicy(caller, true, JANITOR);
    CreateSucceeds(s, caller, su);
    NextStaysReady(s, create);
    var s1 := Next(s, create);
    assert Named(s1.policies, s.nextPolicy, JANITOR.name);
    AssignSucceeds(s1, caller, caller.email, JANITOR.name, s.nextPolicy, su);
    NextStaysReady(s1, AssignPolicy(caller, caller.email, JANITOR.name));
  }

  /** ... and after the next two, from any store with that janitor. */
  lemma SuperuserIsHandedOver(s: State, caller: Caller, heir: Email, su: nat)
    requires Ready(s) && Standing(s, su, SYSTEM_SUPERUSER) && Almighty(s, su) && Wields(s, caller.email, su)
    requires {"policies:assign", "policies:revoke"} <= s.sensitive && heir in s.users && heir != caller.email
    requires Holders(s, su) == {(s.users[caller.email].id, su)}
    ensures var give := AssignPolicy(caller, heir, SYSTEM_SUPERUSER);
      var leave := RevokePolicy(caller, caller.email, SYSTEM_SUPERUSER);
      var after := Next(Next(s, give), leave);
      && Do(s, give).1 == Ok && Do(Next(s, give), leave).1 == Ok
      && Ready(after) && after.users == s.users && after.policies == s.policies
      && after.held == s.held + {(s.users[heir].id, su)} - {(s.users[caller.email].id, su)}
  {
    var give := AssignPolicy(caller, heir, SYSTEM_SUPERUSER);
    AssignSucceeds(s, caller, heir, SYSTEM_SUPERUSER, su, su);
    NextStaysReady(s, give);
    var s1 := Next(s, give);
    TwoHolders(s1, su, (s.users[caller.email].id, su), (s.users[heir].id, su));
    RevokeSucceeds(s1, caller, caller.email, su);
    NextStaysReady(s1, RevokePolicy(caller, caller.email, SYSTEM_SUPERUSER));
  }

  lemma RunOfFour(s: State, a: Step, b: Step, c: Step, d: Step)
    ensures Run(s, [a, b, c, d]) == Next(Next(Next(Next(s, a), b), c), d)
  {
    assert [a, b, c, d][1..] == [b, c, d] && [b, c, d][1..] == [c, d] && [c, d][1..] == [d] && [d][1..] == [];
    var s3 := Next(Next(Next(s, a), b), c);
    assert Run(s3, [d]) == Run(Next(s3, d), []);
    assert Run(Next(Next(s, a), b), [c, d]) == Run(s3, [d]);
    assert Run(Next(s, a), [b, c, d]) == Run(Next(Next(s, a), b), [c, d]);
  }

  /** After the hand-over the heir is the only superuser and the system account can purge. */
  lemma HeirIsTheOnlySuperuser(s: State, caller: Caller, heir: Email, su: nat)
    requires OneSuperuser(s, caller.email, heir, su)
    ensures var after := Run(s, HandOver(caller, heir));
      && Ready(after) && after.users == s.users && Holders(after, su) == {(s.users[heir].id, su)}
      && Wields(after, caller.email, s.nextPolicy) && after.policies[s.nextPolicy] == JANITOR
  {
    var run := HandOver(caller, heir);
    JanitorIsTaken(s, caller, heir, su);
    var s2 := Next(Next(s, run[0]), run[1]);
    JanitorChangesNoSuperuser(s, s2, caller.email, heir, su);
    SuperuserIsHandedOver(s2, caller, heir, su);
    RunOfFour(s, run[0], run[1], run[2], run[3]);
    HeirAlone(s2, Next(Next(s2, run[2]), run[3]), caller.email, heir, su);
  }

  lemma JanitorChangesNoSuperuser(s: State, s2: State, root: Email, heir: Email, su: nat)
    requires OneSuperuser(s, root, heir, su) && s2.users == s.users && s2.sensitive == s.sensitive
    requires s2.policies == s.policies[s.nextPolicy := JANITOR]
    requires s2.held == s.held + {(s.users[root].id, s.nextPolicy)}
    ensures Holders(s2, su) == Holders(s, su) && Standing(s2, su, SYSTEM_SUPERUSER) && su != s.nextPolicy
    ensures Almighty(s2, su) && Wields(s2, root, su) && Wields(s2, root, s.nextPolicy)
  {
  }

  lemma HeirAlone(s2: State, after: State, root: Email, heir: Email, su: nat)
    requires root in s2.users && heir in s2.users && s2.users[root].id != s2.users[heir].id
    requires Holders(s2, su) == {(s2.users[root].id, su)}
    requires after.held == s2.held + {(s2.users[heir].id, su)} - {(s2.users[root].id, su)}
    ensures Holders(after, su) == {(s2.users[heir].id, su)}
    ensures forall a :: a in s2.held && a.1 != su ==> a in after.held
  {
    forall a | a in Holders(after, su)
      ensures a == (s2.users[heir].id, su)
    {
      if a in s2.held { assert a in Holders(s2, su); }
    }
  }

  /** Four accepted requests, and a fifth, a purge, that is accepted too and leaves system_superuser unheld. */
  lemma LastSuperuserCanBePurged(s: State, caller: Caller, heir: Email, su: nat)
    requires OneSuperuser(s, caller.email, heir, su)
    ensures var before := Run(s, HandOver(caller, heir));
      PurgeAccepted(before, caller, heir) && Holders(Next(before, PurgeUser(caller, heir)), su) == {}
  {
    var before := Run(s, HandOver(caller, heir));
    HeirIsTheOnlySuperuser(s, caller, heir, su);
    PurgeSucceeds(before, caller, heir, s.nextPolicy);
    PurgeKeepsASuperuserExactlyWhenAnotherHolds(before, caller, heir, su);
  }

  // ----- the old account's policies -----

  /** An account reads its policies, is purged and signs up again within the minute: the new account is served a
  policy that the old one held and that nobody gave to the new one. */
  lemma OldPoliciesAreServed(s: State, caller: Caller, janitor: nat, email: Email, p: nat, seconds: nat)
    requires Ready(s) && Wields(s, caller.email, janitor) && CanPurge(s.policies[janitor])
    requires CanCall(s, email) && !s.users[email].system && email != caller.email && email !in s.cache
    requires Wields(s, email, p) && s.policies[p].name != SELF_SERVICE && seconds < CACHE_TTL
    ensures var read := Next(s, ReadPolicies(email));
      var after := Next(Next(Next(read, PurgeUser(caller, email)), Tick(seconds)), SignUp(email));
      && Do(read, PurgeUser(caller, email)).1 == Ok && email in after.users
      && s.policies[p] in ListFor(after, email) && s.policies[p] !in Query(after, email)
  {
    var read := Next(s, ReadPolicies(email));
    assert read == Fetch(s, email);
    assert s.policies[p] in Query(s, email);
    NextStaysReady(s, ReadPolicies(email));
    PurgeSucceeds(read, caller, email, janitor);
    PurgeIsLeaving(read, caller, email);
    ReRegistrationCanSeeTheOldPolicies(read, caller, email, s.policies[p], seconds);
  }

  // ----- such a store -----

  const GUARDED := ["policies:create", "policies:assign", "policies:revoke", "users:purge"]

  /** A seeded store with the system account and one more, reduced to the actions the run uses. */
  function Seeded(root: Email, heir: Email): State {
    State(0, set a | a in GUARDED, map[root := Account(0, true, true), heir := Account(1, false, true)], 2,
          map[0 := Definition(SELF_SERVICE, None, [], "users", None, true),
              1 := Definition(USER_ADMINISTRATION, None, [], "users", None, true),
              2 := Definition(SYSTEM_SUPERUSER, None, GUARDED, "*", None, true)],
          3, {(0, 0), (0, 1), (0, 2), (1, 0)}, [], map[], {})
  }

  lemma SeededHasOneSuperuser(root: Email, heir: Email)
    requires root != heir
    ensures OneSuperuser(Seeded(root, heir), root, heir, 2)
  {
    var s := Seeded(root, heir);
    assert GUARDED[0] in s.sensitive && GUARDED[1] in s.sensitive && GUARDED[2] in s.sensitive;
    assert Holders(s, 2) == {(0, 2)};
    assert TablesOk(s);
  }

  /** In that store the heir may hold user_administration: it meets the conditions of the other run. */
  lemma SeededHasAPolicyHolder(root: Email, heir: Email)
    requires root != heir
    ensures var s := Seeded(root, heir).(held := Seeded(root, heir).held + {(1, 1)});
      && Ready(s) && Wields(s, root, 2) && CanPurge(s.policies[2]) && Wields(s, heir, 1)
      && CanCall(s, heir) && !s.users[heir].system && heir !in s.cache && s.policies[1].name != SELF_SERVICE
  {
    assert GUARDED[3] == "users:purge";
  }
}
