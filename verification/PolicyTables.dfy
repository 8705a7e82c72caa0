/** What the guards of the policy routes establish, and the integrity of the tables that follows from them. */
module PolicyTables {
  import opened Wrappers
  import opened Policies
  import opened PolicyStore

  // ----- edits -----

  lemma {:induction false} OnlyTouchedColumnsChange(d: Definition, cs: seq<Change>, column: Column)
    requires Differs(column, d, WriteAll(d, cs))
    ensures Touches(cs, column)
  {
    if cs != [] {
      var rest, last := cs[..|cs| - 1], cs[|cs| - 1];
      if ColumnOf(last) == column {
        assert last in cs;
      } else {
        OnlyTouchedColumnsChange(d, rest, column);
        var c :| c in rest && ColumnOf(c) == column;
        assert c in cs;
      }
    }
  }

  lemma {:induction false} ChangedFieldsByCases(cs: seq<Change>, before: Definition, after: Definition, column: Column)
    ensures column in ChangedFields(cs, before, after) <==> Touches(cs, column) && Differs(column, before, after)
  {
    if cs != [] {
      var rest, last := cs[..|cs| - 1], cs[|cs| - 1];
      assert cs == rest + [last];
      ChangedFieldsByCases(rest, before, after, column);
      assert Touches(cs, column) <==> Touches(rest, column) || ColumnOf(last) == column by {
        if ColumnOf(last) == column { assert last in cs; }
        if Touches(rest, column) {
          var c :| c in rest && ColumnOf(c) == column;
          assert c in cs;
        }
      }
    }
  }

  /** `changed_fields` misses no difference between the two snapshots and reports no other. */
  lemma ChangedFieldsIsTheFullDiff(before: Definition, cs: seq<Change>)
    ensures forall column ::
      column in ChangedFields(cs, before, WriteAll(before, cs)) <==> Differs(column, before, WriteAll(before, cs))
  {
    var after := WriteAll(before, cs);
    forall column
      ensures column in ChangedFields(cs, before, after) <==> Differs(column, before, after)
    {
      ChangedFieldsByCases(cs, before, after, column);
      if Differs(column, before, after) {
        OnlyTouchedColumnsChange(before, cs, column);
      }
    }
  }

  lemma WriteLast(d: Definition, cs: seq<Change>, c: Change)
    ensures WriteAll(d, cs + [c]) == Write(WriteAll(d, cs), c)
  {
    assert (cs + [c])[..|cs|] == cs;
  }

  lemma RestoringRestores(d: Definition, t: Definition)
    ensures WriteAll(d, Restoring(t)) == t
  {
    WriteLast(d, [], SetName(t.name));
    var one := [SetName(t.name)];
    assert [] + one == one;
    WriteLast(d, one, SetDescription(t.description));
    var two := one + [SetDescription(t.description)];
    WriteLast(d, two, SetActions(t.actions));
    var three := two + [SetActions(t.actions)];
    WriteLast(d, three, SetResourceType(t.resourceType));
    var four := three + [SetResourceType(t.resourceType)];
    WriteLast(d, four, SetConditions(t.conditions));
    var five := four + [SetConditions(t.conditions)];
    WriteLast(d, five, SetActive(t.active));
    assert five + [SetActive(t.active)] == Restoring(t);
  }

  // ----- integrity -----

  ghost predicate NamesUnique(policies: map<nat, Definition>) {
    forall p, q, name :: Named(policies, p, name) && Named(policies, q, name) ==> p == q
  }

  ghost predicate IdsInRange(s: State) {
    && (forall p :: p in s.policies ==> p < s.nextPolicy)
    && (forall a :: a in s.held ==> a.0 < s.nextUser && a.1 in s.policies)
    && (forall e :: e in s.users ==> s.users[e].id < s.nextUser)
  }

  ghost predicate UsersDistinct(users: map<Email, Account>) {
    forall e, f :: e in users && f in users && users[e].id == users[f].id ==> e == f
  }

  /** Every history entry stands for a definition that carries the entry's own name. */
  ghost predicate EntryNamed(e: Entry) { DefinitionOf(e).Some? && DefinitionOf(e).value.name == e.policyName }

  ghost predicate EntriesNamed(history: seq<Entry>) { forall k :: 0 <= k < |history| ==> EntryNamed(history[k]) }

  ghost predicate TablesOk(s: State) {
    NamesUnique(s.policies) && IdsInRange(s) && UsersDistinct(s.users) && EntriesNamed(s.history)
  }

  // ----- what the guards establish -----

  /** The author holds, on the evidence of the list it was shown, every guarded action among `actions`. */
  ghost predicate Entitled(s: State, author: Email, actions: seq<string>, resourceType: string) {
    forall a :: a in actions && a in s.sensitive ==> exists d :: d in ListFor(s, author) && Applies(d, a, resourceType)
  }

  ghost predicate NameFree(s: State, name: string) { forall p :: !Named(s.policies, p, name) }

  ghost predicate Guarded(s: State, call: Call) {
    Possible(s, call)
    && match call
      case Insert(d, author) => d.active && NameFree(s, d.name) && Entitled(s, author, d.actions, d.resourceType)
      case Rewrite(p, cs, kind, author) =>
        var before, after := s.policies[p], WriteAll(s.policies[p], cs);
        && (after.name == before.name || NameFree(s, after.name))
        && (kind == RolledBack ==> after.name == before.name)
        && (Protected(before.name) ==> after.name == before.name && (before.active ==> after.active))
        && ((after.actions == before.actions && after.resourceType == before.resourceType)
            || Entitled(s, author, after.actions, after.resourceType))
      case Remove(p, _) => !Protected(s.policies[p].name)
      case Assign(_, p, author) => Entitled(s, author, s.policies[p].actions, s.policies[p].resourceType)
      case Unassign(_, p) => s.policies[p].name == SYSTEM_SUPERUSER ==> |Holders(s, p)| > 1
      case Join(_, baseline) => baseline == FindByName(s.policies, SELF_SERVICE)
      case Leave(email) => !s.users[email].system
      case Flag(email, system, active) => s.users[email].system ==> system && (active || !s.users[email].active)
      case _ => true
  }

  lemma MayGrantEntitles(s: State, author: Email, actions: seq<string>, resourceType: string, handlers: Handlers)
    requires MayGrant(s, author, actions, resourceType, handlers)
    ensures Entitled(s, author, actions, resourceType)
  {
    forall a | a in actions && a in s.sensitive
      ensures exists d :: d in ListFor(s, author) && Applies(d, a, resourceType)
    {
      assert Allows(ListFor(s, author), a, resourceType, handlers);
    }
  }

  lemma UpdateIsGuarded(s: State, caller: Caller, wellFormed: bool, name: string, cs: seq<Change>)
    ensures Guarded(s, Update(s, caller, wellFormed, name, cs))
  {
    var call := Update(s, caller, wellFormed, name, cs);
    if call.Rewrite? {
      var before, after := s.policies[call.policy], WriteAll(s.policies[call.policy], cs);
      if Differs(Actions, before, after) { OnlyTouchedColumnsChange(before, cs, Actions); }
      if Differs(ResourceType, before, after) { OnlyTouchedColumnsChange(before, cs, ResourceType); }
      if Differs(Active, before, after) { OnlyTouchedColumnsChange(before, cs, Active); }
      if Touches(cs, Actions) || Touches(cs, ResourceType) {
        MayGrantEntitles(s, caller.email, after.actions, after.resourceType, caller.bare);
      }
    }
  }

  lemma RollbackIsGuarded(s: State, caller: Caller, wellFormed: bool, name: string, k: nat)
    requires EntriesNamed(s.history)
    ensures Guarded(s, Rollback(s, caller, wellFormed, name, k))
  {
    var call := Rollback(s, caller, wellFormed, name, k);
    if call.Rewrite? {
      var target := DefinitionOf(s.history[k]).value;
      RestoringRestores(s.policies[call.policy], target);
      MayGrantEntitles(s, caller.email, target.actions, target.resourceType, caller.bare);
    }
  }

  lemma BodyIsGuarded(s: State, step: Step)
    requires EntriesNamed(s.history)
    ensures Guarded(s, Body(s, step))
  {
    match step
    case CreatePolicy(caller, wellFormed, d) =>
      if Create(s, caller, wellFormed, d).Insert? {
        MayGrantEntitles(s, caller.email, d.actions, d.resourceType, caller.bare);
      }
    case UpdatePolicy(caller, wellFormed, name, cs) => UpdateIsGuarded(s, caller, wellFormed, name, cs);
    case RollbackPolicy(caller, wellFormed, name, k) => RollbackIsGuarded(s, caller, wellFormed, name, k);
    case AssignPolicy(caller, email, name) =>
      var call := AssignTo(s, caller, email, name);
      if call.Assign? {
        var d := s.policies[call.policy];
        MayGrantEntitles(s, caller.email, d.actions, d.resourceType, caller.bare);
      }
    case _ =>
  }

  lemma DecisionIsGuarded(s: State, step: Step)
    requires EntriesNamed(s.history)
    ensures Guarded(s, Decide(s, step))
  {
    BodyIsGuarded(s, step);
  }

  // ----- integrity is kept -----

  lemma RewriteKeepsNames(s: State, p: nat, after: Definition)
    requires NamesUnique(s.policies) && p in s.policies
    requires after.name == s.policies[p].name || NameFree(s, after.name)
    ensures NamesUnique(s.policies[p := after])
  {
    var table := s.policies[p := after];
    forall a, b, name | Named(table, a, name) && Named(table, b, name)
      ensures a == b
    {
      if a != p { assert Named(s.policies, a, name); }
      if b != p { assert Named(s.policies, b, name); }
      if after.name == s.policies[p].name { assert Named(s.policies, p, after.name); }
    }
  }

  lemma InsertKeepsNames(s: State, d: Definition)
    requires NamesUnique(s.policies) && NameFree(s, d.name) && IdsInRange(s)
    ensures NamesUnique(s.policies[s.nextPolicy := d])
  {
    var table := s.policies[s.nextPolicy := d];
    forall a, b, name | Named(table, a, name) && Named(table, b, name)
      ensures a == b
    {
      if a != s.nextPolicy { assert Named(s.policies, a, name); }
      if b != s.nextPolicy { assert Named(s.policies, b, name); }
    }
  }

  lemma RemoveKeepsNames(s: State, p: nat)
    requires NamesUnique(s.policies)
    ensures NamesUnique(s.policies - {p})
  {
    forall a, b, name | Named(s.policies - {p}, a, name) && Named(s.policies - {p}, b, name)
      ensures a == b
    {
      assert Named(s.policies, a, name) && Named(s.policies, b, name);
    }
  }

  lemma PolicyWriteKeepsTables(s: State, call: Call)
    requires TablesOk(s) && Guarded(s, call) && (call.Insert? || call.Rewrite? || call.Remove?)
    ensures TablesOk(Apply(s, call))
  {
    match call
    case Insert(d, _) => InsertKeepsNames(s, d);
    case Rewrite(p, cs, _, _) => RewriteKeepsNames(s, p, WriteAll(s.policies[p], cs));
    case Remove(p, _) => RemoveKeepsNames(s, p);
  }

  lemma OtherWriteKeepsTables(s: State, call: Call)
    requires TablesOk(s) && Guarded(s, call) && !call.Insert? && !call.Rewrite? && !call.Remove?
    ensures TablesOk(Apply(s, call))
  {
  }

  lemma ApplyKeepsTables(s: State, call: Call)
    requires TablesOk(s) && Guarded(s, call)
    ensures TablesOk(Apply(s, call))
  {
    if call.Insert? || call.Rewrite? || call.Remove? {
      PolicyWriteKeepsTables(s, call);
    } else {
      OtherWriteKeepsTables(s, call);
    }
  }

  lemma NextKeepsTables(s: State, step: Step)
    requires TablesOk(s)
    ensures TablesOk(Next(s, step))
  {
    DecisionIsGuarded(Entered(s, step), step);
    ApplyKeepsTables(Entered(s, step), Decide(Entered(s, step), step));
  }

  /** Names stay unique, ids fresh, no assignment dangles, and every history entry carries its own name, over
  every run of requests. */
  lemma {:induction false} RunKeepsTables(s: State, steps: seq<Step>)
    requires TablesOk(s)
    ensures TablesOk(Run(s, steps))
    decreases |steps|
  {
    if steps != [] {
      NextKeepsTables(s, steps[0]);
      RunKeepsTables(Next(s, steps[0]), steps[1..]);
    }
  }

  /** A request that is turned away changes nothing; at most it has read its caller's policy list. */
  lemma RefusedChangesNothing(s: State, step: Step)
    requires Do(s, step).1 != Ok
    ensures Next(s, step) == s.(cache := Next(s, step).cache)
    ensures forall e :: e in Next(s, step).cache ==>
      (e in s.cache && Next(s, step).cache[e] == s.cache[e]) || Next(s, step).cache[e].list == Query(s, e)
  {
  }

  // ----- who can change what -----

  function PermissionFor(kind: Kind): string {
    match kind
    case Created => "policies:create"
    case Updated => "policies:update"
    case RolledBack => "policies:update"
    case Deleted => "policies:delete"
  }

  /** The account exists and is active, and the list it is shown grants it `action`, with the conditions of that
  grant holding for this very request. */
  predicate Permitted(s: State, caller: Caller, action: string, resourceType: string) {
    CanCall(s, caller.email) && Allows(ListFor(s, caller.email), action, resourceType, caller.here)
  }

  /** Where a write comes from: the request that can end in it, and the permission that request took. */
  ghost predicate Caused(s: State, step: Step, call: Call) {
    match call
    case Insert(_, author) =>
      step.CreatePolicy? && author == step.caller.email && Permitted(s, step.caller, "policies:create", "policies")
    case Rewrite(_, _, kind, author) =>
      (if kind == RolledBack then step.RollbackPolicy? else kind == Updated && step.UpdatePolicy?)
      && author == step.caller.email && Permitted(s, step.caller, "policies:update", "policies")
    case Remove(p, author) =>
      step.DeletePolicy? && author == step.caller.email && Permitted(s, step.caller, "policies:delete", "policies")
      && Named(s.policies, p, step.name)
    case Assign(email, p, author) =>
      step.AssignPolicy? && author == step.caller.email && Permitted(s, step.caller, "policies:assign", "policies")
      && email == step.email && Named(s.policies, p, step.name)
    case Unassign(email, p) =>
      step.RevokePolicy? && Permitted(s, step.caller, "policies:revoke", "policies")
      && email == step.email && Named(s.policies, p, step.name)
    case Join(email, baseline) =>
      step.SignUp? && email == step.email && (baseline.Some? ==> Named(s.policies, baseline.value, SELF_SERVICE))
    case Leave(email) => step.PurgeUser? && email == step.email && Permitted(s, step.caller, "users:purge", "users")
    case _ => true
  }

  lemma AdmittedIsPermitted(s: State, step: Step)
    requires GateOf(step).Some? && Turned(Entered(s, step), step).None?
    ensures var gate := GateOf(step).value; Permitted(s, gate.caller, gate.action, gate.resourceType)
  {
    var gate := GateOf(step).value;
    assert ListFor(Entered(s, step), gate.caller.email) == ListFor(s, gate.caller.email);
  }

  lemma EditIsCaused(s: State, step: Step)
    requires EditsPolicies(step) && Turned(Entered(s, step), step).None?
    ensures Caused(s, step, Body(Entered(s, step), step))
  {
    AdmittedIsPermitted(s, step);
  }

  lemma OtherRouteIsCaused(s: State, step: Step)
    requires GateOf(step).Some? && !EditsPolicies(step) && Turned(Entered(s, step), step).None?
    ensures Caused(s, step, Body(Entered(s, step), step))
  {
    AdmittedIsPermitted(s, step);
  }

  lemma DecisionIsCaused(s: State, step: Step)
    ensures Caused(s, step, Decide(Entered(s, step), step))
  {
    if Turned(Entered(s, step), step).None? {
      if EditsPolicies(step) {
        EditIsCaused(s, step);
      } else if GateOf(step).Some? {
        OtherRouteIsCaused(s, step);
      }
    }
  }

  /** What a step did to table and log: nothing, or one change recorded under the name of its caller, who had the
  permission for it. */
  ghost predicate Authored(s: State, step: Step, after: State) {
    if |after.history| == |s.history| then after.history == s.history && after.policies == s.policies
    else
      && |after.history| == |s.history| + 1 && after.history[..|s.history|] == s.history
      && GateOf(step).Some? && after.history[|s.history|].author == GateOf(step).value.caller.email
      && Permitted(s, GateOf(step).value.caller, PermissionFor(after.history[|s.history|].kind), "policies")
  }

  /** The policy table changes only together with the log, by one entry whose recorded author made the request and had,
  conditions included, the permission for that kind of change. */
  lemma EveryChangeIsAuthored(s: State, step: Step)
    ensures Authored(s, step, Next(s, step))
  {
    var entered := Entered(s, step);
    DecidesPossibly(entered, step);
    DecisionIsCaused(s, step);
    CausedIsAuthored(s, entered, step, Decide(entered, step));
  }

  lemma CausedIsAuthored(s: State, entered: State, step: Step, call: Call)
    requires entered == s.(cache := entered.cache) && Possible(entered, call) && Caused(s, step, call)
    ensures Authored(s, step, Apply(entered, call))
  {
    match call
    case Insert(d, author) => assert Inserted(entered, d, author).history[..|s.history|] == s.history;
    case Rewrite(p, cs, kind, author) =>
      assert Rewritten(entered, p, cs, kind, author).history[..|s.history|] == s.history;
    case Remove(p, author) => assert Removed(entered, p, author).history[..|s.history|] == s.history;
    case _ =>
  }

  ghost predicate GainHasACause(s: State, step: Step, row: (nat, nat)) {
    || (step.AssignPolicy? && Permitted(s, step.caller, "policies:assign", "policies")
        && Named(s.policies, row.1, step.name) && step.email in s.users && s.users[step.email].id == row.0)
    || (step.SignUp? && step.email !in s.users && row.0 == s.nextUser && Named(s.policies, row.1, SELF_SERVICE))
  }

  ghost predicate LossHasACause(s: State, step: Step, row: (nat, nat)) {
    || (step.RevokePolicy? && Permitted(s, step.caller, "policies:revoke", "policies")
        && Named(s.policies, row.1, step.name) && step.email in s.users && s.users[step.email].id == row.0)
    || (step.DeletePolicy? && Permitted(s, step.caller, "policies:delete", "policies")
        && Named(s.policies, row.1, step.name))
    || (step.PurgeUser? && Permitted(s, step.caller, "users:purge", "users")
        && step.email in s.users && s.users[step.email].id == row.0)
  }

  /** An assignment appears only through an assign request of somebody permitted to assign, or as the baseline policy
  of an account just created; one disappears only by a permitted revocation, with its policy or with its account. */
  lemma EveryAssignmentHasACause(s: State, step: Step, row: (nat, nat))
    ensures row in Next(s, step).held && row !in s.held ==> GainHasACause(s, step, row)
    ensures row in s.held && row !in Next(s, step).held ==> LossHasACause(s, step, row)
  {
    var entered := Entered(s, step);
    DecidesPossibly(entered, step);
    DecisionIsCaused(s, step);
    CausedAssignments(s, entered, step, Decide(entered, step), row);
  }

  lemma CausedAssignments(s: State, entered: State, step: Step, call: Call, row: (nat, nat))
    requires entered == s.(cache := entered.cache) && Possible(entered, call) && Caused(s, step, call)
    ensures row in Apply(entered, call).held && row !in s.held ==> GainHasACause(s, step, row)
    ensures row in s.held && row !in Apply(entered, call).held ==> LossHasACause(s, step, row)
  {
  }
}
