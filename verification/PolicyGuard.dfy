/** The grant guard over whole runs: which guarded actions the policies in use can carry, whatever the requests,
and however stale the lists the guard was shown. */
module PolicyGuard {
  import opened Wrappers
  import opened Policies
  import opened PolicyStore
  import opened PolicyTables

  /** An action on a resource type, as a policy grants it: "*" stands for every type. */
  type Power = (string, string)

  /** The policies in use: assigned to somebody, or handed to every new account. */
  ghost predicate InUse(s: State, p: nat) {
    p in s.policies && (Holders(s, p) != {} || s.policies[p].name == SELF_SERVICE)
  }

  ghost predicate Carries(d: Definition, sensitive: set<string>, power: Power) {
    power.0 in d.actions && power.0 in sensitive && power.1 == d.resourceType
  }

  /** The guarded powers of the policies in use, whether or not those are active, and whatever their conditions. */
  ghost predicate Carried(s: State, power: Power) {
    exists p :: InUse(s, p) && Carries(s.policies[p], s.sensitive, power)
  }

  /** `power` is in `cover`, or follows from the same action on every resource type. */
  ghost predicate Covered(cover: iset<Power>, power: Power) { power in cover || (power.0, "*") in cover }

  ghost predicate Within(cover: iset<Power>, sensitive: set<string>, d: Definition) {
    forall a :: a in d.actions && a in sensitive ==> Covered(cover, (a, d.resourceType))
  }

  ghost predicate ListWithin(cover: iset<Power>, sensitive: set<string>, list: set<Definition>) {
    forall d :: d in list ==> Within(cover, sensitive, d)
  }

  /** Everything in use, everything cached, however old, and everything some reader may yet cache is covered. */
  ghost predicate Contained(cover: iset<Power>, s: State) {
    && (forall p :: InUse(s, p) ==> Within(cover, s.sensitive, s.policies[p]))
    && (forall e :: e in s.cache ==> ListWithin(cover, s.sensitive, s.cache[e].list))
    && (forall r :: r in s.inFlight ==> ListWithin(cover, s.sensitive, r.1))
  }

  ghost predicate HasSelfService(s: State) { exists p :: Named(s.policies, p, SELF_SERVICE) }

  lemma QueriedIsWithin(cover: iset<Power>, s: State, email: Email)
    requires Contained(cover, s)
    ensures ListWithin(cover, s.sensitive, Query(s, email))
    ensures ListWithin(cover, s.sensitive, ListFor(s, email))
  {
    forall d | d in Query(s, email)
      ensures Within(cover, s.sensitive, d)
    {
      var p :| p in s.policies && email in s.users && (s.users[email].id, p) in s.held && s.policies[p] == d;
      assert (s.users[email].id, p) in Holders(s, p);
      assert InUse(s, p);
    }
  }

  lemma FetchKeepsContained(cover: iset<Power>, s: State, email: Email)
    requires Contained(cover, s)
    ensures Contained(cover, Fetch(s, email))
  {
    QueriedIsWithin(cover, s, email);
    var after := Fetch(s, email);
    assert forall p :: InUse(after, p) ==> InUse(s, p);
  }

  /** The heart of the guard: a caller shown covered policies can only be entitled to covered powers. */
  lemma EntitledIsWithin(cover: iset<Power>, s: State, author: Email, d: Definition)
    requires Contained(cover, s) && Entitled(s, author, d.actions, d.resourceType)
    ensures Within(cover, s.sensitive, d)
  {
    QueriedIsWithin(cover, s, author);
    forall a | a in d.actions && a in s.sensitive
      ensures Covered(cover, (a, d.resourceType))
    {
      var held :| held in ListFor(s, author) && Applies(held, a, d.resourceType);
      assert Within(cover, s.sensitive, held);
    }
  }

  lemma WithinDependsOnPowers(cover: iset<Power>, sensitive: set<string>, d: Definition, e: Definition)
    requires Within(cover, sensitive, d) && e.actions == d.actions && e.resourceType == d.resourceType
    ensures Within(cover, sensitive, e)
  {
  }

  /** The tables changed so that each policy now in use either is covered outright or was in use, with the same
  powers, before. */
  ghost predicate UsesWithin(cover: iset<Power>, s: State, after: State) {
    && after.sensitive == s.sensitive
    && forall p :: InUse(after, p) ==>
        Within(cover, s.sensitive, after.policies[p])
        || (InUse(s, p) && after.policies[p].actions == s.policies[p].actions
            && after.policies[p].resourceType == s.policies[p].resourceType)
  }

  lemma UsesStayContained(cover: iset<Power>, s: State, after: State)
    requires Contained(cover, s) && UsesWithin(cover, s, after)
    requires forall e :: e in after.cache ==> e in s.cache && after.cache[e] == s.cache[e]
    requires after.inFlight == s.inFlight
    ensures Contained(cover, after)
  {
    forall p | InUse(after, p)
      ensures Within(cover, s.sensitive, after.policies[p])
    {
      if !Within(cover, s.sensitive, after.policies[p]) {
        WithinDependsOnPowers(cover, s.sensitive, s.policies[p], after.policies[p]);
      }
    }
  }

  lemma InsertKeepsContained(cover: iset<Power>, s: State, d: Definition, author: Email)
    requires TablesOk(s) && Contained(cover, s) && Guarded(s, Insert(d, author))
    ensures Contained(cover, Inserted(s, d, author))
  {
    var after := Inserted(s, d, author);
    EntitledIsWithin(cover, s, author, d);
    forall p | InUse(after, p) && p != s.nextPolicy
      ensures InUse(s, p)
    {
      assert Holders(after, p) == Holders(s, p);
    }
    UsesStayContained(cover, s, after);
  }

  lemma RewriteKeepsContained(cover: iset<Power>, s: State, p: nat, cs: seq<Change>, kind: Kind, author: Email)
    requires TablesOk(s) && HasSelfService(s) && Contained(cover, s) && Guarded(s, Rewrite(p, cs, kind, author))
    ensures Contained(cover, Rewritten(s, p, cs, kind, author))
  {
    var after := Rewritten(s, p, cs, kind, author);
    if Entitled(s, author, after.policies[p].actions, after.policies[p].resourceType) {
      EntitledIsWithin(cover, s, author, after.policies[p]);
    }
    forall q | InUse(after, q)
      ensures InUse(s, q)
    {
      assert Holders(after, q) == Holders(s, q);
      assert after.policies[q].name == SELF_SERVICE ==> s.policies[q].name == SELF_SERVICE;
    }
    UsesStayContained(cover, s, after);
  }

  lemma RemoveKeepsContained(cover: iset<Power>, s: State, p: nat, author: Email)
    requires TablesOk(s) && Contained(cover, s) && Guarded(s, Remove(p, author))
    ensures Contained(cover, Removed(s, p, author))
  {
    var after := Removed(s, p, author);
    forall q | InUse(after, q)
      ensures InUse(s, q)
    {
      assert Holders(after, q) <= Holders(s, q);
    }
    UsesStayContained(cover, s, after);
  }

  lemma AssignKeepsContained(cover: iset<Power>, s: State, email: Email, p: nat, author: Email)
    requires TablesOk(s) && Contained(cover, s) && Guarded(s, Assign(email, p, author))
    ensures Contained(cover, Assigned(s, email, p))
  {
    var after := Assigned(s, email, p);
    EntitledIsWithin(cover, s, author, s.policies[p]);
    forall q | InUse(after, q) && q != p
      ensures InUse(s, q)
    {
      assert Holders(after, q) <= Holders(s, q);
    }
    UsesStayContained(cover, s, after);
  }

  lemma UnassignKeepsContained(cover: iset<Power>, s: State, email: Email, p: nat)
    requires TablesOk(s) && Contained(cover, s) && Guarded(s, Unassign(email, p))
    ensures Contained(cover, Unassigned(s, email, p))
  {
    var after := Unassigned(s, email, p);
    forall q | InUse(after, q)
      ensures InUse(s, q)
    {
      assert Holders(after, q) <= Holders(s, q);
    }
    UsesStayContained(cover, s, after);
  }

  lemma JoinKeepsContained(cover: iset<Power>, s: State, email: Email, baseline: Option<nat>)
    requires TablesOk(s) && Contained(cover, s) && Guarded(s, Join(email, baseline))
    ensures Contained(cover, Joined(s, email, baseline))
  {
    var after := Joined(s, email, baseline);
    forall q: nat | InUse(after, q)
      ensures InUse(s, q)
    {
      if baseline != Some(q) { assert Holders(after, q) <= Holders(s, q); }
    }
    UsesStayContained(cover, s, after);
  }

  lemma LeaveKeepsContained(cover: iset<Power>, s: State, email: Email)
    requires TablesOk(s) && Contained(cover, s) && Guarded(s, Leave(email))
    ensures Contained(cover, Left(s, email))
  {
    var after := Left(s, email);
    forall q | InUse(after, q)
      ensures InUse(s, q)
    {
      assert Holders(after, q) <= Holders(s, q);
    }
    UsesStayContained(cover, s, after);
  }

  lemma ApplyKeepsContained(cover: iset<Power>, s: State, call: Call)
    requires TablesOk(s) && HasSelfService(s) && Contained(cover, s) && Guarded(s, call)
    ensures Contained(cover, Apply(s, call))
  {
    match call
    case Insert(d, author) => InsertKeepsContained(cover, s, d, author);
    case Rewrite(p, cs, kind, author) => RewriteKeepsContained(cover, s, p, cs, kind, author);
    case Remove(p, author) => RemoveKeepsContained(cover, s, p, author);
    case Assign(email, p, author) => AssignKeepsContained(cover, s, email, p, author);
    case Unassign(email, p) => UnassignKeepsContained(cover, s, email, p);
    case Join(email, baseline) => JoinKeepsContained(cover, s, email, baseline);
    case Leave(email) => LeaveKeepsContained(cover, s, email);
    case Start(email) =>
      QueriedIsWithin(cover, s, email);
      ReadingKeepsUse(cover, s, Apply(s, call));
    case _ => ReadingKeepsUse(cover, s, Apply(s, call));
  }

  lemma ReadingKeepsUse(cover: iset<Power>, s: State, after: State)
    requires Contained(cover, s)
    requires after.policies == s.policies && after.held == s.held && after.sensitive == s.sensitive
    ensures forall p :: InUse(after, p) ==> Within(cover, s.sensitive, after.policies[p])
  {
    forall p | InUse(after, p)
      ensures Within(cover, s.sensitive, after.policies[p])
    {
      assert Holders(after, p) == Holders(s, p);
      assert InUse(s, p);
    }
  }

  lemma ApplyKeepsSelfService(s: State, call: Call)
    requires TablesOk(s) && HasSelfService(s) && Guarded(s, call)
    ensures HasSelfService(Apply(s, call))
  {
    var p :| Named(s.policies, p, SELF_SERVICE);
    assert Named(Apply(s, call).policies, p, SELF_SERVICE);
  }

  lemma NextStaysContained(cover: iset<Power>, s: State, step: Step)
    requires TablesOk(s) && HasSelfService(s) && Contained(cover, s)
    ensures Contained(cover, Next(s, step)) && HasSelfService(Next(s, step)) && Next(s, step).sensitive == s.sensitive
  {
    var entered := Entered(s, step);
    if entered != s { FetchKeepsContained(cover, s, Reader(step).value); }
    DecisionIsGuarded(entered, step);
    WrittenStaysContained(cover, entered, Decide(entered, step));
  }

  lemma WrittenStaysContained(cover: iset<Power>, s: State, call: Call)
    requires TablesOk(s) && HasSelfService(s) && Contained(cover, s) && Guarded(s, call)
    ensures Contained(cover, Apply(s, call)) && HasSelfService(Apply(s, call))
    ensures Apply(s, call).sensitive == s.sensitive
  {
    ApplyKeepsContained(cover, s, call);
    ApplyKeepsSelfService(s, call);
  }

  lemma {:induction false} RunStaysContained(cover: iset<Power>, s: State, steps: seq<Step>)
    requires TablesOk(s) && HasSelfService(s) && Contained(cover, s)
    ensures Contained(cover, Run(s, steps)) && Run(s, steps).sensitive == s.sensitive
    decreases |steps|
  {
    if steps != [] {
      NextStaysContained(cover, s, steps[0]);
      NextKeepsTables(s, steps[0]);
      RunStaysContained(cover, Next(s, steps[0]), steps[1..]);
    }
  }

  ghost function PowersOf(s: State): iset<Power> { iset power | Carried(s, power) }

  /** No power is created: over every run, a guarded power that a policy in use carries at the end was carried
  at the start, on that resource type or on all of them. Cached and in-flight lists may be arbitrarily stale, as
  long as they too came from covered policies. */
  lemma NoPowerIsCreated(s: State, steps: seq<Step>, power: Power)
    requires TablesOk(s) && HasSelfService(s)
    requires forall e :: e in s.cache ==> ListWithin(PowersOf(s), s.sensitive, s.cache[e].list)
    requires forall r :: r in s.inFlight ==> ListWithin(PowersOf(s), s.sensitive, r.1)
    requires Carried(Run(s, steps), power)
    ensures Carried(s, power) || Carried(s, (power.0, "*"))
  {
    forall p | InUse(s, p)
      ensures Within(PowersOf(s), s.sensitive, s.policies[p])
    {
      forall a | a in s.policies[p].actions && a in s.sensitive
        ensures Covered(PowersOf(s), (a, s.policies[p].resourceType))
      {
        assert Carries(s.policies[p], s.sensitive, (a, s.policies[p].resourceType));
      }
    }
    RunStaysContained(PowersOf(s), s, steps);
    var after := Run(s, steps);
    var p :| InUse(after, p) && Carries(after.policies[p], after.sensitive, power);
    assert Covered(PowersOf(s), power);
  }

  /** In particular a guarded action on every resource type is only ever carried if it was from the start. */
  lemma WildcardOnlyFromWildcard(s: State, steps: seq<Step>, action: string)
    requires TablesOk(s) && HasSelfService(s) && s.cache == map[] && s.inFlight == {}
    requires !Carried(s, (action, "*"))
    ensures !Carried(Run(s, steps), (action, "*"))
  {
    if Carried(Run(s, steps), (action, "*")) {
      NoPowerIsCreated(s, steps, (action, "*"));
    }
  }
}
