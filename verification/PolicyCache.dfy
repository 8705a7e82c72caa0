/** The per-user cache against the query it stands in for, with every request one atomic step. */
module PolicyCache {
  import opened Wrappers
  import opened Policies
  import opened PolicyStore
  import opened PolicyTables

  /** Every list the cache would serve is the one the database would give. */
  ghost predicate Coherent(s: State) { forall e :: Hit(s, e) ==> s.cache[e].list == Query(s, e) }

  lemma SameRowsSameQuery(s: State, after: State, email: Email)
    requires after.policies == s.policies
    requires email in s.users <==> email in after.users
    requires email in s.users ==> after.users[email].id == s.users[email].id
    requires email in s.users ==> forall p :: (s.users[email].id, p) in s.held <==> (s.users[email].id, p) in after.held
    ensures Query(after, email) == Query(s, email)
  {
  }

  lemma AssignKeepsCoherent(s: State, email: Email, p: nat)
    requires TablesOk(s) && Coherent(s) && email in s.users
    ensures Coherent(Assigned(s, email, p))
  {
    forall e | Hit(Assigned(s, email, p), e)
      ensures s.cache[e].list == Query(Assigned(s, email, p), e)
    {
      SameRowsSameQuery(s, Assigned(s, email, p), e);
    }
  }

  lemma UnassignKeepsCoherent(s: State, email: Email, p: nat)
    requires TablesOk(s) && Coherent(s) && email in s.users
    ensures Coherent(Unassigned(s, email, p))
  {
    forall e | Hit(Unassigned(s, email, p), e)
      ensures s.cache[e].list == Query(Unassigned(s, email, p), e)
    {
      SameRowsSameQuery(s, Unassigned(s, email, p), e);
    }
  }

  lemma InsertKeepsCoherent(s: State, d: Definition, author: Email)
    requires TablesOk(s) && Coherent(s)
    ensures Coherent(Inserted(s, d, author))
  {
    var after := Inserted(s, d, author);
    forall e | Hit(after, e)
      ensures after.cache[e].list == Query(after, e)
    {
      assert Hit(s, e);
      assert Query(after, e) == Query(s, e);
    }
  }

  lemma FetchKeepsCoherent(s: State, email: Email)
    requires Coherent(s)
    ensures Coherent(Fetch(s, email)) && ListFor(s, email) == Query(s, email)
  {
    var after := Fetch(s, email);
    forall e | Hit(after, e)
      ensures after.cache[e].list == Query(after, e)
    {
      SameRowsSameQuery(s, after, e);
    }
  }

  lemma FlagKeepsCoherent(s: State, email: Email, system: bool, active: bool)
    requires Coherent(s) && email in s.users
    ensures Coherent(Flagged(s, email, system, active))
  {
    var after := Flagged(s, email, system, active);
    forall e | Hit(after, e)
      ensures after.cache[e].list == Query(after, e)
    {
      assert Hit(s, e);
      SameRowsSameQuery(s, after, e);
    }
  }

  lemma WaitKeepsCoherent(s: State, seconds: nat)
    requires Coherent(s)
    ensures Coherent(Apply(s, Wait(seconds)))
  {
    var after := Apply(s, Wait(seconds));
    forall e | Hit(after, e)
      ensures after.cache[e].list == Query(after, e)
    {
      assert Hit(s, e);
      SameRowsSameQuery(s, after, e);
    }
  }

  // ----- account removal and sign-up, which do not invalidate -----

  /** The baseline policy, as a new account would be shown it. */
  ghost predicate BaselineShows(s: State) { exists p :: Named(s.policies, p, SELF_SERVICE) && s.policies[p].active }

  /** What keeps a write from leaving a stale list behind: a removed account has no list of policies cached, and a new
  one has nothing cached, unless it would be shown nothing anyway. */
  ghost predicate LeavesNoneStale(s: State, call: Call) {
    match call
    case Leave(email) => !(Hit(s, email) && s.cache[email].list != {})
    case Join(email, _) => !(Hit(s, email) && BaselineShows(s))
    case _ => true
  }

  lemma OthersStayCoherent(s: State, after: State, email: Email)
    requires Coherent(s) && after.cache == s.cache && after.now == s.now && after.policies == s.policies
    requires forall e :: e != email ==> (e in s.users <==> e in after.users)
    requires forall e :: e != email && e in s.users ==>
      after.users[e].id == s.users[e].id
      && forall p :: (s.users[e].id, p) in s.held <==> (s.users[e].id, p) in after.held
    ensures Coherent(after) <==> (Hit(s, email) ==> s.cache[email].list == Query(after, email))
  {
    forall e | e != email && Hit(after, e)
      ensures after.cache[e].list == Query(after, e)
    {
      SameRowsSameQuery(s, after, e);
    }
  }

  lemma LeaveIsCoherentExactlyWhenNothingIsCached(s: State, email: Email)
    requires TablesOk(s) && Coherent(s) && email in s.users
    ensures Coherent(Left(s, email)) <==> LeavesNoneStale(s, Leave(email))
  {
    OthersStayCoherent(s, Left(s, email), email);
    assert Query(Left(s, email), email) == {};
  }

  lemma FreshAccountIsShownTheBaseline(s: State, email: Email, baseline: Option<nat>)
    requires TablesOk(s) && email !in s.users && baseline == FindByName(s.policies, SELF_SERVICE)
    ensures Query(Joined(s, email, baseline), email) != {} <==> BaselineShows(s)
    ensures forall d :: d in Query(Joined(s, email, baseline), email) ==> d.name == SELF_SERVICE
  {
    var after := Joined(s, email, baseline);
    forall p | p in after.policies && (after.users[email].id, p) in after.held
      ensures Some(p) == baseline
    {
    }
    if baseline.Some? && s.policies[baseline.value].active {
      assert (after.users[email].id, baseline.value) in after.held;
      assert s.policies[baseline.value] in Query(after, email);
    }
  }

  lemma JoinIsCoherentExactlyWhenNothingIsCached(s: State, email: Email, baseline: Option<nat>)
    requires TablesOk(s) && Coherent(s) && Guarded(s, Join(email, baseline))
    ensures Coherent(Joined(s, email, baseline)) <==> LeavesNoneStale(s, Join(email, baseline))
  {
    OthersStayCoherent(s, Joined(s, email, baseline), email);
    assert Query(s, email) == {};
    FreshAccountIsShownTheBaseline(s, email, baseline);
  }

  lemma ApplyIsCoherentExactlyWhenNoneGoesStale(s: State, call: Call)
    requires TablesOk(s) && Coherent(s) && Guarded(s, call) && !call.Start? && !call.Fill?
    ensures Coherent(Apply(s, call)) <==> LeavesNoneStale(s, call)
  {
    match call
    case Insert(d, author) => InsertKeepsCoherent(s, d, author);
    case Assign(email, p, _) => AssignKeepsCoherent(s, email, p);
    case Unassign(email, p) => UnassignKeepsCoherent(s, email, p);
    case Join(email, baseline) => JoinIsCoherentExactlyWhenNothingIsCached(s, email, baseline);
    case Leave(email) => LeaveIsCoherentExactlyWhenNothingIsCached(s, email);
    case Flag(email, system, active) => FlagKeepsCoherent(s, email, system, active);
    case Wait(seconds) => WaitKeepsCoherent(s, seconds);
    case _ =>
  }

  // ----- requests and runs -----

  /** Requests that do not overlap others. */
  predicate Whole(step: Step) { !step.StartRead? && !step.FinishRead? }

  /** The same condition, on the request: an accepted purge of an account with a list still cached, or an accepted
  sign-up at an address with anything still cached, breaks it. */
  ghost predicate KeepsCacheTrue(s: State, step: Step) {
    LeavesNoneStale(Entered(s, step), Decide(Entered(s, step), step))
  }

  lemma ReadingKeepsCoherent(s: State, step: Step)
    requires TablesOk(s) && Coherent(s)
    ensures TablesOk(Entered(s, step)) && Coherent(Entered(s, step))
  {
    if Entered(s, step) != s { FetchKeepsCoherent(s, Reader(step).value); }
  }

  lemma WholeStepsDoNotOverlap(s: State, step: Step)
    requires Whole(step)
    ensures !Decide(s, step).Start? && !Decide(s, step).Fill?
  {
    if EditsPolicies(step) { EditsDoNotOverlap(s, step); }
  }

  lemma EditsDoNotOverlap(s: State, step: Step)
    requires EditsPolicies(step)
    ensures !Body(s, step).Start? && !Body(s, step).Fill?
  {
  }

  /** A request leaves the cache coherent if and only if it is no purge of an account whose list is still cached and no
  sign-up at an address with something still cached. */
  lemma NextIsCoherentExactlyWhenNoneGoesStale(s: State, step: Step)
    requires TablesOk(s) && Coherent(s) && Whole(step)
    ensures Coherent(Next(s, step)) <==> KeepsCacheTrue(s, step)
  {
    var entered := Entered(s, step);
    ReadingKeepsCoherent(s, step);
    DecisionIsGuarded(entered, step);
    WholeStepsDoNotOverlap(entered, step);
    ApplyIsCoherentExactlyWhenNoneGoesStale(entered, Decide(entered, step));
  }

  ghost predicate CoherentThroughout(s: State, steps: seq<Step>)
    decreases |steps|
  {
    Coherent(s) && (steps == [] || CoherentThroughout(Next(s, steps[0]), steps[1..]))
  }

  ghost predicate CacheKeptTrueThroughout(s: State, steps: seq<Step>)
    decreases |steps|
  {
    steps == [] || (KeepsCacheTrue(s, steps[0]) && CacheKeptTrueThroughout(Next(s, steps[0]), steps[1..]))
  }

  /** Over every run of whole requests, purges and sign-ups included, the cache only ever serves what the query would
  return, if and only if no request along the run leaves a list stale. */
  lemma {:induction false} ServedListsAreCurrentExactlyWhenNoneGoesStale(s: State, steps: seq<Step>)
    requires TablesOk(s) && Coherent(s) && forall k :: 0 <= k < |steps| ==> Whole(steps[k])
    ensures CoherentThroughout(s, steps) <==> CacheKeptTrueThroughout(s, steps)
    decreases |steps|
  {
    if steps != [] {
      NextIsCoherentExactlyWhenNoneGoesStale(s, steps[0]);
      NextKeepsTables(s, steps[0]);
      if Coherent(Next(s, steps[0])) {
        ServedListsAreCurrentExactlyWhenNoneGoesStale(Next(s, steps[0]), steps[1..]);
      }
    }
  }

  ghost predicate CachedAreUsers(s: State) { forall e :: e in s.cache ==> e in s.users }

  lemma WithoutPurgesCachedAreUsers(s: State, step: Step)
    requires CachedAreUsers(s) && Whole(step) && !step.PurgeUser?
    ensures CachedAreUsers(Next(s, step)) && KeepsCacheTrue(s, step)
  {
    var entered := Entered(s, step);
    DecidesPossibly(entered, step);
    WholeStepsDoNotOverlap(entered, step);
    OnlyPurgesRemoveAccounts(entered, step);
    CallKeepsCachedAreUsers(entered, Decide(entered, step));
  }

  lemma OnlyPurgesRemoveAccounts(s: State, step: Step)
    requires !step.PurgeUser?
    ensures !Decide(s, step).Leave?
  {
  }

  lemma CallKeepsCachedAreUsers(s: State, call: Call)
    requires CachedAreUsers(s) && Possible(s, call) && !call.Leave? && !call.Fill?
    ensures CachedAreUsers(Apply(s, call)) && LeavesNoneStale(s, call)
  {
  }

  /** In particular, over every run without account purges every list served from the cache is current. */
  lemma {:induction false} ServedListsAreCurrent(s: State, steps: seq<Step>)
    requires TablesOk(s) && Coherent(s) && CachedAreUsers(s)
    requires forall k :: 0 <= k < |steps| ==> Whole(steps[k]) && !steps[k].PurgeUser?
    ensures Coherent(Run(s, steps))
    ensures forall e :: ListFor(Run(s, steps), e) == Query(Run(s, steps), e)
    decreases |steps|
  {
    if steps == [] {
      forall e ensures ListFor(s, e) == Query(s, e) { FetchKeepsCoherent(s, e); }
    } else {
      NextIsCoherentExactlyWhenNoneGoesStale(s, steps[0]);
      WithoutPurgesCachedAreUsers(s, steps[0]);
      NextKeepsTables(s, steps[0]);
      ServedListsAreCurrent(Next(s, steps[0]), steps[1..]);
    }
  }

  // ----- the run on which it fails -----

  /** An accepted purge leaves the cache entry of the account where it was. */
  lemma PurgeLeavesTheEntry(s: State, caller: Caller, email: Email)
    requires TablesOk(s) && Do(s, PurgeUser(caller, email)).1 == Ok && Hit(s, email)
    ensures var after := Next(s, PurgeUser(caller, email));
      email !in after.users && after.now == s.now && email in after.cache && after.cache[email] == s.cache[email]
  {
  }

  lemma SignUpIsShownTheOldList(s: State, email: Email, gone: Definition)
    requires TablesOk(s) && email !in s.users
    requires Hit(s, email) && gone in s.cache[email].list && gone.name != SELF_SERVICE
    ensures var after := Next(s, SignUp(email));
      email in after.users && gone in ListFor(after, email) && gone !in Query(after, email)
  {
    FreshAccountIsShownTheBaseline(s, email, FindByName(s.policies, SELF_SERVICE));
  }

  lemma LaterSignUpIsShownTheOldList(s: State, email: Email, gone: Definition, seconds: nat)
    requires TablesOk(s) && email !in s.users && email in s.cache && s.now + seconds < s.cache[email].deadline
    requires gone in s.cache[email].list && gone.name != SELF_SERVICE
    ensures var after := Next(Next(s, Tick(seconds)), SignUp(email));
      email in after.users && gone in ListFor(after, email) && gone !in Query(after, email)
  {
    var later := Next(s, Tick(seconds));
    assert later == s.(now := s.now + seconds);
    SignUpIsShownTheOldList(later, email, gone);
  }

  /** The consequence, on one run: an account is purged and its address signs up again within the minute; the new
  account is served the policies of the old one. */
  lemma ReRegistrationCanSeeTheOldPolicies(s: State, caller: Caller, email: Email, gone: Definition, seconds: nat)
    requires TablesOk(s) && Hit(s, email) && gone in s.cache[email].list && gone.name != SELF_SERVICE
    requires Do(s, PurgeUser(caller, email)).1 == Ok && s.now + seconds < s.cache[email].deadline
    ensures var after := Next(Next(Next(s, PurgeUser(caller, email)), Tick(seconds)), SignUp(email));
      email in after.users && gone in ListFor(after, email) && gone !in Query(after, email)
  {
    PurgeLeavesTheEntry(s, caller, email);
    NextKeepsTables(s, PurgeUser(caller, email));
    LaterSignUpIsShownTheOldList(Next(s, PurgeUser(caller, email)), email, gone, seconds);
  }
}
