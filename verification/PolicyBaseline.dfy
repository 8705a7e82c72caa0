/** The baseline policies and the last superuser, over whole runs. */
module PolicyBaseline {
  import opened Wrappers
  import opened Policies
  import opened PolicyStore
  import opened PolicyTables

  ghost predicate Standing(s: State, p: nat, name: string) { Named(s.policies, p, name) && s.policies[p].active }

  lemma ApplyKeepsBaseline(s: State, call: Call, p: nat, name: string)
    requires TablesOk(s) && Guarded(s, call) && Standing(s, p, name) && Protected(name)
    ensures Standing(Apply(s, call), p, name)
  {
  }

  lemma NextKeepsBaseline(s: State, step: Step, p: nat, name: string)
    requires TablesOk(s) && Standing(s, p, name) && Protected(name)
    ensures Standing(Next(s, step), p, name)
  {
    var entered := Entered(s, step);
    DecisionIsGuarded(entered, step);
    ApplyKeepsBaseline(entered, Decide(entered, step), p, name);
  }

  /** Whatever is requested, a baseline policy keeps its row, its name and its active flag. */
  lemma {:induction false} BaselineSurvivesEveryRun(s: State, steps: seq<Step>, p: nat, name: string)
    requires TablesOk(s) && Standing(s, p, name) && Protected(name)
    ensures Standing(Run(s, steps), p, name)
    decreases |steps|
  {
    if steps != [] {
      NextKeepsBaseline(s, steps[0], p, name);
      NextKeepsTables(s, steps[0]);
      BaselineSurvivesEveryRun(Next(s, steps[0]), steps[1..], p, name);
    }
  }

  // ----- the last superuser -----

  lemma UnassigningOneOfSeveral(s: State, email: Email, p: nat)
    requires email in s.users && |Holders(s, p)| > 1
    ensures Holders(Unassigned(s, email, p), p) != {}
  {
    var row := (s.users[email].id, p);
    assert Holders(Unassigned(s, email, p), p) == Holders(s, p) - {row};
    if Holders(s, p) - {row} == {} {
      assert Holders(s, p) <= {row};
      AtMostOne(Holders(s, p), row);
    }
  }

  lemma AtMostOne<T>(xs: set<T>, x: T)
    requires xs <= {x}
    ensures |xs| <= 1
  {
    if x in xs { assert xs == {x}; } else { assert xs == {}; }
  }

  lemma ApplyKeepsASuperuser(s: State, call: Call, p: nat)
    requires TablesOk(s) && Guarded(s, call) && Standing(s, p, SYSTEM_SUPERUSER)
    requires Holders(s, p) != {} && !call.Leave?
    ensures Holders(Apply(s, call), p) != {}
  {
    if call.Unassign? && call.policy == p {
      UnassigningOneOfSeveral(s, call.email, p);
    } else {
      forall a | a in Holders(s, p)
        ensures a in Holders(Apply(s, call), p)
      {
      }
    }
  }

  lemma LeavingKeepsASuperuserExactlyWhenAnotherHolds(s: State, email: Email, p: nat)
    requires email in s.users && Holders(s, p) != {}
    ensures Holders(Left(s, email), p) != {} <==> Holders(s, p) != {(s.users[email].id, p)}
  {
    assert Holders(Left(s, email), p) == Holders(s, p) - {(s.users[email].id, p)};
  }

  /** The route lets this purge through: its caller is permitted, and its target exists and is neither the system
  account nor the caller. */
  predicate PurgeAccepted(s: State, caller: Caller, email: Email) {
    Permitted(s, caller, "users:purge", "users") && RemovalRefusal(s, caller, email).None?
  }

  lemma PurgeIsLeaving(s: State, caller: Caller, email: Email)
    ensures Do(s, PurgeUser(caller, email)).1 == Ok <==> PurgeAccepted(s, caller, email)
    ensures PurgeAccepted(s, caller, email) ==> Next(s, PurgeUser(caller, email)) == Left(Fetch(s, caller.email), email)
    ensures !PurgeAccepted(s, caller, email) ==> Next(s, PurgeUser(caller, email)).held == s.held
  {
  }

  /** A purge request leaves system_superuser without a holder exactly when it is accepted and its target is the only
  holder. */
  lemma PurgeKeepsASuperuserExactlyWhenAnotherHolds(s: State, caller: Caller, email: Email, p: nat)
    requires Holders(s, p) != {}
    ensures Holders(Next(s, PurgeUser(caller, email)), p) != {}
       <==> !(PurgeAccepted(s, caller, email) && Holders(s, p) == {(s.users[email].id, p)})
  {
    PurgeIsLeaving(s, caller, email);
    if PurgeAccepted(s, caller, email) {
      LeavingKeepsASuperuserExactlyWhenAnotherHolds(Fetch(s, caller.email), email, p);
      assert Holders(Fetch(s, caller.email), p) == Holders(s, p);
    } else {
      assert Holders(Next(s, PurgeUser(caller, email)), p) == Holders(s, p);
    }
  }

  /** The request is no accepted purge of the only holder of `p`. */
  ghost predicate SpareOf(s: State, p: nat, step: Step) {
    step.PurgeUser? && PurgeAccepted(s, step.caller, step.email) ==> Holders(s, p) != {(s.users[step.email].id, p)}
  }

  /** No purge along the run hits the only holder of `p`. */
  ghost predicate Spares(s: State, steps: seq<Step>, p: nat)
    decreases |steps|
  {
    steps == [] || (SpareOf(s, p, steps[0]) && Spares(Next(s, steps[0]), steps[1..], p))
  }

  /** system_superuser has a holder all along the run. */
  ghost predicate HeldThroughout(s: State, steps: seq<Step>, p: nat)
    decreases |steps|
  {
    Holders(s, p) != {} && (steps == [] || HeldThroughout(Next(s, steps[0]), steps[1..], p))
  }

  lemma OnlyPurgesLeave(s: State, step: Step)
    requires !step.PurgeUser?
    ensures !Decide(s, step).Leave?
  {
  }

  lemma OtherStepsKeepASuperuser(s: State, step: Step, p: nat)
    requires TablesOk(s) && Standing(s, p, SYSTEM_SUPERUSER) && Holders(s, p) != {} && !step.PurgeUser?
    ensures Holders(Next(s, step), p) != {}
  {
    var entered := Entered(s, step);
    assert Holders(entered, p) == Holders(s, p);
    DecisionIsGuarded(entered, step);
    OnlyPurgesLeave(entered, step);
    ApplyKeepsASuperuser(entered, Decide(entered, step), p);
  }

  lemma NextKeepsASuperuserExactlyWhenSpared(s: State, step: Step, p: nat)
    requires TablesOk(s) && Standing(s, p, SYSTEM_SUPERUSER) && Holders(s, p) != {}
    ensures Holders(Next(s, step), p) != {} <==> SpareOf(s, p, step)
  {
    if step.PurgeUser? {
      PurgeKeepsASuperuserExactlyWhenAnotherHolds(s, step.caller, step.email, p);
    } else {
      OtherStepsKeepASuperuser(s, step, p);
    }
  }

  /** The policy routes never take the last holder of system_superuser away: over a run it always has one, exactly
  when no accepted account purge along that run removes its only holder. */
  lemma {:induction false} SuperuserIsHeldExactlyWhenPurgesSpareIt(s: State, steps: seq<Step>, p: nat)
    requires TablesOk(s) && Standing(s, p, SYSTEM_SUPERUSER) && Holders(s, p) != {}
    ensures HeldThroughout(s, steps, p) <==> Spares(s, steps, p)
    decreases |steps|
  {
    if steps != [] {
      NextKeepsASuperuserExactlyWhenSpared(s, steps[0], p);
      NextKeepsBaseline(s, steps[0], p, SYSTEM_SUPERUSER);
      NextKeepsTables(s, steps[0]);
      if Holders(Next(s, steps[0]), p) != {} {
        SuperuserIsHeldExactlyWhenPurgesSpareIt(Next(s, steps[0]), steps[1..], p);
      }
    }
  }
}
