/** Every service call, and so every run, keeps the invariant of SessionInvariant and only moves the counters, keys
and tokens forward. */
module SessionTheorems {
  import opened Wrappers
  import opened Redis
  import opened SessionModel
  import opened SessionInvariant

  // ----- every step keeps the invariant -----

  lemma LookupOpen(s: State, chain: Uuid, i: nat)
    requires OneRowPerChain(s) && OpenOn(s.rows, chain, i)
    ensures FindOpen(s.rows, chain) == Found(i)
  {
  }

  lemma LookupJti(s: State, i: nat)
    requires OneRowPerChain(s) && i in s.rows
    ensures FindByJti(s.rows, s.rows[i].jti) == Some(i)
  {
  }

  lemma RevokeChainKeeps(s: State, email: Email, chain: Uuid)
    requires Inv(s) && chain < s.nextUuid
    requires forall t :: t in s.issued && t.chain == chain ==> t.email == email
    ensures Inv(RevokeChain(s, email, chain))
  {
    BumpChainKeeps(s, email, chain);
    BumpChainKeepsTokens(s, email, chain);
    var bumped := BumpChain(s, email, chain);
    match FindOpen(bumped.rows, chain)
    case Found(i) => RevokeRowKeeps(bumped, i);
    case _ =>
  }

  lemma StandingMirror(s: State, t: Token) returns (i: nat)
    requires Inv(s) && Standing(s, t)
    ensures i in s.rows && Mirrors(s, t, i) && t.email in s.users && s.users[t.email].active
    ensures s.rows[i].userId == s.users[t.email].id
    ensures FindOpen(s.rows, t.chain) == Found(i)
  {
    assert Backed(s, t);
    i :| i in s.rows && Mirrors(s, t, i);
    LookupOpen(s, t.chain, i);
  }

  /** The claim of a rotation: nothing is left to redeem, and the chain may be renewed on its row. */
  lemma ClaimPreparesRenewal(s: State, t: Token) returns (i: nat)
    requires Inv(s) && Decodes(s, t) && Standing(s, t) && t.kind == Refresh && !Claimed(s, t.jti)
    ensures var claimed := Claiming(s, t);
      && Inv(claimed) && Mintable(claimed, t.email, t.chain) && Redeemed(claimed, t.chain)
      && OpenOn(claimed.rows, t.chain, i) && claimed.rows[i].userId == claimed.users[t.email].id
      && claimed.rows[i].jti == t.jti
  {
    assert Revoked(t.jti) !in s.redis;
    i := StandingMirror(s, t);
    ClaimKeeps(s, t);
    OnlyOneRedeemable(s, t);
  }

  lemma RefreshKeeps(s: State, t: Token)
    requires Inv(s)
    ensures Inv(DoRefresh(s, t).0)
  {
    if Decodes(s, t) && t.kind == Refresh && CurrentVersion(s, t) {
      CurrentIsStanding(s, t);
      if Claimed(s, t.jti) {
        RevokeChainKeeps(s, t.email, t.chain);
      } else {
        var i := ClaimPreparesRenewal(s, t);
        LookupJti(s, i);
        RenewKeeps(Claiming(s, t), t.email, t.chain, i);
      }
    }
  }

  lemma OnlyOneRedeemable(s: State, t: Token)
    requires Inv(s) && Standing(s, t) && t.kind == Refresh && Revoked(t.jti) !in s.redis
    ensures forall u ::
      Standing(s, u) && u.chain == t.chain && u.kind == Refresh && Revoked(u.jti) !in s.redis ==> u == t
  {
    forall u | Standing(s, u) && u.chain == t.chain && u.kind == Refresh && Revoked(u.jti) !in s.redis
      ensures u == t
    {
      var i := StandingMirror(s, t);
      var j := StandingMirror(s, u);
    }
  }

  lemma LogoutKeeps(s: State, t: Token)
    requires Inv(s)
    ensures Inv(DoLogout(s, t).0)
  {
    if Decodes(s, t) && t.kind == Refresh {
      match FindByJti(s.rows, t.jti)
      case None =>
      case Some(i) =>
        if s.rows[i].revokedAt.None? {
          BumpChainKeeps(s, t.email, s.rows[i].chain);
          BumpChainKeepsTokens(s, t.email, s.rows[i].chain);
          RevokeRowKeeps(BumpChain(s, t.email, s.rows[i].chain), i);
        }
    }
  }

  lemma RevokeSessionKeeps(s: State, t: Token, own: Option<Token>, rowId: nat)
    requires Inv(s)
    ensures Inv(DoRevokeSession(s, t, own, rowId).0)
  {
    var s' := DoRevokeSession(s, t, own, rowId).0;
    if s' != s {
      var chain := s.rows[rowId].chain;
      var bumped := BumpChain(s, t.email, chain);
      BumpChainKeeps(s, t.email, chain);
      BumpChainKeepsTokens(s, t.email, chain);
      RevokeRowKeeps(bumped, rowId);
      assert s' == RevokeRow(bumped, rowId);
    }
  }

  /** The account after a password change's sweep: nothing stands, and the exempt chain's row is still open. */
  lemma SweepLeavesChain(s: State, t: Token, wanted: string) returns (i: nat)
    requires Inv(s) && Standing(s, t)
    ensures t.email in s.users
    ensures var swept := RevokeAll(StorePassword(s, t.email, wanted), t.email, Some(t.chain));
            && Inv(swept) && Silenced(swept, t.email) && Mintable(swept, t.email, t.chain)
            && OpenOn(swept.rows, t.chain, i) && swept.rows[i].userId == swept.users[t.email].id
            && swept.issued == s.issued && FindOpen(swept.rows, t.chain) == Found(i)
  {
    i := StandingMirror(s, t);
    var stored := StorePassword(s, t.email, wanted);
    EditUserKeeps(s, t.email, stored.users[t.email]);
    RevokeAllKeeps(stored, t.email, Some(t.chain));
    LookupOpen(RevokeAll(stored, t.email, Some(t.chain)), t.chain, i);
  }

  lemma ChangePasswordKeeps(s: State, t: Token, given: Option<string>, wanted: string)
    requires Inv(s)
    ensures Inv(DoChangePassword(s, t, given, wanted).0)
  {
    if DoChangePassword(s, t, given, wanted).1.Granted? {
      CurrentIsStanding(s, t);
      var i := SweepLeavesChain(s, t, wanted);
      var swept := RevokeAll(StorePassword(s, t.email, wanted), t.email, Some(t.chain));
      RenewKeeps(swept, t.email, t.chain, i);
    }
  }

  lemma GoogleLoginKeeps(s: State, email: Email)
    requires Inv(s)
    ensures Inv(DoGoogleLogin(s, email).0)
  {
    if email != "" {
      if email !in s.users {
        var user := User(s.nextUser, false, true, true, false, None);
        AddUserKeeps(s, email, user);
        OpenSessionKeeps(AddUser(s, email, user), email);
      } else if !s.users[email].system {
        var user := s.users[email];
        var known := Vouched(s, email);
        if !user.verified { EditUserKeeps(s, email, known.users[email]); }
        if user.active { OpenSessionKeeps(known, email); }
      }
    }
  }

  lemma SetPasswordKeeps(s: State, email: Email, wanted: string, spareSystem: bool)
    requires Inv(s)
    ensures Inv(DoSetPassword(s, email, wanted, spareSystem).0)
  {
    if DoSetPassword(s, email, wanted, spareSystem).1 == Done {
      var stored := StorePassword(s, email, wanted);
      EditUserKeeps(s, email, stored.users[email]);
      RevokeAllKeeps(stored, email, None);
    }
  }

  /** Deactivation comes before the sweep in the code; the two commute, and the sweep has to come first in
  the proof. */
  lemma SoftDeleteKeeps(s: State, caller: Email, email: Email)
    requires Inv(s)
    ensures Inv(DoSoftDelete(s, caller, email).0)
  {
    if DoSoftDelete(s, caller, email).1 == Done {
      var user := s.users[email].(active := false, deleted := true);
      var swept := RevokeAll(s, email, None);
      RevokeAllKeeps(s, email, None);
      EditUserKeeps(swept, email, user);
      assert DoSoftDelete(s, caller, email).0 == swept.(users := swept.users[email := user]);
    }
  }

  lemma MintingKeeps(s: State, step: Step)
    requires Inv(s) && Mints(step)
    ensures Inv(Next(s, step))
  {
    match step
    case Login(email, secret) => if DoLogin(s, email, secret).1.Granted? { OpenSessionKeeps(s, email); }
    case GoogleLogin(email) => GoogleLoginKeeps(s, email);
    case RefreshTokens(t) => RefreshKeeps(s, t);
    case ChangePassword(t, given, wanted) => ChangePasswordKeeps(s, t, given, wanted);
  }

  lemma EndingKeeps(s: State, step: Step)
    requires Inv(s) && EndsSessions(step)
    ensures Inv(Next(s, step))
  {
    match step
    case Logout(t) => LogoutKeeps(s, t);
    case LogoutAll(t) => RevokeAllKeeps(s, t.email, None);
    case RevokeSession(t, own, rowId) => RevokeSessionKeeps(s, t, own, rowId);
  }

  lemma PurgeKeeps(s: State, caller: Email, email: Email)
    requires Inv(s)
    ensures Inv(DoPurge(s, caller, email).0)
  {
    if DoPurge(s, caller, email).1 == Done {
      RevokeAllKeeps(s, email, None);
      RemoveUserKeeps(RevokeAll(s, email, None), email);
    }
  }

  lemma PasswordStepKeeps(s: State, step: Step)
    requires Inv(s) && (step.AdminSetPassword? || step.ResetPassword?)
    ensures Inv(Next(s, step))
  {
    SetPasswordKeeps(s, step.email, step.wanted, step.AdminSetPassword?);
  }

  lemma RemovalStepKeeps(s: State, step: Step)
    requires Inv(s) && (step.SoftDelete? || step.Purge?)
    ensures Inv(Next(s, step))
  {
    if step.SoftDelete? {
      SoftDeleteKeeps(s, step.caller, step.email);
    } else {
      PurgeKeeps(s, step.caller, step.email);
    }
  }

  lemma SignupKeeps(s: State, email: Email, secret: string)
    requires Inv(s)
    ensures Inv(DoSignup(s, email, secret).0)
  {
    if email !in s.users { AddUserKeeps(s, email, User(s.nextUser, false, false, true, false, Some(secret))); }
  }

  lemma VerifyAccountKeeps(s: State, email: Email)
    requires Inv(s)
    ensures Inv(DoVerifyAccount(s, email).0)
  {
    if email in s.users { EditUserKeeps(s, email, s.users[email].(verified := true)); }
  }

  lemma ReactivateKeeps(s: State, email: Email)
    requires Inv(s)
    ensures Inv(DoReactivate(s, email).0)
  {
    if email in s.users { EditUserKeeps(s, email, s.users[email].(active := true, deleted := false)); }
  }

  lemma TickStepKeeps(s: State, step: Step)
    requires Inv(s) && step.Tick?
    ensures Inv(Next(s, step))
  {
    TickKeeps(s, step.seconds);
  }

  lemma EditingKeeps(s: State, step: Step)
    requires Inv(s) && EditsAccount(step) && !step.Tick?
    ensures Inv(Next(s, step))
  {
    if step.Signup? {
      SignupKeeps(s, step.email, step.secret);
    } else if step.VerifyAccount? {
      VerifyAccountKeeps(s, step.email);
    } else {
      ReactivateKeeps(s, step.email);
    }
  }

  lemma NextKeeps(s: State, step: Step)
    requires Inv(s)
    ensures Inv(Next(s, step))
  {
    if Mints(step) { MintingKeeps(s, step); }
    else if EndsSessions(step) { EndingKeeps(s, step); }
    else if step.AdminSetPassword? || step.ResetPassword? { PasswordStepKeeps(s, step); }
    else if step.SoftDelete? || step.Purge? { RemovalStepKeeps(s, step); }
    else if step.Tick? { TickStepKeeps(s, step); }
    else { EditingKeeps(s, step); }
  }

  lemma {:induction false} RunKeeps(s: State, steps: seq<Step>)
    requires Inv(s)
    ensures Inv(Run(s, steps))
    decreases |steps|
  {
    if steps != [] {
      NextKeeps(s, steps[0]);
      RunKeeps(Next(s, steps[0]), steps[1..]);
    }
  }

  // ----- what can only move one way -----

  /** `s'` comes after `s`: keys are never forgotten, versions never fall, and a token is only ever added on
  a new chain or on a chain that still has a standing token. */
  ghost predicate Later(s: State, s': State) {
    && s'.cfg == s.cfg && s.now <= s'.now && s.issued <= s'.issued && s.nextUuid <= s'.nextUuid
    && (forall e :: AccountVersion(s, e) <= AccountVersion(s', e))
    && (forall k :: k in s.redis ==> k in s'.redis)
    && (forall t :: t in s'.issued && t !in s.issued ==> t.chain >= s.nextUuid || LiveChain(s, t.chain))
  }

  ghost predicate LiveChain(s: State, chain: Uuid) { exists t :: Standing(s, t) && t.chain == chain }

  lemma StandingIsLost(s: State, s': State, t: Token)
    requires TokenInv(s) && Later(s, s') && t in s.issued && Standing(s', t)
    ensures Standing(s, t)
  {
  }

  lemma LaterLiveChain(s: State, s': State, chain: Uuid)
    requires TokenInv(s) && Later(s, s') && LiveChain(s', chain) && chain < s.nextUuid
    ensures LiveChain(s, chain)
  {
    var t :| Standing(s', t) && t.chain == chain;
    if t in s.issued { StandingIsLost(s, s', t); }
  }

  lemma LaterTransitive(s0: State, s1: State, s2: State)
    requires TokenInv(s0) && TokenInv(s1) && Later(s0, s1) && Later(s1, s2)
    ensures Later(s0, s2)
  {
    forall t | t in s2.issued && t !in s0.issued ensures t.chain >= s0.nextUuid || LiveChain(s0, t.chain) {
      if t !in s1.issued && t.chain < s0.nextUuid { LaterLiveChain(s0, s1, t.chain); }
    }
  }

  lemma BumpAccountIsLater(s: State, email: Email)
    requires TokenInv(s)
    ensures Later(s, BumpAccount(s, email))
  {
    BumpAccountKeepsTokens(s, email);
  }

  lemma BumpChainIsLater(s: State, email: Email, chain: Uuid)
    requires TokenInv(s) && chain < s.nextUuid
    ensures Later(s, BumpChain(s, email, chain))
  {
    BumpChainKeepsTokens(s, email, chain);
  }

  /** Minting after a claim or a sweep, seen from the state before: the chain was live there. */
  lemma MintPairIsLater(s: State, s1: State, email: Email, chain: Uuid)
    requires Later(s, s1) && s1.issued == s.issued && (LiveChain(s, chain) || chain >= s.nextUuid)
    ensures Later(s, MintPair(s1, email, chain))
  {
    PairIsIssued(s1, email, chain);
    assert forall e :: AccountVersion(MintPair(s1, email, chain), e) == AccountVersion(s1, e);
  }

  lemma ClaimIsLater(s: State, t: Token)
    requires TokenInv(s)
    ensures Later(s, Claiming(s, t))
  {
    assert forall e :: AccountVersion(Claiming(s, t), e) == AccountVersion(s, e);
  }

  lemma RefreshIsLater(s: State, t: Token)
    requires Inv(s)
    ensures Later(s, DoRefresh(s, t).0)
  {
    if Decodes(s, t) && t.kind == Refresh && CurrentVersion(s, t) {
      CurrentIsStanding(s, t);
      if Claimed(s, t.jti) {
        BumpChainIsLater(s, t.email, t.chain);
        RowsDoNotMatter(s, BumpChain(s, t.email, t.chain), DoRefresh(s, t).0);
      } else {
        var claimed := Claiming(s, t);
        ClaimIsLater(s, t);
        MintPairIsLater(s, claimed, t.email, t.chain);
        RowsDoNotMatter(s, MintPair(claimed, t.email, t.chain), DoRefresh(s, t).0);
      }
    }
  }

  lemma SweepIsLater(s: State, t: Token, wanted: string)
    requires Inv(s) && t.email in s.users
    ensures var swept := RevokeAll(StorePassword(s, t.email, wanted), t.email, Some(t.chain));
      Later(s, swept) && swept.issued == s.issued
  {
    BumpAccountIsLater(s, t.email);
  }

  lemma ChangePasswordIsLater(s: State, t: Token, given: Option<string>, wanted: string)
    requires Inv(s)
    ensures Later(s, DoChangePassword(s, t, given, wanted).0)
  {
    if DoChangePassword(s, t, given, wanted).1.Granted? {
      CurrentIsStanding(s, t);
      SweepIsLater(s, t, wanted);
      var swept := RevokeAll(StorePassword(s, t.email, wanted), t.email, Some(t.chain));
      MintPairIsLater(s, swept, t.email, t.chain);
      RowsDoNotMatter(s, MintPair(swept, t.email, t.chain), DoChangePassword(s, t, given, wanted).0);
    }
  }

  lemma RowsDoNotMatter(s: State, s1: State, s2: State)
    requires Later(s, s1) && s2 == s1.(rows := s2.rows, nextRow := s2.nextRow, users := s2.users)
    ensures Later(s, s2)
  {
  }

  lemma OpenSessionIsLater(s: State, email: Email)
    requires email in s.users
    ensures Later(s, OpenSession(s, email).0)
  {
    MintPairIsLater(s, s.(nextUuid := s.nextUuid + 1), email, s.nextUuid);
  }

  lemma MintingIsLater(s: State, step: Step)
    requires Inv(s) && Mints(step)
    ensures Later(s, Next(s, step))
  {
    match step
    case Login(email, secret) => if DoLogin(s, email, secret).1.Granted? { OpenSessionIsLater(s, email); }
    case GoogleLogin(email) => GoogleLoginIsLater(s, email);
    case RefreshTokens(t) => RefreshIsLater(s, t);
    case ChangePassword(t, given, wanted) => ChangePasswordIsLater(s, t, given, wanted);
  }

  lemma LogoutIsLater(s: State, t: Token)
    requires Inv(s)
    ensures Later(s, DoLogout(s, t).0)
  {
    if FindByJti(s.rows, t.jti).Some? { BumpChainIsLater(s, t.email, s.rows[FindByJti(s.rows, t.jti).value].chain); }
  }

  lemma RevokeSessionIsLater(s: State, t: Token, own: Option<Token>, rowId: nat)
    requires Inv(s)
    ensures Later(s, DoRevokeSession(s, t, own, rowId).0)
  {
    if rowId in s.rows { BumpChainIsLater(s, t.email, s.rows[rowId].chain); }
  }

  lemma EndingIsLater(s: State, step: Step)
    requires Inv(s) && EndsSessions(step)
    ensures Later(s, Next(s, step))
  {
    match step
    case Logout(t) => LogoutIsLater(s, t);
    case LogoutAll(t) => BumpAccountIsLater(s, t.email);
    case RevokeSession(t, own, rowId) => RevokeSessionIsLater(s, t, own, rowId);
  }

  lemma SweepingIsLater(s: State, step: Step)
    requires Inv(s) && SweepsAccount(step)
    ensures Later(s, Next(s, step))
  {
    BumpAccountIsLater(s, step.email);
  }

  lemma EditingIsLater(s: State, step: Step)
    requires Inv(s) && EditsAccount(step)
    ensures Later(s, Next(s, step))
  {
    if step.Tick? { TickKeepsTokens(s, step.seconds); }
  }

  lemma NextIsLater(s: State, step: Step)
    requires Inv(s)
    ensures Later(s, Next(s, step))
  {
    if Mints(step) { MintingIsLater(s, step); }
    else if EndsSessions(step) { EndingIsLater(s, step); }
    else if SweepsAccount(step) { SweepingIsLater(s, step); }
    else { EditingIsLater(s, step); }
  }

  lemma GoogleLoginIsLater(s: State, email: Email)
    ensures Later(s, DoGoogleLogin(s, email).0)
  {
    if DoGoogleLogin(s, email).1.Granted? {
      if email !in s.users {
        var added := AddUser(s, email, User(s.nextUser, false, true, true, false, None));
        OpenSessionIsLater(added, email);
      } else {
        var user := s.users[email];
        var known := Vouched(s, email);
        OpenSessionIsLater(known, email);
      }
    }
  }

  lemma {:induction false} RunIsLater(s: State, steps: seq<Step>)
    requires Inv(s)
    ensures Later(s, Run(s, steps)) && Inv(Run(s, steps))
    decreases |steps|
  {
    RunKeeps(s, steps);
    if steps != [] {
      NextKeeps(s, steps[0]);
      NextIsLater(s, steps[0]);
      RunIsLater(Next(s, steps[0]), steps[1..]);
      LaterTransitive(s, Next(s, steps[0]), Run(s, steps));
    }
  }
}
