/** What the session protocol promises about chains and session rows, over every run from any state that satisfies
the invariant; `SessionTheorems.RunKeeps` makes that every state reachable from a fresh server with ordered lifetimes.
The promises about accounts and single use, which need no such order, are in SessionAccounts. */
module SessionGuarantees {
  import opened Wrappers
  import opened Redis
  import opened SessionModel
  import opened SessionInvariant
  import opened SessionTheorems

  // ----- revocation is permanent -----

  /** A token that a revocation has hit never verifies and never rotates again, in any run. */
  lemma LostForever(s: State, t: Token, steps: seq<Step>)
    requires Inv(s) && t in s.issued && !Standing(s, t)
    ensures !Current(Run(s, steps), t)
  {
    var s' := Run(s, steps);
    RunIsLater(s, steps);
    if Current(s', t) {
      CurrentIsStanding(s', t);
      StandingIsLost(s, s', t);
    }
  }

  /** Once a chain has been bumped, no token of that chain is ever current again and none is ever added to
  it, although the chain key itself expires and its version reads 0 again. */
  lemma ChainRevocationIsPermanent(s: State, email: Email, chain: Uuid, steps: seq<Step>)
    requires Inv(s) && ChainVer(email, chain) in s.redis
    ensures forall t :: t in Run(s, steps).issued && t.email == email && t.chain == chain ==>
      t in s.issued && !Current(Run(s, steps), t)
  {
    var s' := Run(s, steps);
    RunIsLater(s, steps);
    forall t | t in s'.issued && t.email == email && t.chain == chain
      ensures t in s.issued && !Current(s', t)
    {
      BumpedIsDead(s, s', t);
      LostForever(s, t, steps);
    }
  }

  lemma BumpedIsDead(s: State, s': State, t: Token)
    requires TokenInv(s) && TokenInv(s') && Later(s, s') && t in s'.issued && ChainVer(t.email, t.chain) in s.redis
    ensures t in s.issued && !Standing(s, t)
  {
  }

  /** A session row marked revoked is the end of its chain: nothing on it is current, now or later. */
  lemma RevokedRowIsFinal(s: State, i: nat, steps: seq<Step>)
    requires Inv(s) && i in s.rows && s.rows[i].revokedAt.Some?
    ensures forall t :: t in Run(s, steps).issued && t.chain == s.rows[i].chain ==> !Current(Run(s, steps), t)
  {
    var s' := Run(s, steps);
    RunIsLater(s, steps);
    RevokedRowIsDead(s, i);
    forall t | t in s'.issued && Current(s', t) ensures t.chain != s.rows[i].chain {
      CurrentIsStanding(s', t);
      if t.chain < s.nextUuid { LaterLiveChain(s, s', t.chain); }
    }
  }

  lemma RevokedRowIsDead(s: State, i: nat)
    requires Inv(s) && i in s.rows && s.rows[i].revokedAt.Some?
    ensures !LiveChain(s, s.rows[i].chain)
  {
    forall t | Standing(s, t) ensures t.chain != s.rows[i].chain {
      var j := StandingMirror(s, t);
    }
  }

  // ----- one redeemable token, one live row -----

  /** Two refresh tokens of one chain are never both redeemable, and the redeemable one is the token its
  chain's live row carries. */
  lemma OneRedeemableToken(s: State, t: Token, u: Token)
    requires Inv(s) && Redeemable(s, t) && Redeemable(s, u) && t.chain == u.chain
    ensures t == u
    ensures exists i ::
      i in s.rows && OpenOn(s.rows, t.chain, i) && s.rows[i].jti == t.jti && s.rows[i].expires == t.exp
  {
    CurrentIsStanding(s, t);
    CurrentIsStanding(s, u);
    OnlyOneRedeemable(s, t);
    var i := StandingMirror(s, t);
  }

  /** Looking a session up by its chain never runs into two live rows. */
  lemma OneLiveRow(s: State, chain: Uuid)
    requires Inv(s)
    ensures !FindOpen(s.rows, chain).Several?
  {
  }

  // ----- reuse -----

  /** Every token of another chain is exactly as usable as before. */
  ghost predicate OtherChainsUntouched(s: State, s': State, chain: Uuid) {
    && s'.issued == s.issued
    && forall u :: u in s.issued && u.chain != chain ==>
         (Current(s', u) <==> Current(s, u)) && (Claimed(s', u.jti) <==> Claimed(s, u.jti))
  }

  lemma ChainBumpIsLocal(s: State, s': State, email: Email, chain: Uuid)
    requires TokenInv(s) && chain < s.nextUuid
    requires s'.redis == BumpChain(s, email, chain).redis && s'.now == s.now && s'.issued == s.issued
    ensures OtherChainsUntouched(s, s', chain)
  {
    BumpChainKeepsTokens(s, email, chain);
  }

  /** Presenting an already redeemed token that is still current ends its whole chain for good, and changes
  nothing for any token of another chain. */
  lemma ReuseIsContained(s: State, t: Token, steps: seq<Step>)
    requires Inv(s) && Current(s, t) && t.kind == Refresh && Claimed(s, t.jti)
    ensures var s1 := Next(s, RefreshTokens(t));
      && (forall u :: u in Run(s1, steps).issued && u.chain == t.chain ==> !Current(Run(s1, steps), u))
      && OtherChainsUntouched(s, s1, t.chain)
  {
    var s1 := Next(s, RefreshTokens(t));
    NextKeeps(s, RefreshTokens(t));
    BumpChainKeepsTokens(s, t.email, t.chain);
    ChainBumpIsLocal(s, s1, t.email, t.chain);
    RunIsLater(s1, steps);
    ChainRevocationIsPermanent(s1, t.email, t.chain, steps);
    var s2 := Run(s1, steps);
    forall u | u in s2.issued && u.chain == t.chain ensures !Current(s2, u) {
      assert t in s2.issued && u.email == t.email;
    }
  }

  /** The calls that end one session: its own chain dies, every other chain and every other row is untouched. */
  lemma EndingOneSession(s: State, step: Step, i: nat, steps: seq<Step>)
    requires Inv(s) && i in s.rows && s.rows[i].revokedAt.None?
    requires step.Logout? || step.RevokeSession? || step.RefreshTokens?
    requires i in Next(s, step).rows && Next(s, step).rows[i].revokedAt.Some?
    ensures var s1 := Next(s, step);
      && (forall t :: t in Run(s1, steps).issued && t.chain == s.rows[i].chain ==> !Current(Run(s1, steps), t))
      && OtherChainsUntouched(s, s1, s.rows[i].chain)
      && s1.rows == s.rows[i := s1.rows[i]]
  {
    var s1 := Next(s, step);
    EndingTouchesOneChain(s, step, i);
    NextKeeps(s, step);
    RevokedRowIsFinal(s1, i, steps);
  }

  /** A call that revokes row i bumps its chain and writes nothing else. */
  ghost predicate EndsRow(s: State, s': State, email: Email, i: nat) {
    && i in s.rows && s'.rows == s.rows[i := s.rows[i].(revokedAt := Some(s.now))]
    && s'.redis == BumpChain(s, email, s.rows[i].chain).redis && s'.now == s.now && s'.issued == s.issued
  }

  lemma ReuseEndsRow(s: State, t: Token, i: nat)
    requires Inv(s) && i in s.rows && s.rows[i].revokedAt.None?
    requires i in DoRefresh(s, t).0.rows && DoRefresh(s, t).0.rows[i].revokedAt.Some?
    ensures EndsRow(s, DoRefresh(s, t).0, t.email, i)
  {
    if DoRefresh(s, t).1.Granted? {
      RotationRevokesNothing(s, t);
      assert false;
    }
  }

  lemma EndingTouchesOneChain(s: State, step: Step, i: nat)
    requires Inv(s) && i in s.rows && s.rows[i].revokedAt.None?
    requires step.Logout? || step.RevokeSession? || step.RefreshTokens?
    requires i in Next(s, step).rows && Next(s, step).rows[i].revokedAt.Some?
    ensures EndsRow(s, Next(s, step), step.presented.email, i)
    ensures OtherChainsUntouched(s, Next(s, step), s.rows[i].chain)
  {
    if step.RefreshTokens? { ReuseEndsRow(s, step.presented, i); }
    ChainBumpIsLocal(s, Next(s, step), step.presented.email, s.rows[i].chain);
  }

  lemma RotationRevokesNothing(s: State, t: Token)
    requires Inv(s) && DoRefresh(s, t).1.Granted?
    ensures forall j :: j in s.rows ==>
      j in DoRefresh(s, t).0.rows && DoRefresh(s, t).0.rows[j].revokedAt == s.rows[j].revokedAt
  {
    CurrentIsStanding(s, t);
    var j := StandingMirror(s, t);
    LookupJti(s, j);
  }

  // ----- password change -----

  /** A granted change is a renewal of the caller's chain on the swept state. */
  lemma ChangeIsRenewal(s: State, t: Token, given: Option<string>, wanted: string) returns (swept: State, i: nat)
    requires Inv(s) && DoChangePassword(s, t, given, wanted).1.Granted?
    ensures t.email in s.users && swept == RevokeAll(StorePassword(s, t.email, wanted), t.email, Some(t.chain))
    ensures Inv(swept) && Silenced(swept, t.email) && OpenOn(swept.rows, t.chain, i) && swept.issued == s.issued
    ensures DoChangePassword(s, t, given, wanted).1 == PairReply(swept, t.email, t.chain)
    ensures DoChangePassword(s, t, given, wanted).0
      == MoveRow(MintPair(swept, t.email, t.chain), i, PairReply(swept, t.email, t.chain).refresh)
  {
    CurrentIsStanding(s, t);
    i := SweepLeavesChain(s, t, wanted);
    swept := RevokeAll(StorePassword(s, t.email, wanted), t.email, Some(t.chain));
  }

  /** ... and the caller's own row is still the live row of its chain, now carrying the new refresh token. */
  lemma PasswordChangeMovesTheRow(s: State, t: Token, given: Option<string>, wanted: string)
    requires Inv(s) && DoChangePassword(s, t, given, wanted).1.Granted?
    ensures var (s1, Granted(access, refresh)) := DoChangePassword(s, t, given, wanted);
      exists i :: OpenOn(s.rows, t.chain, i) && OpenOn(s1.rows, t.chain, i)
        && s1.rows[i].jti == refresh.jti && s1.rows[i].expires == refresh.exp
  {
    var swept, i := ChangeIsRenewal(s, t, given, wanted);
    RenewedRowCarriesThePair(swept, t.email, t.chain, i);
    SweptRowWasOpen(s, t, wanted, i);
  }

  lemma RenewedRowCarriesThePair(swept: State, email: Email, chain: Uuid, i: nat)
    requires OpenOn(swept.rows, chain, i)
    ensures var refresh := PairReply(swept, email, chain).refresh;
      var rows := MoveRow(MintPair(swept, email, chain), i, refresh).rows;
      OpenOn(rows, chain, i) && rows[i].jti == refresh.jti && rows[i].expires == refresh.exp
  {
  }

  lemma SweptRowWasOpen(s: State, t: Token, wanted: string, i: nat)
    requires t.email in s.users
    requires OpenOn(RevokeAll(StorePassword(s, t.email, wanted), t.email, Some(t.chain)).rows, t.chain, i)
    ensures OpenOn(s.rows, t.chain, i)
  {
  }

  // ----- a password set before the address was proven -----

  /** A call that can give `email` a password, or remove the account so that its address can be signed up anew. */
  predicate CanSetPassword(step: Step, email: Email) {
    match step
    case ChangePassword(t, _, _) => t.email == email
    case AdminSetPassword(e, _) => e == email
    case ResetPassword(e, _) => e == email
    case Purge(_, e) => e == email
    case _ => false
  }

  predicate Passwordless(s: State, email: Email) { email in s.users && s.users[email].password.None? }

  lemma RowCallsKeepUsers(s: State, step: Step)
    requires step.RefreshTokens? || EndsSessions(step)
    ensures Next(s, step).users == s.users
  {
    if step.RefreshTokens? {
      RotationKeepsUsers(s, step.presented);
    }
  }

  lemma RotationKeepsUsers(s: State, t: Token)
    ensures DoRefresh(s, t).0.users == s.users
  {
  }

  lemma SweepKeepsPasswordless(s: State, step: Step, email: Email)
    requires Passwordless(s, email) && !CanSetPassword(step, email) && SweepsAccount(step)
    ensures Passwordless(Next(s, step), email)
  {
  }

  lemma MintKeepsPasswordless(s: State, step: Step, email: Email)
    requires Passwordless(s, email) && !CanSetPassword(step, email) && Mints(step) && !step.RefreshTokens?
    ensures Passwordless(Next(s, step), email)
  {
    if step.ChangePassword? { OthersKeepPasswordless(s, step.presented, step.given, step.wanted, email); }
  }

  lemma OthersKeepPasswordless(s: State, t: Token, given: Option<string>, wanted: string, email: Email)
    requires Passwordless(s, email) && t.email != email
    ensures Passwordless(DoChangePassword(s, t, given, wanted).0, email)
  {
  }

  lemma NextKeepsPasswordless(s: State, step: Step, email: Email)
    requires Passwordless(s, email) && !CanSetPassword(step, email)
    ensures Passwordless(Next(s, step), email)
  {
    if step.RefreshTokens? || EndsSessions(step) {
      RowCallsKeepUsers(s, step);
    } else if Mints(step) {
      MintKeepsPasswordless(s, step, email);
    } else if SweepsAccount(step) {
      SweepKeepsPasswordless(s, step, email);
    }
  }

  lemma {:induction false} RunKeepsPasswordless(s: State, steps: seq<Step>, email: Email)
    requires Passwordless(s, email) && forall k :: 0 <= k < |steps| ==> !CanSetPassword(steps[k], email)
    ensures Passwordless(Run(s, steps), email)
    decreases |steps|
  {
    if steps != [] {
      NextKeepsPasswordless(s, steps[0], email);
      RunKeepsPasswordless(Next(s, steps[0]), steps[1..], email);
    }
  }

  /** Whoever registered an address without proving it cannot wait for its owner: once the owner signs in with
  Google, no password opens the account until one is set anew. */
  lemma UnprovenPasswordDiesWithGoogleLogin(s: State, email: Email, steps: seq<Step>, secret: string)
    requires email != "" && email in s.users && !s.users[email].verified && !s.users[email].system
    requires forall k :: 0 <= k < |steps| ==> !CanSetPassword(steps[k], email)
    ensures DoLogin(Run(Next(s, GoogleLogin(email)), steps), email, secret).1 == Refused
  {
    var known := s.(users := s.users[email := s.users[email].(verified := true, password := None)]);
    if s.users[email].active { assert OpenSession(known, email).0.users == known.users; }
    RunKeepsPasswordless(Next(s, GoogleLogin(email)), steps, email);
  }

  // ----- the lifetimes have to be ordered -----

  /** A run on which a token of a bumped chain is current again. */
  ghost predicate Resurrected(cfg: Config, s: State, before: seq<Step>, after: seq<Step>, t: Token) {
    && Initial(s) && s.cfg == cfg
    && ChainVer(t.email, t.chain) in Run(s, before).redis
    && Current(Run(Run(s, before), after), t)
  }

  ghost predicate RevocationHolds(cfg: Config) {
    forall s, before, after, t :: !Resurrected(cfg, s, before, after, t)
  }

  /** A login while no version was ever bumped. */
  lemma PlainLogin(s: State, email: Email, secret: string)
    requires s.redis == map[] && DoLogin(s, email, secret).1.Granted?
    ensures var s' := Next(s, Login(email, secret));
      && Token(Access, email, s.nextUuid + 1, s.nextUuid, 0, 0, s.now + 60 * s.cfg.accessMinutes) in s'.issued
      && s.issued <= s'.issued && s'.redis == s.redis && s'.users == s.users && s'.now == s.now && s'.cfg == s.cfg
      && s'.nextUuid == s.nextUuid + 3 && s'.nextRow == s.nextRow + 1 && s'.rows.Keys == s.rows.Keys + {s.nextRow}
      && s'.rows[s.nextRow].userId == s.users[email].id && s'.rows[s.nextRow].chain == s.nextUuid
      && s'.rows[s.nextRow].revokedAt == None
      && forall i :: i in s.rows && i != s.nextRow ==> s'.rows[i] == s.rows[i]
  {
    PairIsIssued(s.(nextUuid := s.nextUuid + 1), email, s.nextUuid);
  }

  lemma RunOfOne(s: State, step: Step)
    ensures Run(s, [step]) == Next(s, step)
  {
    assert [step][1..] == [];
    assert Run(Next(s, step), []) == Next(s, step);
  }

  lemma RunOfThree(s: State, a: Step, b: Step, c: Step)
    ensures Run(s, [a, b, c]) == Next(Next(Next(s, a), b), c)
  {
    assert [a, b, c][1..] == [b, c] && [b, c][1..] == [c];
    RunOfOne(Next(Next(s, a), b), c);
  }

  /** Two logins; the second device ends the first one's session; the chain key runs out. */
  lemma RevokedTokenReturns(cfg: Config)
    requires cfg.accessMinutes > cfg.refreshMinutes
    ensures !RevocationHolds(cfg)
  {
    var s0, stolen := OneAccount(cfg), CeoAccess(cfg, 0);
    var before, after := RevokingRun(cfg), [Tick(60 * cfg.refreshMinutes)];
    RevokingRunForgets(cfg);
    assert Resurrected(cfg, s0, before, after, stolen);
  }

  /** Two logins, the second of which ends the session of the first. */
  function RevokingRun(cfg: Config): seq<Step> {
    [Login("ceo", "Secret01"), Login("ceo", "Secret01"), RevokeSession(CeoAccess(cfg, 3), None, 0)]
  }

  lemma RevokingRunForgets(cfg: Config)
    requires cfg.accessMinutes > cfg.refreshMinutes
    ensures var s, stolen := Run(OneAccount(cfg), RevokingRun(cfg)), CeoAccess(cfg, 0);
      && ChainVer(stolen.email, stolen.chain) in s.redis
      && Current(Run(s, [Tick(60 * cfg.refreshMinutes)]), stolen)
  {
    var login, end := Login("ceo", "Secret01"), RevokeSession(CeoAccess(cfg, 3), None, 0);
    var wait := Tick(60 * cfg.refreshMinutes);
    var s2 := Next(Next(OneAccount(cfg), login), login);
    TwoLogins(cfg);
    EndedThenForgotten(s2, CeoAccess(cfg, 3), CeoAccess(cfg, 0), wait);
    RunOfThree(OneAccount(cfg), login, login, end);
    RunOfOne(Next(s2, end), wait);
  }

  function OneAccount(cfg: Config): State {
    State(cfg, 0, map[], {}, map[], map["ceo" := User(0, false, true, true, false, Some("Secret01"))], 0, 0, 1)
  }

  function CeoAccess(cfg: Config, chain: Uuid): Token {
    Token(Access, "ceo", chain + 1, chain, 0, 0, 60 * cfg.accessMinutes)
  }

  lemma TwoLogins(cfg: Config)
    requires cfg.accessMinutes > 0
    ensures var login := Login("ceo", "Secret01");
      var s := Next(Next(OneAccount(cfg), login), login);
      && s.redis == map[] && s.cfg == cfg && s.now == 0 && s.users == OneAccount(cfg).users
      && {CeoAccess(cfg, 0), CeoAccess(cfg, 3)} <= s.issued
      && 0 in s.rows && s.rows[0].chain == 0 && s.rows[0].userId == 0 && s.rows[0].revokedAt.None?
  {
    PlainLogin(OneAccount(cfg), "ceo", "Secret01");
    PlainLogin(Next(OneAccount(cfg), Login("ceo", "Secret01")), "ceo", "Secret01");
  }

  lemma EndedThenForgotten(s: State, kept: Token, stolen: Token, wait: Step)
    requires s.redis == map[] && kept in s.issued && stolen in s.issued && wait == Tick(60 * s.cfg.refreshMinutes)
    requires stolen.accountVer == stolen.chainVer == 0 && stolen.exp > s.now + 60 * s.cfg.refreshMinutes
    requires SignedIn(s, kept) && kept.email == stolen.email
    requires 0 in s.rows && s.rows[0].chain == stolen.chain && s.rows[0].revokedAt.None?
    requires s.rows[0].userId == s.users[kept.email].id
    ensures var s1 := Next(s, RevokeSession(kept, None, 0));
      ChainVer(stolen.email, stolen.chain) in s1.redis && Current(Next(s1, wait), stolen)
  {
  }

  /** Ending a session is permanent on every run exactly when access tokens do not outlive refresh tokens,
  which the settings do not enforce. */
  lemma RevocationHoldsExactlyWhenLifetimesAreOrdered(cfg: Config)
    ensures RevocationHolds(cfg) <==> cfg.accessMinutes <= cfg.refreshMinutes
  {
    if cfg.accessMinutes <= cfg.refreshMinutes {
      forall s, before, after, t ensures !Resurrected(cfg, s, before, after, t) {
        if Resurrected(cfg, s, before, after, t) {
          InitialHolds(s);
          RunKeeps(s, before);
          ChainRevocationIsPermanent(Run(s, before), t.email, t.chain, after);
        }
      }
    } else {
      RevokedTokenReturns(cfg);
    }
  }
}
