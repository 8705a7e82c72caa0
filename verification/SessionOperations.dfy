/** What the calls on tokens and sessions accept and leave behind, told without naming the step functions' own cases:
which token a kind check lets through, which rotation is granted, which session a logout ends. */
module SessionOperations {
  import opened Wrappers
  import opened Redis
  import opened SessionModel
  import opened SessionAccounts
  import opened SessionInvariant
  import opened SessionTheorems
  import opened SessionGuarantees

  // ----- kinds of tokens -----

  /** The tokens a call hands out are one of each kind. */
  lemma GrantedKinds(s: State, step: Step)
    requires Do(s, step).1.Granted?
    ensures Mints(step)
    ensures Do(s, step).1.access.kind == Access && Do(s, step).1.refresh.kind == Refresh
  {
    if step.RefreshTokens? { RotationMints(s, step.presented); }
    else if step.ChangePassword? { ChangeMints(s, step.presented, step.given, step.wanted); }
  }

  /** No route that asks for an access token can be entered with `t`. */
  ghost predicate OpensNoRoute(s: State, t: Token) {
    && !Verifies(s, t, Access) && !SignedIn(s, t)
    && (forall given, wanted :: DoChangePassword(s, t, given, wanted) == (s, Refused))
    && forall own, i :: DoRevokeSession(s, t, own, i) == (s, Refused)
  }

  /** Nothing that asks for a refresh token can be done with `t`. */
  ghost predicate RenewsNothing(s: State, t: Token) {
    && !Verifies(s, t, Refresh) && DoRefresh(s, t) == (s, Refused)
    && DoLogout(s, t) == (s, Done) && DoLogoutAll(s, t) == (s, Done)
  }

  /** The two tokens of a granted pair never stand in for one another: in every later run the refresh token opens no
  route and the access token renews, logs out and revokes nothing. */
  lemma PairKeepsItsKinds(s: State, step: Step, steps: seq<Step>)
    requires Do(s, step).1.Granted?
    ensures var s2 := Run(Next(s, step), steps);
      OpensNoRoute(s2, Do(s, step).1.refresh) && RenewsNothing(s2, Do(s, step).1.access)
  {
    GrantedKinds(s, step);
  }

  /** Only an access token signs its bearer in, and only a refresh token can be rotated. */
  lemma KindDecides(s: State, t: Token)
    ensures SignedIn(s, t) ==> t.kind == Access
    ensures DoRefresh(s, t).1.Granted? ==> t.kind == Refresh
    ensures forall kind :: Verifies(s, t, kind) ==> t.kind == kind
  {
  }

  /** While its marker lives, a token verifies as neither kind. */
  lemma MarkedVerifiesAsNothing(s: State, t: Token, kind: Kind)
    requires Live(s.redis, s.now, Revoked(t.jti))
    ensures !Verifies(s, t, kind)
  {
  }

  /** A redeemed refresh token verifies as nothing in every later run, on every server. */
  lemma RedeemedVerifiesAsNothing(s: State, t: Token, steps: seq<Step>, kind: Kind)
    requires FreeInv(s) && DoRefresh(s, t).1.Granted?
    ensures !Verifies(Run(Next(s, RefreshTokens(t)), steps), t, kind)
  {
    var s1 := Next(s, RefreshTokens(t));
    var s2 := Run(s1, steps);
    RotationMints(s, t);
    NextStaysFree(s, RefreshTokens(t));
    RunStaysFree(s1, steps);
    if Decodes(s2, t) { MarkedIsClaimed(s2, t); }
  }

  /** A granted pair, left alone, works for exactly its lifetimes: the access token for the access lifetime, the refresh
  token for the refresh lifetime, both in minutes. */
  lemma PairLastsItsLifetimes(s: State, step: Step, seconds: nat)
    requires Inv(s) && Do(s, step).1.Granted?
    ensures var Granted(access, refresh) := Do(s, step).1;
      var s2 := Next(Next(s, step), Tick(seconds));
      && (Verifies(s2, access, Access) <==> seconds < 60 * s.cfg.accessMinutes)
      && (Redeemable(s2, refresh) <==> seconds < 60 * s.cfg.refreshMinutes)
  {
    GrantedKinds(s, step);
    var b, email, chain := MintedFrom(s, step);
    PairLasts(b, Next(s, step), email, chain, seconds);
  }

  /** `s1` is `b` with a pair minted in it, whatever happened to rows and accounts. */
  ghost predicate MintedIn(b: State, s1: State, email: Email, chain: Uuid) {
    s1.redis == b.redis && s1.now == b.now && s1.cfg == b.cfg && s1.issued == MintPair(b, email, chain).issued
  }

  /** The state a granted call mints its pair in: the chain was never bumped and nothing marks the new jtis. */
  lemma MintedFrom(s: State, step: Step) returns (b: State, email: Email, chain: Uuid)
    requires Inv(s) && Do(s, step).1.Granted? && Mints(step)
    ensures TokenInv(b) && ChainVer(email, chain) !in b.redis && b.cfg == s.cfg
    ensures Do(s, step).1 == PairReply(b, email, chain) && MintedIn(b, Next(s, step), email, chain)
  {
    if step.RefreshTokens? {
      b, email, chain := RotationMintsFrom(s, step.presented);
    } else if step.ChangePassword? {
      var t := step.presented;
      var swept, i := ChangeIsRenewal(s, t, step.given, step.wanted);
      CurrentIsStanding(s, t);
      b, email, chain := swept, t.email, t.chain;
    } else {
      b, email, chain := LoginMintsFrom(s, step);
    }
  }

  lemma RotationMintsFrom(s: State, t: Token) returns (b: State, email: Email, chain: Uuid)
    requires Inv(s) && DoRefresh(s, t).1.Granted?
    ensures TokenInv(b) && ChainVer(email, chain) !in b.redis && b.cfg == s.cfg
    ensures DoRefresh(s, t).1 == PairReply(b, email, chain) && MintedIn(b, DoRefresh(s, t).0, email, chain)
  {
    CurrentIsStanding(s, t);
    ClaimKeepsTokens(s, t);
    RotationMints(s, t);
    b, email, chain := Claiming(s, t), t.email, t.chain;
  }

  lemma OpenSessionMintsFrom(s: State, known: State, email: Email) returns (b: State)
    requires TokenInv(s) && known == s.(users := known.users, nextUser := known.nextUser) && email in known.users
    ensures TokenInv(b) && ChainVer(email, s.nextUuid) !in b.redis && b.cfg == s.cfg
    ensures OpenSession(known, email).1 == PairReply(b, email, s.nextUuid)
    ensures MintedIn(b, OpenSession(known, email).0, email, s.nextUuid)
  {
    SameTokens(s, known);
    b := known.(nextUuid := known.nextUuid + 1);
  }

  lemma LoginMintsFrom(s: State, step: Step) returns (b: State, email: Email, chain: Uuid)
    requires Inv(s) && Do(s, step).1.Granted? && (step.Login? || step.GoogleLogin?)
    ensures TokenInv(b) && ChainVer(email, chain) !in b.redis && b.cfg == s.cfg
    ensures Do(s, step).1 == PairReply(b, email, chain) && MintedIn(b, Next(s, step), email, chain)
  {
    email, chain := step.email, s.nextUuid;
    if step.Login? {
      b := OpenSessionMintsFrom(s, s, email);
    } else if email !in s.users {
      b := OpenSessionMintsFrom(s, AddUser(s, email, User(s.nextUser, false, true, true, false, None)), email);
    } else {
      b := OpenSessionMintsFrom(s, Vouched(s, email), email);
    }
  }

  lemma PairLasts(b: State, s1: State, email: Email, chain: Uuid, seconds: nat)
    requires TokenInv(b) && ChainVer(email, chain) !in b.redis && MintedIn(b, s1, email, chain)
    ensures var Granted(access, refresh) := PairReply(b, email, chain);
      var s2 := Next(s1, Tick(seconds));
      && (Verifies(s2, access, Access) <==> seconds < 60 * b.cfg.accessMinutes)
      && (Redeemable(s2, refresh) <==> seconds < 60 * b.cfg.refreshMinutes)
  {
    PairIsIssued(b, email, chain);
  }

  // ----- rotation -----

  /** A rotation is granted exactly to a refresh token that is issued, unexpired, not overtaken by a revocation and not
  redeemed yet. Every other token is refused, and only a redeemed one that is still current changes anything. */
  lemma RotationIsGrantedExactlyOnce(s: State, t: Token)
    ensures DoRefresh(s, t).1.Granted? <==> Current(s, t) && t.kind == Refresh && !Live(s.redis, s.now, Revoked(t.jti))
    ensures !DoRefresh(s, t).1.Granted? ==> DoRefresh(s, t).1 == Refused
    ensures !(Current(s, t) && t.kind == Refresh) ==> DoRefresh(s, t).0 == s
  {
  }

  /** On whole seconds the marker of a redeemed token lasts exactly as long as the token. */
  lemma MarkerLastsAsLongAsTheToken(s: State, t: Token, seconds: nat)
    requires DoRefresh(s, t).1.Granted?
    ensures Claimed(Next(Next(s, RefreshTokens(t)), Tick(seconds)), t.jti) <==> s.now + seconds < t.exp
  {
    RotationMints(s, t);
  }

  /** The session row of a rotated token stays the row of its session: it carries the new refresh token, and no other
  row changes. */
  lemma RotationMovesTheRow(s: State, t: Token) returns (i: nat)
    requires Inv(s) && DoRefresh(s, t).1.Granted?
    ensures i in s.rows && s.rows[i].jti == t.jti && s.rows[i].revokedAt.None?
    ensures var (s1, Granted(_, refresh)) := DoRefresh(s, t);
      s1.rows == s.rows[i := s.rows[i].(jti := refresh.jti, expires := refresh.exp)]
  {
    CurrentIsStanding(s, t);
    i := StandingMirror(s, t);
    LookupJti(s, i);
  }

  /** A rotation whose row was never written creates it, for the account of the token. */
  lemma RotationBackfillsTheRow(s: State, t: Token)
    requires DoRefresh(s, t).1.Granted? && t.email in s.users && forall i :: i in s.rows ==> s.rows[i].jti != t.jti
    ensures var (s1, Granted(_, refresh)) := DoRefresh(s, t);
      s1.rows == s.rows[s.nextRow := Row(s.users[t.email].id, refresh.jti, t.chain, refresh.exp, None)]
  {
    assert FindByJti(s.rows, t.jti).None?;
  }

  lemma OpenSessionAddsARow(s: State, known: State, email: Email)
    requires RowsInRange(s) && ClaimsInRange(s) && email in known.users
    requires known == s.(users := known.users, nextUser := known.nextUser)
    ensures var (s1, Granted(_, refresh)) := OpenSession(known, email);
      && s1.users == known.users && s.nextRow !in s.rows
      && s1.rows == s.rows[s.nextRow := Row(known.users[email].id, refresh.jti, refresh.chain, refresh.exp, None)]
      && forall t :: t in s.issued ==> t.chain != refresh.chain
  {
  }

  /** A login adds one live row, for its account and carrying its refresh token, on a chain no token has. */
  lemma LoginAddsARow(s: State, step: Step)
    requires Inv(s) && Do(s, step).1.Granted? && (step.Login? || step.GoogleLogin?)
    ensures var s1, refresh := Next(s, step), Do(s, step).1.refresh;
      && step.email in s1.users && s.nextRow !in s.rows
      && s1.rows == s.rows[s.nextRow := Row(s1.users[step.email].id, refresh.jti, refresh.chain, refresh.exp, None)]
      && forall t :: t in s.issued ==> t.chain != refresh.chain
  {
    var email := step.email;
    if step.Login? {
      OpenSessionAddsARow(s, s, email);
    } else if email !in s.users {
      OpenSessionAddsARow(s, AddUser(s, email, User(s.nextUser, false, true, true, false, None)), email);
    } else {
      OpenSessionAddsARow(s, Vouched(s, email), email);
    }
  }

  // ----- ending one session -----

  /** Nothing of the chain is usable in the state, and nothing will be. */
  ghost predicate Dead(s: State, chain: Uuid) { forall u :: u in s.issued && u.chain == chain ==> !Current(s, u) }

  /** Row i of `s` is revoked in `s'`, and no other row is touched. */
  predicate RevokesOnly(s: State, s': State, i: nat) {
    i in s.rows && s'.rows == s.rows[i := s.rows[i].(revokedAt := Some(s.now))]
  }

  lemma RevokedStaysDead(s: State, s1: State, i: nat, steps: seq<Step>)
    requires Inv(s1) && RevokesOnly(s, s1, i)
    ensures Dead(Run(s1, steps), s.rows[i].chain)
  {
    RevokedRowIsFinal(s1, i, steps);
  }

  /** Logging out with the refresh token of a live row revokes that row, and nothing of its session is current in any
  later run; the sessions of other devices are as usable as before. */
  lemma LogoutEndsTheSession(s: State, t: Token, i: nat, steps: seq<Step>)
    requires Inv(s) && t in s.issued && s.now < t.exp && t.kind == Refresh
    requires i in s.rows && s.rows[i].jti == t.jti && s.rows[i].revokedAt.None?
    ensures var s1 := Next(s, Logout(t));
      RevokesOnly(s, s1, i) && Dead(Run(s1, steps), t.chain) && OtherChainsUntouched(s, s1, t.chain)
  {
    LookupJti(s, i);
    NextKeeps(s, Logout(t));
    RevokedStaysDead(s, Next(s, Logout(t)), i, steps);
    EndingTouchesOneChain(s, Logout(t), i);
  }

  /** Any other logout changes nothing: an access token, an expired or a foreign one, one without a live row. */
  lemma OtherLogoutChangesNothing(s: State, t: Token)
    requires !(t in s.issued && s.now < t.exp && t.kind == Refresh)
      || !exists i :: i in s.rows && s.rows[i].jti == t.jti && s.rows[i].revokedAt.None?
    ensures Next(s, Logout(t)) == s
  {
  }

  /** Whoever can still renew a session can log out of it for good: afterwards no token of the session is current. */
  lemma LogoutEndsWhatCouldBeRenewed(s: State, t: Token, steps: seq<Step>)
    requires Inv(s) && Redeemable(s, t)
    ensures Dead(Run(Next(s, Logout(t)), steps), t.chain)
  {
    CurrentIsStanding(s, t);
    var i := StandingMirror(s, t);
    LogoutEndsTheSession(s, t, i, steps);
  }

  /** The row is a live session of the caller's account other than the one its own refresh cookie belongs to. */
  predicate MayEnd(s: State, t: Token, own: Option<Token>, i: nat) {
    && t.email in s.users && i in s.rows
    && s.rows[i].userId == s.users[t.email].id && s.rows[i].revokedAt.None?
    && (own.None? || own.value.kind != Refresh || own.value !in s.issued || own.value.exp <= s.now
        || own.value.chain != s.rows[i].chain)
  }

  /** A signed-in caller can end exactly the live sessions of its own account other than its current one. The row is
  then revoked, nothing of that session is current in any later run, and all else is as usable as before. */
  lemma RevokeSessionEndsTheSession(s: State, t: Token, own: Option<Token>, i: nat, steps: seq<Step>)
    requires Inv(s) && SignedIn(s, t) && MayEnd(s, t, own, i)
    ensures var (s1, reply) := DoRevokeSession(s, t, own, i);
      && reply == Done && RevokesOnly(s, s1, i)
      && Dead(Run(s1, steps), s.rows[i].chain) && OtherChainsUntouched(s, s1, s.rows[i].chain)
  {
    var step := RevokeSession(t, own, i);
    NextKeeps(s, step);
    RevokedStaysDead(s, Next(s, step), i, steps);
    EndingTouchesOneChain(s, step, i);
  }

  lemma OtherRevokeSessionIsRefused(s: State, t: Token, own: Option<Token>, i: nat)
    requires !SignedIn(s, t) || !MayEnd(s, t, own, i)
    ensures DoRevokeSession(s, t, own, i) == (s, Refused)
  {
  }

  /** Presenting a redeemed token that is still current is refused, revokes the live row of its session and ends the
  session in every later run. */
  lemma ReuseEndsTheSession(s: State, t: Token, steps: seq<Step>) returns (i: nat)
    requires Inv(s) && Current(s, t) && t.kind == Refresh && Live(s.redis, s.now, Revoked(t.jti))
    ensures OpenOn(s.rows, t.chain, i)
    ensures var (s1, reply) := DoRefresh(s, t);
      reply == Refused && RevokesOnly(s, s1, i) && Dead(Run(s1, steps), t.chain)
      && OtherChainsUntouched(s, s1, t.chain)
  {
    CurrentIsStanding(s, t);
    i := StandingMirror(s, t);
    NextKeeps(s, RefreshTokens(t));
    RevokedStaysDead(s, Next(s, RefreshTokens(t)), i, steps);
    EndingTouchesOneChain(s, RefreshTokens(t), i);
  }

  // ----- ending all sessions of an account -----

  /** Every live row of the account is revoked, and no other row is touched. */
  ghost predicate RevokesAllOf(s: State, s': State, userId: nat) {
    && s'.rows.Keys == s.rows.Keys
    && forall i :: i in s.rows ==>
         s'.rows[i] == if s.rows[i].userId == userId && s.rows[i].revokedAt.None?
                       then s.rows[i].(revokedAt := Some(s.now)) else s.rows[i]
  }

  /** Logging out everywhere with a refresh token, setting a password and deactivating an account revoke every live row
  of the account and make every token it has useless in every later run. */
  lemma SigningOutEverywhere(s: State, step: Step, email: Email, steps: seq<Step>)
    requires FreeInv(s) && email in s.users
    requires step.LogoutAll? || step.AdminSetPassword? || step.ResetPassword? || step.SoftDelete?
    requires Do(s, step).1 == Done
    requires if step.LogoutAll? then Decodes(s, step.presented) && step.presented.kind == Refresh
             && step.presented.email == email else step.email == email
    ensures RevokesAllOf(s, Next(s, step), s.users[email].id)
    ensures forall t :: t in s.issued && t.email == email ==> !Current(Run(Next(s, step), steps), t)
  {
    assert email in BumpedBy(s, step);
    AccountRevocationIsPermanent(s, step, email, steps);
  }

  /** Logging out everywhere takes a refresh token that still decodes, even an overtaken one; any other changes
  nothing. */
  lemma OtherLogoutAllChangesNothing(s: State, t: Token)
    requires !(t in s.issued && s.now < t.exp && t.kind == Refresh)
    ensures Next(s, LogoutAll(t)) == s
  {
  }
}
