/** What the account counters and the redemption markers guarantee on every server, whatever its token lifetimes.

The account counter of an address never expires, and a redemption marker outlives the token it marks, so none of
this needs the order on the lifetimes that SessionInvariant asks for. */
module SessionAccounts {
  import opened Wrappers
  import opened Redis
  import opened SessionModel

  // ----- the account half of the invariant -----

  ghost predicate CountersStay(s: State) {
    forall e :: AccountVer(e) in s.redis ==> s.redis[AccountVer(e)].deadline.None?
  }

  /** No token is ahead of its account's counter, and only active accounts have tokens level with it. */
  ghost predicate LevelIsActive(s: State) {
    forall t :: t in s.issued ==>
      && t.accountVer <= AccountVersion(s, t.email)
      && (t.accountVer == AccountVersion(s, t.email) ==> t.email in s.users && s.users[t.email].active)
  }

  ghost predicate AccountInv(s: State) { CountersStay(s) && LevelIsActive(s) }

  /** From `s` to `s'` exactly the counters of `bumped` go up, by one; active accounts outside `bumped` stay so, and
  every new token is level with the counter of an active account. */
  ghost predicate Evolves(s: State, s': State, bumped: set<Email>) {
    && CountersStay(s')
    && (forall e :: AccountVersion(s', e) == AccountVersion(s, e) + if e in bumped then 1 else 0)
    && (forall e :: e in s.users && s.users[e].active && e !in bumped ==> e in s'.users && s'.users[e].active)
    && s.issued <= s'.issued
    && forall t :: t in s'.issued && t !in s.issued ==>
        t.accountVer == AccountVersion(s', t.email) && t.email in s'.users && s'.users[t.email].active
  }

  lemma EvolvingKeeps(s: State, s': State, bumped: set<Email>)
    requires AccountInv(s) && Evolves(s, s', bumped)
    ensures AccountInv(s')
  {
  }

  // ----- the steps, seen by the counters -----

  lemma MintedPairEvolves(s: State, swept: State, s': State, email: Email, chain: Uuid, bumped: set<Email>)
    requires Evolves(s, swept, bumped) && email in s'.users && s'.users[email].active && s'.users == swept.users
    requires s'.issued == MintPair(swept, email, chain).issued && s'.redis == swept.redis && s'.now == swept.now
    ensures Evolves(s, s', bumped)
  {
    var Granted(access, refresh) := PairReply(swept, email, chain);
    assert s'.issued == swept.issued + {access, refresh};
    assert forall e :: AccountVersion(s', e) == AccountVersion(swept, e);
  }

  lemma OtherKeysEvolve(s: State, s': State)
    requires CountersStay(s) && s'.issued == s.issued && s'.now >= s.now
    requires forall e :: AccountVer(e) in s.redis <==> AccountVer(e) in s'.redis
    requires forall e :: AccountVer(e) in s.redis ==> s'.redis[AccountVer(e)] == s.redis[AccountVer(e)]
    requires forall e :: e in s.users && s.users[e].active ==> e in s'.users && s'.users[e].active
    ensures Evolves(s, s', {})
  {
  }

  lemma BumpEvolves(s: State, s': State, email: Email)
    requires CountersStay(s) && s'.issued == s.issued && s'.now == s.now
    requires s'.redis == BumpAccount(s, email).redis
    requires forall e :: e in s.users && s.users[e].active && e != email ==> e in s'.users && s'.users[e].active
    ensures Evolves(s, s', {email})
  {
  }

  lemma OpenSessionEvolves(s: State, known: State, email: Email)
    requires Evolves(s, known, {}) && email in known.users && known.users[email].active
    ensures Evolves(s, OpenSession(known, email).0, {})
  {
    var drawn := known.(nextUuid := known.nextUuid + 1);
    assert forall e :: AccountVersion(drawn, e) == AccountVersion(known, e);
    MintedPairEvolves(s, drawn, OpenSession(known, email).0, email, known.nextUuid, {});
  }

  lemma LoginEvolves(s: State, email: Email, secret: string)
    requires AccountInv(s)
    ensures Evolves(s, DoLogin(s, email, secret).0, {})
  {
    OtherKeysEvolve(s, s);
    if DoLogin(s, email, secret).1.Granted? { OpenSessionEvolves(s, s, email); }
  }

  lemma GoogleLoginEvolves(s: State, email: Email)
    requires AccountInv(s)
    ensures Evolves(s, DoGoogleLogin(s, email).0, {})
  {
    if email != "" && email !in s.users {
      var added := AddUser(s, email, User(s.nextUser, false, true, true, false, None));
      OtherKeysEvolve(s, added);
      OpenSessionEvolves(s, added, email);
    } else if email != "" && !s.users[email].system {
      var user := s.users[email];
      var known := Vouched(s, email);
      OtherKeysEvolve(s, known);
      if user.active { OpenSessionEvolves(s, known, email); }
    } else {
      OtherKeysEvolve(s, s);
    }
  }

  /** Rotation does not read the account: a token of current version is the evidence that it is active. */
  lemma RefreshEvolves(s: State, t: Token)
    requires AccountInv(s)
    ensures Evolves(s, DoRefresh(s, t).0, {})
  {
    if DoRefresh(s, t).1.Granted? {
      var claimed := Claiming(s, t);
      OtherKeysEvolve(s, claimed);
      RotationMints(s, t);
      MintedPairEvolves(s, claimed, DoRefresh(s, t).0, t.email, t.chain, {});
    } else {
      OtherKeysEvolve(s, DoRefresh(s, t).0);
    }
  }

  /** A granted rotation claims the token, mints the pair and otherwise only writes session rows. */
  lemma RotationMints(s: State, t: Token)
    requires DoRefresh(s, t).1.Granted?
    ensures var claimed := Claiming(s, t);
      var minted := MintPair(claimed, t.email, t.chain);
      var s' := DoRefresh(s, t).0;
      && s'.redis == claimed.redis && s'.issued == minted.issued && s'.nextUuid == minted.nextUuid
      && s'.users == s.users && s'.now == s.now && t in s.issued && CurrentVersion(s, t)
  {
  }

  /** A granted password change sweeps the account, mints the pair and otherwise only writes session rows. */
  lemma ChangeMints(s: State, t: Token, given: Option<string>, wanted: string)
    requires DoChangePassword(s, t, given, wanted).1.Granted?
    ensures t.email in s.users
    ensures var swept := RevokeAll(StorePassword(s, t.email, wanted), t.email, Some(t.chain));
      var minted := MintPair(swept, t.email, t.chain);
      var s' := DoChangePassword(s, t, given, wanted).0;
      && s'.redis == swept.redis && s'.issued == minted.issued && s'.nextUuid == minted.nextUuid
      && s'.users == swept.users && s'.now == s.now && swept.users[t.email].active
      && DoChangePassword(s, t, given, wanted).1 == PairReply(swept, t.email, t.chain)
  {
  }

  lemma ChangePasswordEvolves(s: State, t: Token, given: Option<string>, wanted: string)
    requires AccountInv(s)
    ensures var (s', reply) := DoChangePassword(s, t, given, wanted);
      Evolves(s, s', if reply.Granted? then {t.email} else {})
  {
    if DoChangePassword(s, t, given, wanted).1.Granted? {
      ChangeMints(s, t, given, wanted);
      var swept := RevokeAll(StorePassword(s, t.email, wanted), t.email, Some(t.chain));
      BumpEvolves(s, swept, t.email);
      MintedPairEvolves(s, swept, DoChangePassword(s, t, given, wanted).0, t.email, t.chain, {t.email});
    } else {
      OtherKeysEvolve(s, s);
    }
  }

  // ----- every step -----

  /** The calls that sign an account out everywhere, and the account. */
  function SignedOutBy(s: State, step: Step): set<Email> {
    match step
    case LogoutAll(t) => if Decodes(s, t) && t.kind == Refresh then {t.email} else {}
    case ChangePassword(t, given, wanted) => {t.email}
    case AdminSetPassword(email, _) => {email}
    case ResetPassword(email, _) => {email}
    case SoftDelete(_, email) => {email}
    case Purge(_, email) => {email}
    case _ => {}
  }

  /** The counters a call moves: those it signs out, if it is not refused. */
  ghost function BumpedBy(s: State, step: Step): set<Email> {
    if Do(s, step).1 == Refused then {} else SignedOutBy(s, step)
  }

  lemma SweepingEvolves(s: State, step: Step)
    requires AccountInv(s) && (SweepsAccount(step) || step.LogoutAll?)
    ensures Evolves(s, Next(s, step), BumpedBy(s, step))
  {
    if BumpedBy(s, step) == {} {
      OtherKeysEvolve(s, Next(s, step));
    } else if step.LogoutAll? {
      BumpEvolves(s, Next(s, step), step.presented.email);
    } else {
      BumpEvolves(s, Next(s, step), step.email);
    }
  }

  lemma EndingEvolves(s: State, step: Step)
    requires AccountInv(s) && (step.Logout? || step.RevokeSession?)
    ensures Evolves(s, Next(s, step), {})
  {
    OtherKeysEvolve(s, Next(s, step));
  }

  lemma EditingEvolves(s: State, step: Step)
    requires AccountInv(s) && EditsAccount(step)
    ensures Evolves(s, Next(s, step), {})
  {
    OtherKeysEvolve(s, Next(s, step));
  }

  lemma MintingEvolves(s: State, step: Step)
    requires AccountInv(s) && Mints(step)
    ensures Evolves(s, Next(s, step), BumpedBy(s, step))
  {
    match step
    case Login(email, secret) => LoginEvolves(s, email, secret);
    case GoogleLogin(email) => GoogleLoginEvolves(s, email);
    case RefreshTokens(t) => RefreshEvolves(s, t);
    case ChangePassword(t, given, wanted) => ChangePasswordEvolves(s, t, given, wanted);
  }

  lemma NextEvolves(s: State, step: Step)
    requires AccountInv(s)
    ensures Evolves(s, Next(s, step), BumpedBy(s, step))
  {
    if Mints(step) { MintingEvolves(s, step); }
    else if SweepsAccount(step) || step.LogoutAll? { SweepingEvolves(s, step); }
    else if EndsSessions(step) { EndingEvolves(s, step); }
    else { EditingEvolves(s, step); }
  }

  // ----- the marker half of the invariant -----

  ghost predicate JtisUnique(s: State) {
    && (forall t :: t in s.issued ==> t.jti < s.nextUuid)
    && (forall t, u :: t in s.issued && u in s.issued && t.jti == u.jti ==> t == u)
  }

  ghost predicate MarkersOutlive(s: State) {
    && (forall j: Uuid :: Revoked(j) in s.redis ==> j < s.nextUuid)
    && forall t :: t in s.issued && Revoked(t.jti) in s.redis ==>
        var d := s.redis[Revoked(t.jti)].deadline; d.Some? && t.exp <= d.value
  }

  ghost predicate MarkerInv(s: State) { JtisUnique(s) && MarkersOutlive(s) }

  /** From `s` to `s'` no marker is lost or changed; a new one marks an issued token for the rest of its life; new
  tokens have new jtis. */
  ghost predicate Marks(s: State, s': State) {
    && s.nextUuid <= s'.nextUuid && s.issued <= s'.issued
    && (forall j :: Revoked(j) in s.redis ==> Revoked(j) in s'.redis && s'.redis[Revoked(j)] == s.redis[Revoked(j)])
    && (forall j: Uuid :: Revoked(j) in s'.redis && Revoked(j) !in s.redis ==>
          j < s.nextUuid
          && forall t :: t in s.issued && t.jti == j ==>
              var d := s'.redis[Revoked(j)].deadline; d.Some? && t.exp <= d.value)
    && (forall t :: t in s'.issued && t !in s.issued ==> s.nextUuid <= t.jti < s'.nextUuid)
    && (forall t, u ::
          t in s'.issued && u in s'.issued && t !in s.issued && u !in s.issued && t.jti == u.jti ==> t == u)
  }

  lemma MarkingKeeps(s: State, s': State)
    requires MarkerInv(s) && Marks(s, s')
    ensures MarkerInv(s')
  {
  }

  lemma SameMarkersMark(s: State, s': State)
    requires s'.issued == s.issued && s'.nextUuid >= s.nextUuid
    requires forall j :: Revoked(j) in s.redis <==> Revoked(j) in s'.redis
    requires forall j :: Revoked(j) in s.redis ==> s'.redis[Revoked(j)] == s.redis[Revoked(j)]
    ensures Marks(s, s')
  {
  }

  lemma MintedPairMarks(s: State, b: State, s': State, email: Email, chain: Uuid)
    requires Marks(s, b) && b.issued == s.issued
    requires s'.issued == MintPair(b, email, chain).issued && s'.nextUuid == MintPair(b, email, chain).nextUuid
    requires s'.redis == b.redis
    ensures Marks(s, s')
  {
    var Granted(access, refresh) := PairReply(b, email, chain);
    assert s'.issued == b.issued + {access, refresh};
    assert access.jti == b.nextUuid && refresh.jti == b.nextUuid + 1;
  }

  lemma ClaimMarks(s: State, t: Token)
    requires MarkerInv(s) && Decodes(s, t) && !Claimed(s, t.jti)
    ensures Marks(s, Claiming(s, t))
  {
    assert Revoked(t.jti) !in s.redis;
    assert forall u :: u in s.issued && u.jti == t.jti ==> u == t;
  }

  lemma OpenSessionMarks(s: State, known: State, email: Email)
    requires Marks(s, known) && known.issued == s.issued && email in known.users
    ensures Marks(s, OpenSession(known, email).0)
  {
    var drawn := known.(nextUuid := known.nextUuid + 1);
    assert Marks(s, drawn);
    MintedPairMarks(s, drawn, OpenSession(known, email).0, email, known.nextUuid);
  }

  lemma LoginMarks(s: State, step: Step)
    requires step.Login? || step.GoogleLogin?
    ensures Marks(s, Next(s, step))
  {
    if Do(s, step).1.Granted? {
      if step.Login? {
        SameMarkersMark(s, s);
        OpenSessionMarks(s, s, step.email);
      } else if step.email !in s.users {
        var added := AddUser(s, step.email, User(s.nextUser, false, true, true, false, None));
        SameMarkersMark(s, added);
        OpenSessionMarks(s, added, step.email);
      } else {
        var user := s.users[step.email];
        var known := Vouched(s, step.email);
        SameMarkersMark(s, known);
        OpenSessionMarks(s, known, step.email);
      }
    } else {
      SameMarkersMark(s, Next(s, step));
    }
  }

  lemma RefreshMarks(s: State, t: Token)
    requires MarkerInv(s)
    ensures Marks(s, DoRefresh(s, t).0)
  {
    if DoRefresh(s, t).1.Granted? {
      var claimed := Claiming(s, t);
      ClaimMarks(s, t);
      RotationMints(s, t);
      MintedPairMarks(s, claimed, DoRefresh(s, t).0, t.email, t.chain);
    } else {
      SameMarkersMark(s, DoRefresh(s, t).0);
    }
  }

  lemma ChangePasswordMarks(s: State, t: Token, given: Option<string>, wanted: string)
    ensures Marks(s, DoChangePassword(s, t, given, wanted).0)
  {
    if DoChangePassword(s, t, given, wanted).1.Granted? {
      ChangeMints(s, t, given, wanted);
      var swept := RevokeAll(StorePassword(s, t.email, wanted), t.email, Some(t.chain));
      SameMarkersMark(s, swept);
      MintedPairMarks(s, swept, DoChangePassword(s, t, given, wanted).0, t.email, t.chain);
    } else {
      SameMarkersMark(s, s);
    }
  }

  lemma EndingMarks(s: State, step: Step)
    requires EndsSessions(step)
    ensures Marks(s, Next(s, step))
  {
    SameMarkersMark(s, Next(s, step));
  }

  lemma SweepingMarks(s: State, step: Step)
    requires SweepsAccount(step)
    ensures Marks(s, Next(s, step))
  {
    SameMarkersMark(s, Next(s, step));
  }

  lemma EditingMarks(s: State, step: Step)
    requires EditsAccount(step)
    ensures Marks(s, Next(s, step))
  {
    SameMarkersMark(s, Next(s, step));
  }

  lemma NextMarks(s: State, step: Step)
    requires MarkerInv(s)
    ensures Marks(s, Next(s, step))
  {
    if step.RefreshTokens? { RefreshMarks(s, step.presented); }
    else if step.ChangePassword? { ChangePasswordMarks(s, step.presented, step.given, step.wanted); }
    else if Mints(step) { LoginMarks(s, step); }
    else if EndsSessions(step) { EndingMarks(s, step); }
    else if SweepsAccount(step) { SweepingMarks(s, step); }
    else { EditingMarks(s, step); }
  }

  // ----- row ids -----

  ghost predicate RowIdsUsed(s: State) { forall i :: i in s.rows ==> i < s.nextRow }

  lemma RotationKeepsRowIds(s: State, step: Step)
    requires RowIdsUsed(s) && (step.RefreshTokens? || step.ChangePassword?)
    ensures RowIdsUsed(Next(s, step))
  {
  }

  lemma LoginKeepsRowIds(s: State, step: Step)
    requires RowIdsUsed(s) && (step.Login? || step.GoogleLogin?)
    ensures RowIdsUsed(Next(s, step))
  {
  }

  lemma OtherCallKeepsRowIds(s: State, step: Step)
    requires RowIdsUsed(s) && !Mints(step)
    ensures RowIdsUsed(Next(s, step))
  {
  }

  lemma NextKeepsRowIds(s: State, step: Step)
    requires RowIdsUsed(s)
    ensures RowIdsUsed(Next(s, step))
  {
    if step.RefreshTokens? || step.ChangePassword? { RotationKeepsRowIds(s, step); }
    else if Mints(step) { LoginKeepsRowIds(s, step); }
    else { OtherCallKeepsRowIds(s, step); }
  }

  // ----- every run -----

  ghost predicate FreeInv(s: State) { AccountInv(s) && MarkerInv(s) && RowIdsUsed(s) }

  lemma InitialIsFree(s: State)
    requires Initial(s)
    ensures FreeInv(s)
  {
  }

  lemma NextStaysFree(s: State, step: Step)
    requires FreeInv(s)
    ensures FreeInv(Next(s, step))
  {
    NextEvolves(s, step);
    EvolvingKeeps(s, Next(s, step), BumpedBy(s, step));
    NextMarks(s, step);
    MarkingKeeps(s, Next(s, step));
    NextKeepsRowIds(s, step);
  }

  /** `s'` is `s` some calls later: counters have not fallen, tokens and markers have not been lost. */
  ghost predicate Onward(s: State, s': State) {
    && s.issued <= s'.issued
    && (forall e :: AccountVersion(s, e) <= AccountVersion(s', e))
    && forall j :: Revoked(j) in s.redis ==> Revoked(j) in s'.redis
  }

  lemma NextIsOnward(s: State, step: Step)
    requires FreeInv(s)
    ensures Onward(s, Next(s, step))
  {
    NextEvolves(s, step);
    NextMarks(s, step);
  }

  /** Along every run, on any server, counters never fall, redeemed tokens stay marked, and only active accounts have
  tokens level with their counter. */
  lemma {:induction false} RunStaysFree(s: State, steps: seq<Step>)
    requires FreeInv(s)
    ensures FreeInv(Run(s, steps)) && Onward(s, Run(s, steps))
    decreases |steps|
  {
    if steps != [] {
      NextStaysFree(s, steps[0]);
      NextIsOnward(s, steps[0]);
      RunStaysFree(Next(s, steps[0]), steps[1..]);
    }
  }

  // ----- the promises -----

  lemma OutdatedForever(s: State, t: Token, steps: seq<Step>)
    requires FreeInv(s) && t in s.issued && t.accountVer < AccountVersion(s, t.email)
    ensures !Current(Run(s, steps), t)
  {
    RunStaysFree(s, steps);
  }

  lemma BumpOutdates(s: State, step: Step, email: Email)
    requires FreeInv(s) && email in BumpedBy(s, step)
    ensures FreeInv(Next(s, step)) && s.issued <= Next(s, step).issued
    ensures forall t :: t in s.issued && t.email == email ==> t.accountVer < AccountVersion(Next(s, step), email)
  {
    NextStaysFree(s, step);
    NextEvolves(s, step);
  }

  /** Signing an account out everywhere (logout-all, any password change, soft delete, purge): every token issued for
  it so far is dead for good. */
  lemma AccountRevocationIsPermanent(s: State, step: Step, email: Email, steps: seq<Step>)
    requires FreeInv(s) && email in BumpedBy(s, step)
    ensures forall t :: t in s.issued && t.email == email ==> !Current(Run(Next(s, step), steps), t)
  {
    BumpOutdates(s, step, email);
    forall t | t in s.issued && t.email == email
      ensures !Current(Run(Next(s, step), steps), t)
    {
      OutdatedForever(Next(s, step), t, steps);
    }
  }

  /** After a self-service password change the account's only current tokens are the new pair; every other live row of
  the account is revoked, and no other account notices. */
  lemma PasswordChangeLeavesOnlyThePair(s: State, t: Token, given: Option<string>, wanted: string)
    requires FreeInv(s) && DoChangePassword(s, t, given, wanted).1.Granted?
    ensures var (s1, Granted(access, refresh)) := DoChangePassword(s, t, given, wanted);
      && t.email in s.users
      && (forall u :: Current(s1, u) && u.email == t.email ==> u == access || u == refresh)
      && (forall u :: u in s.issued && u.email != t.email ==> (Current(s1, u) <==> Current(s, u)))
      && (forall i :: i in s.rows && s.rows[i].userId == s.users[t.email].id && s.rows[i].chain != t.chain ==>
            i in s1.rows && s1.rows[i].revokedAt.Some?)
  {
    ChangeMints(s, t, given, wanted);
    BumpOutdates(s, ChangePassword(t, given, wanted), t.email);
    ChangeIsLocal(s, t, given, wanted);
    ChangeRevokesOtherRows(s, t, given, wanted);
    var (s1, Granted(access, refresh)) := DoChangePassword(s, t, given, wanted);
    assert s1.issued == s.issued + {access, refresh};
  }

  lemma ChangeIsLocal(s: State, t: Token, given: Option<string>, wanted: string)
    requires FreeInv(s) && DoChangePassword(s, t, given, wanted).1.Granted?
    ensures var s1 := DoChangePassword(s, t, given, wanted).0;
      forall u :: u in s.issued && u.email != t.email ==> (Current(s1, u) <==> Current(s, u))
  {
    ChangeMints(s, t, given, wanted);
    NextEvolves(s, ChangePassword(t, given, wanted));
    var s1 := DoChangePassword(s, t, given, wanted).0;
    assert forall c: Uuid, e: Email :: ChainVersion(s1, e, c) == ChainVersion(s, e, c);
  }

  lemma ChangeRevokesOtherRows(s: State, t: Token, given: Option<string>, wanted: string)
    requires FreeInv(s) && DoChangePassword(s, t, given, wanted).1.Granted? && t.email in s.users
    ensures var s1 := DoChangePassword(s, t, given, wanted).0;
      forall i :: i in s.rows && s.rows[i].userId == s.users[t.email].id && s.rows[i].chain != t.chain ==>
        i in s1.rows && s1.rows[i].revokedAt.Some?
  {
    var swept := RevokeAll(StorePassword(s, t.email, wanted), t.email, Some(t.chain));
    forall i | i in s.rows && s.rows[i].userId == s.users[t.email].id && s.rows[i].chain != t.chain
      ensures i in DoChangePassword(s, t, given, wanted).0.rows
      ensures DoChangePassword(s, t, given, wanted).0.rows[i].revokedAt.Some?
    {
      assert i in swept.rows && swept.rows[i].revokedAt.Some? && swept.rows[i].chain == s.rows[i].chain;
    }
  }

  /** ... and every token the account had before stays dead in every run. */
  lemma PasswordChangeIsPermanent(s: State, t: Token, given: Option<string>, wanted: string, steps: seq<Step>)
    requires FreeInv(s) && DoChangePassword(s, t, given, wanted).1.Granted?
    ensures var s2 := Run(Next(s, ChangePassword(t, given, wanted)), steps);
      forall u :: u in s.issued && u.email == t.email ==> !Current(s2, u)
  {
    AccountRevocationIsPermanent(s, ChangePassword(t, given, wanted), t.email, steps);
  }

  lemma MarkedIsClaimed(s: State, t: Token)
    requires MarkerInv(s) && Decodes(s, t) && Revoked(t.jti) in s.redis
    ensures Claimed(s, t.jti)
  {
  }

  /** A refresh token is redeemed at most once in any run. */
  lemma RedeemedOnce(s: State, t: Token, steps: seq<Step>)
    requires FreeInv(s) && DoRefresh(s, t).1.Granted?
    ensures !DoRefresh(Run(Next(s, RefreshTokens(t)), steps), t).1.Granted?
  {
    var s1 := Next(s, RefreshTokens(t));
    var s2 := Run(s1, steps);
    RotationMints(s, t);
    NextStaysFree(s, RefreshTokens(t));
    RunStaysFree(s1, steps);
    if Decodes(s2, t) { MarkedIsClaimed(s2, t); }
  }

  /** No call mints a token for an account that is missing or deactivated; the only new account to get tokens is the
  one a Google login registers in the same call. */
  lemma MintingNeedsActiveAccount(s: State, step: Step)
    requires FreeInv(s)
    ensures forall t :: t in Next(s, step).issued && t !in s.issued ==>
      && t.email in Next(s, step).users && Next(s, step).users[t.email].active
      && (if t.email in s.users then s.users[t.email].active else step == GoogleLogin(t.email))
  {
    NextEvolves(s, step);
    forall t | t in Next(s, step).issued && t !in s.issued
      ensures if t.email in s.users then s.users[t.email].active else step == GoogleLogin(t.email)
    {
      MintersAreActive(s, step, t);
    }
  }

  lemma MintersAreActive(s: State, step: Step, t: Token)
    requires FreeInv(s) && t in Next(s, step).issued && t !in s.issued
    ensures if t.email in s.users then s.users[t.email].active else step == GoogleLogin(t.email)
  {
    if step.RefreshTokens? {
      if Do(s, step).1.Granted? { RotationMints(s, step.presented); }
    } else if step.ChangePassword? {
      if Do(s, step).1.Granted? { ChangeMints(s, step.presented, step.given, step.wanted); }
    } else {
      LoginsMint(s, step, t);
    }
  }

  lemma LoginsMint(s: State, step: Step, t: Token)
    requires t in Next(s, step).issued && t !in s.issued && !step.RefreshTokens? && !step.ChangePassword?
    ensures (step.Login? || step.GoogleLogin?) && t.email == step.email
    ensures if t.email in s.users then s.users[t.email].active else step.GoogleLogin?
  {
    if step.GoogleLogin? { GoogleLoginMints(s, step.email, t); }
    else if !Mints(step) { OtherCallsMintNothing(s, step); }
  }

  lemma GoogleLoginMints(s: State, email: Email, t: Token)
    requires t in DoGoogleLogin(s, email).0.issued && t !in s.issued
    ensures t.email == email && (email in s.users ==> s.users[email].active)
  {
  }

  lemma OtherCallsMintNothing(s: State, step: Step)
    requires !Mints(step)
    ensures Next(s, step).issued == s.issued
  {
  }

  /** Whatever an account held before it was deactivated or purged stays dead, also after it is reactivated or its
  address is registered again. */
  lemma DormantAccountLosesItsTokens(s: State, email: Email, steps: seq<Step>)
    requires FreeInv(s) && (email in s.users ==> !s.users[email].active)
    ensures forall t :: t in s.issued && t.email == email ==> !Current(Run(s, steps), t)
  {
    forall t | t in s.issued && t.email == email
      ensures !Current(Run(s, steps), t)
    {
      OutdatedForever(s, t, steps);
    }
  }

  // ----- a granted pair works -----

  lemma PairWorks(b: State, s': State, email: Email, chain: Uuid)
    requires s'.redis == b.redis && s'.now == b.now && MintPair(b, email, chain).issued <= s'.issued
    requires b.cfg.accessMinutes > 0 && b.cfg.refreshMinutes > 0
    requires forall j: Uuid :: Revoked(j) in b.redis ==> j < b.nextUuid
    ensures var Granted(access, refresh) := PairReply(b, email, chain);
      Verifies(s', access, Access) && Redeemable(s', refresh) && PairFor(access, refresh, email, chain)
  {
    var Granted(access, refresh) := PairReply(b, email, chain);
    assert access in s'.issued && refresh in s'.issued;
  }

  predicate PairFor(access: Token, refresh: Token, email: Email, chain: Uuid) {
    access.email == refresh.email == email && access.chain == refresh.chain == chain
  }

  ghost predicate Works(reply: Reply, s': State, email: Email) {
    reply.Granted? && Verifies(s', reply.access, Access) && Redeemable(s', reply.refresh)
    && PairFor(reply.access, reply.refresh, email, reply.refresh.chain)
  }

  lemma OpenedSessionWorks(s: State, email: Email)
    requires MarkerInv(s) && s.cfg.accessMinutes > 0 && s.cfg.refreshMinutes > 0 && email in s.users
    ensures Works(OpenSession(s, email).1, OpenSession(s, email).0, email)
  {
    PairWorks(s.(nextUuid := s.nextUuid + 1), OpenSession(s, email).0, email, s.nextUuid);
  }

  /** The pair a login returns works: the access token verifies and the refresh token is redeemable. */
  lemma LoginGrantsWorkingPair(s: State, step: Step)
    requires FreeInv(s) && s.cfg.accessMinutes > 0 && s.cfg.refreshMinutes > 0
    requires Do(s, step).1.Granted? && (step.Login? || step.GoogleLogin?)
    ensures Works(Do(s, step).1, Next(s, step), step.email)
  {
    if step.Login? || step.email in s.users {
      var user := s.users[step.email];
      var known := if step.Login? || user.verified then s
        else s.(users := s.users[step.email := user.(verified := true, password := None)]);
      OpenedSessionWorks(known, step.email);
    } else {
      OpenedSessionWorks(AddUser(s, step.email, User(s.nextUser, false, true, true, false, None)), step.email);
    }
  }

  /** Rotation and a self-service password change hand back a working pair on the caller's own chain. */
  lemma RenewalGrantsWorkingPair(s: State, step: Step)
    requires FreeInv(s) && s.cfg.accessMinutes > 0 && s.cfg.refreshMinutes > 0
    requires Do(s, step).1.Granted? && (step.RefreshTokens? || step.ChangePassword?)
    ensures Works(Do(s, step).1, Next(s, step), step.presented.email)
    ensures Do(s, step).1.refresh.chain == step.presented.chain
  {
    var t := step.presented;
    if step.RefreshTokens? {
      RotationMints(s, t);
      PairWorks(Claiming(s, t), Next(s, step), t.email, t.chain);
    } else {
      ChangeMints(s, t, step.given, step.wanted);
      var stored := StorePassword(s, t.email, step.wanted);
      PairWorks(RevokeAll(stored, t.email, Some(t.chain)), Next(s, step), t.email, t.chain);
    }
  }
}
