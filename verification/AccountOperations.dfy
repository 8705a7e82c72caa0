/** Which password opens an account, from the call that sets it to the call that sets it anew, and what every account
call accepts, writes and leaves alone. */
module AccountOperations {
  import opened Wrappers
  import opened Redis
  import opened SessionModel
  import opened SessionAccounts
  import opened SessionInvariant
  import opened SessionTheorems
  import opened SessionGuarantees

  // ----- what each call does to the accounts -----

  /** The only account a call can change, if any. */
  function Subject(step: Step): Option<Email> {
    match step
    case GoogleLogin(email) => Some(email)
    case ChangePassword(t, _, _) => Some(t.email)
    case AdminSetPassword(email, _) => Some(email)
    case ResetPassword(email, _) => Some(email)
    case Signup(email, _) => Some(email)
    case VerifyAccount(email) => Some(email)
    case SoftDelete(_, email) => Some(email)
    case Purge(_, email) => Some(email)
    case Reactivate(email) => Some(email)
    case _ => None
  }

  function AccountOf(s: State, e: Email): Option<User> { if e in s.users then Some(s.users[e]) else None }

  lemma ChangeStoresThePassword(s: State, t: Token, given: Option<string>, wanted: string)
    ensures var (s1, reply) := DoChangePassword(s, t, given, wanted);
      && (reply.Granted? ==> t.email in s.users)
      && (reply.Granted? ==> s1.users == s.users[t.email := s.users[t.email].(password := Some(wanted))])
      && (!reply.Granted? ==> s1 == s && reply == Refused)
  {
    if DoChangePassword(s, t, given, wanted).1.Granted? { ChangeMints(s, t, given, wanted); }
  }

  /** A login, a rotation, a logout, a revocation and the passing of time leave every account as it is. */
  lemma CallsWithoutSubjectKeepAccounts(s: State, step: Step)
    requires Subject(step).None?
    ensures Next(s, step).users == s.users
  {
    if step.RefreshTokens? || EndsSessions(step) { RowCallsKeepUsers(s, step); }
  }

  /** Every other call leaves the accounts it does not name alone, and all of them if it is refused. */
  lemma OtherAccountsAreUntouched(s: State, step: Step, e: Email)
    requires Subject(step) != Some(e)
    ensures AccountOf(Next(s, step), e) == AccountOf(s, e)
  {
    if Subject(step).None? { CallsWithoutSubjectKeepAccounts(s, step); }
    else if step.ChangePassword? { ChangeStoresThePassword(s, step.presented, step.given, step.wanted); }
    else if step.GoogleLogin? { GoogleLoginTouchesOne(s, step.email, e); }
  }

  lemma GoogleLoginTouchesOne(s: State, email: Email, e: Email)
    requires e != email
    ensures AccountOf(DoGoogleLogin(s, email).0, e) == AccountOf(s, e)
  {
  }

  // ----- what each call accepts -----

  /** Eight characters or more, among them an upper case letter, a lower case letter and a digit. */
  predicate LongAndMixed(secret: string) {
    && |secret| >= 8
    && (exists c :: c in secret && 'A' <= c <= 'Z')
    && (exists c :: c in secret && 'a' <= c <= 'z')
    && (exists c :: c in secret && '0' <= c <= '9')
  }

  lemma StrongMeans(secret: string)
    ensures Strong(secret) <==> LongAndMixed(secret)
  {
    HasOneBetween(secret, 'A', 'Z');
    HasOneBetween(secret, 'a', 'z');
    HasOneBetween(secret, '0', '9');
  }

  lemma HasOneBetween(secret: string, low: char, high: char)
    ensures (exists c :: c in secret && low <= c <= high) <==> exists i :: 0 <= i < |secret| && low <= secret[i] <= high
  {
    if i :| 0 <= i < |secret| && low <= secret[i] <= high { assert secret[i] in secret; }
  }

  /** A signed-in caller changes its password exactly if it knows the old one, or has none yet, and the new one is new,
  long and mixed. */
  lemma ChangeIsGrantedExactlyWithTheOldPassword(s: State, t: Token, given: Option<string>, wanted: string)
    ensures DoChangePassword(s, t, given, wanted).1.Granted? <==>
      && SignedIn(s, t) && LongAndMixed(wanted)
      && var stored := s.users[t.email].password;
         stored == None || (given == stored && given != Some("") && stored != Some(wanted))
  {
    StrongMeans(wanted);
  }

  /** A weak password is never stored by a change, an administrator or a reset link, and neither is the present one. */
  lemma SettingIsDoneExactlyForANewStrongPassword(s: State, email: Email, wanted: string)
    ensures Do(s, AdminSetPassword(email, wanted)).1 == Done <==>
      && email in s.users && !s.users[email].system && s.users[email].password != Some(wanted) && LongAndMixed(wanted)
    ensures Do(s, ResetPassword(email, wanted)).1 == Done <==>
      && email in s.users && s.users[email].password != Some(wanted) && LongAndMixed(wanted)
    ensures forall step :: step == AdminSetPassword(email, wanted) || step == ResetPassword(email, wanted) ==>
      (if Do(s, step).1 == Done then
         && email in s.users
         && Next(s, step).users == s.users[email := s.users[email].(password := Some(wanted))]
       else Do(s, step) == (s, Refused))
  {
    StrongMeans(wanted);
  }

  /** An address is signed up exactly if it has no account; the new account is unverified and has the given password. */
  lemma SignupAddsAnUnprovenAccount(s: State, email: Email, secret: string)
    ensures var (s1, reply) := Do(s, Signup(email, secret));
      && (reply == Done <==> email !in s.users)
      && (reply == Done ==>
            s1.users.Keys == s.users.Keys + {email}
            && var user := s1.users[email];
               !user.verified && !user.system && user.active && !user.deleted && user.password == Some(secret))
      && (reply != Done ==> reply == Refused && s1 == s)
  {
  }

  /** The id of a new account is nobody else's. */
  lemma NewAccountsHaveNewIds(s: State, step: Step, email: Email, e: Email)
    requires RowsInRange(s) && email !in s.users && e in s.users
    requires step.Signup? || step.GoogleLogin?
    ensures email in Next(s, step).users && e in Next(s, step).users ==>
      Next(s, step).users[email].id != Next(s, step).users[e].id
  {
  }

  lemma VerifyingProvesTheAddress(s: State, email: Email)
    ensures var (s1, reply) := Do(s, VerifyAccount(email));
      && (reply == Done <==> email in s.users && !s.users[email].verified)
      && (reply == Done ==> s1.users == s.users[email := s.users[email].(verified := true)])
      && (reply != Done ==> reply == Refused && s1 == s)
  {
  }

  /** Deleting and purging spare the system account and the caller's own. A deleted account is deactivated and keeps
  everything else; a purged one is gone with its rows. */
  lemma RemovingAnAccount(s: State, caller: Email, email: Email)
    ensures forall step :: step == SoftDelete(caller, email) || step == Purge(caller, email) ==>
      && (Do(s, step).1 == Done <==> email in s.users && !s.users[email].system && email != caller)
      && (Do(s, step).1 != Done ==> Do(s, step) == (s, Refused))
    ensures var (s1, reply) := Do(s, SoftDelete(caller, email));
      && (reply == Done ==> email in s.users)
      && (reply == Done ==> s1.users == s.users[email := s.users[email].(active := false, deleted := true)])
    ensures var (s1, reply) := Do(s, Purge(caller, email));
      reply == Done ==>
        && email in s.users && email !in s1.users
        && (forall i :: i in s1.rows <==> i in s.rows && s.rows[i].userId != s.users[email].id)
        && (forall i :: i in s1.rows ==> s1.rows[i] == s.rows[i])
  {
  }

  /** Exactly a deleted account is reactivated, and reactivating it right after the deletion restores every account. */
  lemma ReactivatingUndoesDeleting(s: State, caller: Email, email: Email)
    ensures Do(s, Reactivate(email)).1 == Done <==> email in s.users && s.users[email].deleted
    ensures Do(s, Reactivate(email)).1 != Done ==> Do(s, Reactivate(email)) == (s, Refused)
    ensures Do(s, Reactivate(email)).1 == Done ==>
      Next(s, Reactivate(email)).users == s.users[email := s.users[email].(active := true, deleted := false)]
    ensures Do(s, SoftDelete(caller, email)).1 == Done && s.users[email].active && !s.users[email].deleted ==>
      Next(Next(s, SoftDelete(caller, email)), Reactivate(email)).users == s.users
  {
  }

  /** Google opens every address but the system account's and a deactivated one; it verifies the address, registers a
  new one, and takes its password from an account that was not verified before. */
  lemma GoogleOpensEveryActiveAccount(s: State, email: Email)
    ensures var (s1, reply) := Do(s, GoogleLogin(email));
      && (reply.Granted? <==> email != "" && (email in s.users ==> s.users[email].active && !s.users[email].system))
      && (!reply.Granted? ==> reply == Refused && s1.issued == s.issued && s1.rows == s.rows && s1.redis == s.redis)
      && (reply.Granted? ==> email in s1.users && s1.users[email].verified && s1.users[email].active)
      && (email != "" && email !in s.users ==>
            s1.users[email].password == None && !s1.users[email].system && !s1.users[email].deleted)
      && (email != "" && email in s.users && !s.users[email].system ==>
            email in s1.users
            && s1.users[email] == if s.users[email].verified then s.users[email]
                                  else s.users[email].(verified := true, password := None))
      && (email in s.users && s.users[email].system ==> s1 == s)
  {
  }

  // ----- which password opens an account -----

  /** The password an account with a proven address has. */
  ghost predicate HasPassword(s: State, email: Email, secret: string) {
    email in s.users && s.users[email].verified && s.users[email].password == Some(secret)
  }

  /** A login is granted exactly with the stored password of a verified and active account, and changes nothing
  otherwise. */
  lemma LoginOpensExactlyWithThePassword(s: State, email: Email, secret: string)
    ensures DoLogin(s, email, secret).1.Granted? <==>
      HasPassword(s, email, secret) && s.users[email].active && email != "" && secret != ""
    ensures !DoLogin(s, email, secret).1.Granted? ==> DoLogin(s, email, secret) == (s, Refused)
  {
  }

  lemma NextKeepsPassword(s: State, step: Step, email: Email, secret: string)
    requires HasPassword(s, email, secret) && !CanSetPassword(step, email)
    ensures HasPassword(Next(s, step), email, secret)
  {
    if Subject(step) != Some(email) {
      OtherAccountsAreUntouched(s, step, email);
    } else if step.GoogleLogin? {
      GoogleKeepsPassword(s, email, secret);
    }
  }

  lemma GoogleKeepsPassword(s: State, email: Email, secret: string)
    requires HasPassword(s, email, secret)
    ensures HasPassword(DoGoogleLogin(s, email).0, email, secret)
  {
  }

  lemma {:induction false} RunKeepsPassword(s: State, steps: seq<Step>, email: Email, secret: string)
    requires HasPassword(s, email, secret) && forall k :: 0 <= k < |steps| ==> !CanSetPassword(steps[k], email)
    ensures HasPassword(Run(s, steps), email, secret)
    decreases |steps|
  {
    if steps != [] {
      NextKeepsPassword(s, steps[0], email, secret);
      RunKeepsPassword(Next(s, steps[0]), steps[1..], email, secret);
    }
  }

  /** The call sets the password of `email` to `wanted`, or proves the address it was signed up for with it. */
  ghost predicate Sets(s: State, step: Step, email: Email, wanted: string) {
    match step
    case ChangePassword(t, _, w) => t.email == email && w == wanted && Do(s, step).1.Granted?
    case AdminSetPassword(e, w) => e == email && w == wanted && Do(s, step).1 == Done
    case ResetPassword(e, w) => e == email && w == wanted && Do(s, step).1 == Done
    case VerifyAccount(e) =>
      e == email && Do(s, step).1 == Done && email in s.users && s.users[email].password == Some(wanted)
    case _ => false
  }

  lemma SettingStores(s: State, step: Step, email: Email, wanted: string)
    requires Sets(s, step, email, wanted)
    ensures email in Next(s, step).users && Next(s, step).users[email].password == Some(wanted)
    ensures email in s.users && Next(s, step).users[email].verified == (step.VerifyAccount? || s.users[email].verified)
  {
    if step.ChangePassword? { ChangeStoresThePassword(s, step.presented, step.given, step.wanted); }
  }

  /** Once a password is set, by its owner, an administrator or a reset link, or proven after a sign-up, it and no
  other opens the account, in every later run until a call that can set it anew: whatever logs in, out, deletes or
  reactivates in between. */
  lemma {:induction false} NewPasswordOpens(
    s: State, step: Step, email: Email, wanted: string, steps: seq<Step>, secret: string)
    requires Sets(s, step, email, wanted) && Next(s, step).users[email].verified
    requires forall k :: 0 <= k < |steps| ==> !CanSetPassword(steps[k], email)
    ensures var s2 := Run(Next(s, step), steps);
      && email in s2.users && s2.users[email].verified
      && (DoLogin(s2, email, secret).1.Granted? <==>
            secret == wanted && s2.users[email].active && email != "" && secret != "")
  {
    SettingStores(s, step, email, wanted);
    RunKeepsPassword(Next(s, step), steps, email, wanted);
    LoginOpensExactlyWithThePassword(Run(Next(s, step), steps), email, secret);
  }

  /** The whole way in: sign up, prove the address, and log in with that password and no other. */
  lemma {:induction false} SignupPasswordOpens(s: State, email: Email, chosen: string, steps: seq<Step>, secret: string)
    requires email !in s.users
    requires forall k :: 0 <= k < |steps| ==> !CanSetPassword(steps[k], email)
    ensures var s2 := Run(Next(Next(s, Signup(email, chosen)), VerifyAccount(email)), steps);
      && email in s2.users
      && (DoLogin(s2, email, secret).1.Granted? <==>
            secret == chosen && s2.users[email].active && email != "" && secret != "")
  {
    NewPasswordOpens(Next(s, Signup(email, chosen)), VerifyAccount(email), email, chosen, steps, secret);
  }

  // ----- which accounts no password opens -----

  /** The address belongs to nobody who has proven it. */
  ghost predicate Unproven(s: State, email: Email) { email in s.users ==> !s.users[email].verified }

  /** A call that proves an address. */
  predicate Proves(step: Step, email: Email) { step == VerifyAccount(email) || step == GoogleLogin(email) }

  lemma NextKeepsUnproven(s: State, step: Step, email: Email)
    requires Unproven(s, email) && !Proves(step, email)
    ensures Unproven(Next(s, step), email)
  {
    if Subject(step) != Some(email) { OtherAccountsAreUntouched(s, step, email); }
    else if step.ChangePassword? { ChangeStoresThePassword(s, step.presented, step.given, step.wanted); }
  }

  lemma {:induction false} RunKeepsUnproven(s: State, steps: seq<Step>, email: Email)
    requires Unproven(s, email) && forall k :: 0 <= k < |steps| ==> !Proves(steps[k], email)
    ensures Unproven(Run(s, steps), email)
    decreases |steps|
  {
    if steps != [] {
      NextKeepsUnproven(s, steps[0], email);
      RunKeepsUnproven(Next(s, steps[0]), steps[1..], email);
    }
  }

  /** Until somebody proves an address, no secret opens it, whatever passwords are set for it. */
  lemma UnprovenAddressStaysShut(s: State, steps: seq<Step>, email: Email, secret: string)
    requires Unproven(s, email) && forall k :: 0 <= k < |steps| ==> !Proves(steps[k], email)
    ensures DoLogin(Run(s, steps), email, secret) == (Run(s, steps), Refused)
  {
    RunKeepsUnproven(s, steps, email);
  }

  ghost predicate Inactive(s: State, email: Email) { email in s.users && !s.users[email].active }

  /** A call that can put an inactive account, or a new one at its address, into use. */
  predicate Revives(step: Step, email: Email) { step == Reactivate(email) || (step.Purge? && step.email == email) }

  lemma NextKeepsInactive(s: State, step: Step, email: Email)
    requires Inactive(s, email) && !Revives(step, email)
    ensures Inactive(Next(s, step), email)
  {
    if Subject(step) != Some(email) { OtherAccountsAreUntouched(s, step, email); }
    else if step.ChangePassword? { ChangeStoresThePassword(s, step.presented, step.given, step.wanted); }
  }

  lemma {:induction false} RunKeepsInactive(s: State, steps: seq<Step>, email: Email)
    requires Inactive(s, email) && forall k :: 0 <= k < |steps| ==> !Revives(steps[k], email)
    ensures Inactive(Run(s, steps), email)
    decreases |steps|
  {
    if steps != [] {
      NextKeepsInactive(s, steps[0], email);
      RunKeepsInactive(Next(s, steps[0]), steps[1..], email);
    }
  }

  /** A deleted account stays shut, to every secret, to Google and to every token, until it is reactivated or purged. */
  lemma {:induction false} DeletedAccountStaysShut(
    s: State, caller: Email, email: Email, steps: seq<Step>, secret: string, t: Token)
    requires Do(s, SoftDelete(caller, email)).1 == Done && t.email == email
    requires forall k :: 0 <= k < |steps| ==> !Revives(steps[k], email)
    ensures var s2 := Run(Next(s, SoftDelete(caller, email)), steps);
      && DoLogin(s2, email, secret) == (s2, Refused)
      && DoGoogleLogin(s2, email).1 == Refused && !SignedIn(s2, t)
  {
    RunKeepsInactive(Next(s, SoftDelete(caller, email)), steps, email);
  }

  /** An old password comes back with its account: it opens a deleted account again after it is reactivated. */
  lemma PasswordSurvivesDeletion(s: State, caller: Email, email: Email, wanted: string, secret: string)
    requires HasPassword(s, email, wanted) && Do(s, SoftDelete(caller, email)).1 == Done && email != ""
    ensures var s2 := Next(Next(s, SoftDelete(caller, email)), Reactivate(email));
      DoLogin(s2, email, secret).1.Granted? <==> secret == wanted && secret != ""
  {
  }

  /** A password change whose session row is missing writes one for the caller's chain. */
  lemma ChangeBackfillsTheRow(s: State, t: Token, given: Option<string>, wanted: string)
    requires DoChangePassword(s, t, given, wanted).1.Granted? && forall i :: !OpenOn(s.rows, t.chain, i)
    ensures var (s1, Granted(_, refresh)) := DoChangePassword(s, t, given, wanted);
      && t.email in s.users && s1.rows.Keys == s.rows.Keys + {s.nextRow}
      && s1.rows[s.nextRow] == Row(s.users[t.email].id, refresh.jti, t.chain, refresh.exp, None)
  {
    var swept := RevokeAll(StorePassword(s, t.email, wanted), t.email, Some(t.chain));
    forall i ensures !OpenOn(swept.rows, t.chain, i) {
      assert !OpenOn(s.rows, t.chain, i);
    }
    assert FindOpen(swept.rows, t.chain).Missing?;
  }
}
