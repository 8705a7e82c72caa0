/** Login sessions: tokens, the Redis version counters that decide whether a token still counts, and the
`user_sessions` table that mirrors them.

Every service call is one atomic step. Time is in whole seconds. A token is the record of its claims; a
presented token has a valid signature exactly when the server issued it. */
module SessionModel {
  import opened Wrappers
  import opened Redis

  type Email = string
  /** A uuid4 draw: the model hands out 0, 1, 2, ... so that no draw repeats. */
  type Uuid = nat

  datatype Config = Config(accessMinutes: nat, refreshMinutes: nat)

  datatype Kind = Access | Refresh

  datatype Token = Token(kind: Kind, email: Email, jti: Uuid, chain: Uuid, accountVer: nat, chainVer: nat, exp: nat)

  datatype Key = AccountVer(email: Email) | ChainVer(owner: Email, chain: Uuid) | Revoked(jti: Uuid)

  datatype Row = Row(userId: nat, jti: Uuid, chain: Uuid, expires: nat, revokedAt: Option<nat>)

  /** `password` is None for an account that only signs in with Google; a stored hash is modelled by the
  password it was made from. */
  datatype User = User(id: nat, system: bool, verified: bool, active: bool, deleted: bool, password: Option<string>)

  datatype State = State(
    cfg: Config, now: nat, redis: map<Key, Entry>, issued: set<Token>,
    rows: map<nat, Row>, users: map<Email, User>, nextUuid: Uuid, nextRow: nat, nextUser: nat)

  datatype Reply = Granted(access: Token, refresh: Token) | Done | Refused

  // ----- token versions -----

  function AccountVersion(s: State, email: Email): nat { Count(s.redis, s.now, AccountVer(email)) }

  function ChainVersion(s: State, email: Email, chain: Uuid): nat { Count(s.redis, s.now, ChainVer(email, chain)) }

  function BumpAccount(s: State, email: Email): State { s.(redis := Incr(s.redis, s.now, AccountVer(email))) }

  function BumpChain(s: State, email: Email, chain: Uuid): State {
    var key := ChainVer(email, chain);
    s.(redis := Expire(Incr(s.redis, s.now, key), s.now, key, s.cfg.refreshMinutes * 60))
  }

  // ----- reading a presented token -----

  /** Signature and `exp` only. */
  predicate Decodes(s: State, t: Token) { t in s.issued && s.now < t.exp }

  predicate CurrentVersion(s: State, t: Token) {
    t.accountVer == AccountVersion(s, t.email) && t.chainVer == ChainVersion(s, t.email, t.chain)
  }

  predicate Claimed(s: State, jti: Uuid) { Live(s.redis, s.now, Revoked(jti)) }

  /** What `verify_token` lets through. */
  predicate Verifies(s: State, t: Token, kind: Kind) {
    Decodes(s, t) && !Claimed(s, t.jti) && CurrentVersion(s, t) && t.kind == kind
  }

  /** A decodable token no revocation has overtaken. Both ways of using a token, `verify_token` and
  rotation, demand at least this. */
  predicate Current(s: State, t: Token) { Decodes(s, t) && CurrentVersion(s, t) }

  /** The tokens `refresh_tokens` would rotate. */
  predicate Redeemable(s: State, t: Token) { Current(s, t) && t.kind == Refresh && !Claimed(s, t.jti) }

  // ----- minting -----

  function Lifetime(cfg: Config, kind: Kind): nat {
    60 * if kind == Access then cfg.accessMinutes else cfg.refreshMinutes
  }

  function Fresh(s: State, kind: Kind, email: Email, chain: Uuid): Token {
    Token(kind, email, s.nextUuid, chain, AccountVersion(s, email), ChainVersion(s, email, chain),
          s.now + Lifetime(s.cfg, kind))
  }

  function Mint(s: State, kind: Kind, email: Email, chain: Uuid): State {
    s.(issued := s.issued + {Fresh(s, kind, email, chain)}, nextUuid := s.nextUuid + 1)
  }

  function MintPair(s: State, email: Email, chain: Uuid): State {
    Mint(Mint(s, Access, email, chain), Refresh, email, chain)
  }

  function PairReply(s: State, email: Email, chain: Uuid): Reply {
    Granted(Fresh(s, Access, email, chain), Fresh(Mint(s, Access, email, chain), Refresh, email, chain))
  }

  // ----- session rows -----

  datatype Lookup = Missing | Found(id: nat) | Several

  predicate OpenOn(rows: map<nat, Row>, chain: Uuid, i: nat) {
    i in rows && rows[i].chain == chain && rows[i].revokedAt.None?
  }

  ghost function FindByJti(rows: map<nat, Row>, jti: Uuid): Option<nat> {
    if exists i :: i in rows && rows[i].jti == jti then
      var i :| i in rows && rows[i].jti == jti;
      Some(i)
    else
      None
  }

  /** The unrevoked row of a chain. `Several` is SQLAlchemy's MultipleResultsFound, which the session
  service catches, leaving the table alone. */
  ghost function FindOpen(rows: map<nat, Row>, chain: Uuid): Lookup {
    if exists i, j :: i != j && OpenOn(rows, chain, i) && OpenOn(rows, chain, j) then
      Several
    else if exists i :: OpenOn(rows, chain, i) then
      var i :| OpenOn(rows, chain, i);
      Found(i)
    else
      Missing
  }

  function RevokeRow(s: State, i: nat): State
    requires i in s.rows
  {
    s.(rows := s.rows[i := s.rows[i].(revokedAt := Some(s.now))])
  }

  function CreateRow(s: State, userId: nat, t: Token): State {
    s.(rows := s.rows[s.nextRow := Row(userId, t.jti, t.chain, t.exp, None)], nextRow := s.nextRow + 1)
  }

  function MoveRow(s: State, i: nat, t: Token): State
    requires i in s.rows
  {
    s.(rows := s.rows[i := s.rows[i].(jti := t.jti, expires := t.exp)])
  }

  function BackfillRow(s: State, t: Token): State {
    if t.email in s.users then CreateRow(s, s.users[t.email].id, t) else s
  }

  /** `rotate_session`: move the row of the old jti to the new token, or create the missing row. */
  ghost function RotateRow(s: State, oldJti: Uuid, t: Token): State {
    match FindByJti(s.rows, oldJti)
    case Some(i) => MoveRow(s, i, t)
    case None => BackfillRow(s, t)
  }

  /** `rotate_session_by_chain`. */
  ghost function RotateRowOfChain(s: State, t: Token): State {
    match FindOpen(s.rows, t.chain)
    case Found(i) => MoveRow(s, i, t)
    case Missing => BackfillRow(s, t)
    case Several => s
  }

  ghost function RevokeChainRow(s: State, chain: Uuid): State {
    match FindOpen(s.rows, chain)
    case Found(i) => RevokeRow(s, i)
    case _ => s
  }

  /** The UPDATE behind revoke-all; `exempt` is the chain a password change keeps. */
  function RevokeRowsOf(s: State, email: Email, exempt: Option<Uuid>): State {
    if email in s.users then
      s.(rows := map i | i in s.rows ::
        if s.rows[i].userId == s.users[email].id && s.rows[i].revokedAt.None? && exempt != Some(s.rows[i].chain) then
          s.rows[i].(revokedAt := Some(s.now))
        else
          s.rows[i])
    else
      s
  }

  function RevokeAll(s: State, email: Email, exempt: Option<Uuid>): State {
    RevokeRowsOf(BumpAccount(s, email), email, exempt)
  }

  ghost function RevokeChain(s: State, email: Email, chain: Uuid): State {
    RevokeChainRow(BumpChain(s, email, chain), chain)
  }

  // ----- service calls -----

  datatype Step =
    | Login(email: Email, secret: string)
    | GoogleLogin(email: Email)
    | RefreshTokens(presented: Token)
    | Logout(presented: Token)
    | LogoutAll(presented: Token)
    | RevokeSession(presented: Token, own: Option<Token>, rowId: nat)
    | ChangePassword(presented: Token, given: Option<string>, wanted: string)
    | AdminSetPassword(email: Email, wanted: string)
    | ResetPassword(email: Email, wanted: string)
    | Signup(email: Email, secret: string)
    | VerifyAccount(email: Email)
    | SoftDelete(caller: Email, email: Email)
    | Purge(caller: Email, email: Email)
    | Reactivate(email: Email)
    | Tick(seconds: nat)

  function OpenSession(s: State, email: Email): (State, Reply)
    requires email in s.users
  {
    var drawn := s.(nextUuid := s.nextUuid + 1);
    var reply := PairReply(drawn, email, s.nextUuid);
    (CreateRow(MintPair(drawn, email, s.nextUuid), s.users[email].id, reply.refresh), reply)
  }

  function DoLogin(s: State, email: Email, secret: string): (State, Reply) {
    if email == "" || secret == "" || email !in s.users then (s, Refused)
    else
      var user := s.users[email];
      if !user.verified || !user.active || user.password != Some(secret) then (s, Refused)
      else OpenSession(s, email)
  }

  function AddUser(s: State, email: Email, user: User): State {
    s.(users := s.users[email := user], nextUser := s.nextUser + 1)
  }

  /** An address Google vouches for: an account not verified so far loses its password as it becomes so. */
  function Vouched(s: State, email: Email): State
    requires email in s.users
  {
    if s.users[email].verified then s
    else s.(users := s.users[email := s.users[email].(verified := true, password := None)])
  }

  function DoGoogleLogin(s: State, email: Email): (State, Reply) {
    if email == "" then (s, Refused)
    else if email !in s.users then
      OpenSession(AddUser(s, email, User(s.nextUser, false, true, true, false, None)), email)
    else if s.users[email].system then (s, Refused)
    else
      var user := s.users[email];
      var known := Vouched(s, email);
      if user.active then OpenSession(known, email) else (known, Refused)
  }

  function ClaimTtl(s: State, t: Token): nat { if t.exp <= s.now + 1 then 1 else t.exp - s.now }

  function Claiming(s: State, t: Token): State {
    s.(redis := SetEx(s.redis, s.now, Revoked(t.jti), ClaimTtl(s, t)))
  }

  ghost function DoRefresh(s: State, t: Token): (State, Reply) {
    if !Decodes(s, t) || t.kind != Refresh || !CurrentVersion(s, t) then (s, Refused)
    else if Claimed(s, t.jti) then (RevokeChain(s, t.email, t.chain), Refused)
    else
      var claimed := Claiming(s, t);
      var reply := PairReply(claimed, t.email, t.chain);
      (RotateRow(MintPair(claimed, t.email, t.chain), t.jti, reply.refresh), reply)
  }

  ghost function DoLogout(s: State, t: Token): (State, Reply) {
    if !Decodes(s, t) || t.kind != Refresh then (s, Done)
    else
      match FindByJti(s.rows, t.jti)
      case None => (s, Done)
      case Some(i) =>
        if s.rows[i].revokedAt.Some? then (s, Done)
        else (RevokeRow(BumpChain(s, t.email, s.rows[i].chain), i), Done)
  }

  function DoLogoutAll(s: State, t: Token): (State, Reply) {
    if !Decodes(s, t) || t.kind != Refresh then (s, Done) else (RevokeAll(s, t.email, None), Done)
  }

  /** `get_current_user`: a verified access token of an account that exists and is active. */
  predicate SignedIn(s: State, t: Token) {
    Verifies(s, t, Access) && t.email in s.users && s.users[t.email].active
  }

  function DoRevokeSession(s: State, t: Token, own: Option<Token>, rowId: nat): (State, Reply) {
    if !SignedIn(s, t) then (s, Refused)
    else if rowId !in s.rows || s.rows[rowId].userId != s.users[t.email].id || s.rows[rowId].revokedAt.Some? then
      (s, Refused)
    else if own.Some? && Decodes(s, own.value) && own.value.kind == Refresh
      && own.value.chain == s.rows[rowId].chain then
      (s, Refused)
    else
      (BumpChain(RevokeRow(s, rowId), t.email, s.rows[rowId].chain), Done)
  }

  /** Length and character classes, over ASCII letters and digits. */
  predicate Strong(secret: string) {
    && |secret| >= 8
    && (exists i :: 0 <= i < |secret| && 'A' <= secret[i] <= 'Z')
    && (exists i :: 0 <= i < |secret| && 'a' <= secret[i] <= 'z')
    && (exists i :: 0 <= i < |secret| && '0' <= secret[i] <= '9')
  }

  function StorePassword(s: State, email: Email, secret: string): State
    requires email in s.users
  {
    s.(users := s.users[email := s.users[email].(password := Some(secret))])
  }

  ghost function DoChangePassword(s: State, t: Token, given: Option<string>, wanted: string): (State, Reply) {
    if !SignedIn(s, t) then (s, Refused)
    else
      var stored := s.users[t.email].password;
      if stored.Some? && (given.None? || given.value == "" || given != stored || wanted == stored.value) then
        (s, Refused)
      else if !Strong(wanted) then (s, Refused)
      else
        var swept := RevokeAll(StorePassword(s, t.email, wanted), t.email, Some(t.chain));
        var reply := PairReply(swept, t.email, t.chain);
        (RotateRowOfChain(MintPair(swept, t.email, t.chain), reply.refresh), reply)
  }

  /** The two routes that set somebody's password and sign every device out: an administrator's edit, which
  spares the system account, and a redeemed reset link, which does not. */
  function DoSetPassword(s: State, email: Email, wanted: string, spareSystem: bool): (State, Reply) {
    if email !in s.users || (spareSystem && s.users[email].system) then (s, Refused)
    else if s.users[email].password == Some(wanted) || !Strong(wanted) then (s, Refused)
    else (RevokeAll(StorePassword(s, email, wanted), email, None), Done)
  }

  function DoSignup(s: State, email: Email, secret: string): (State, Reply) {
    if email in s.users then (s, Refused)
    else (AddUser(s, email, User(s.nextUser, false, false, true, false, Some(secret))), Done)
  }

  function DoVerifyAccount(s: State, email: Email): (State, Reply) {
    if email !in s.users || s.users[email].verified then (s, Refused)
    else (s.(users := s.users[email := s.users[email].(verified := true)]), Done)
  }

  function DoSoftDelete(s: State, caller: Email, email: Email): (State, Reply) {
    if email !in s.users || s.users[email].system || email == caller then (s, Refused)
    else
      var gone := s.(users := s.users[email := s.users[email].(active := false, deleted := true)]);
      (RevokeAll(gone, email, None), Done)
  }

  /** Deleting the user row cascades to its session rows. */
  function RemoveUser(s: State, email: Email): State
    requires email in s.users
  {
    s.(users := s.users - {email},
       rows := map i | i in s.rows && s.rows[i].userId != s.users[email].id :: s.rows[i])
  }

  function DoPurge(s: State, caller: Email, email: Email): (State, Reply) {
    if email !in s.users || s.users[email].system || email == caller then (s, Refused)
    else (RemoveUser(RevokeAll(s, email, None), email), Done)
  }

  function DoReactivate(s: State, email: Email): (State, Reply) {
    if email !in s.users || !s.users[email].deleted then (s, Refused)
    else (s.(users := s.users[email := s.users[email].(active := true, deleted := false)]), Done)
  }

  ghost function Do(s: State, step: Step): (State, Reply) {
    match step
    case Login(email, secret) => DoLogin(s, email, secret)
    case GoogleLogin(email) => DoGoogleLogin(s, email)
    case RefreshTokens(t) => DoRefresh(s, t)
    case Logout(t) => DoLogout(s, t)
    case LogoutAll(t) => DoLogoutAll(s, t)
    case RevokeSession(t, own, rowId) => DoRevokeSession(s, t, own, rowId)
    case ChangePassword(t, given, wanted) => DoChangePassword(s, t, given, wanted)
    case AdminSetPassword(email, wanted) => DoSetPassword(s, email, wanted, true)
    case ResetPassword(email, wanted) => DoSetPassword(s, email, wanted, false)
    case Signup(email, secret) => DoSignup(s, email, secret)
    case VerifyAccount(email) => DoVerifyAccount(s, email)
    case SoftDelete(caller, email) => DoSoftDelete(s, caller, email)
    case Purge(caller, email) => DoPurge(s, caller, email)
    case Reactivate(email) => DoReactivate(s, email)
    case Tick(seconds) => (s.(now := s.now + seconds), Done)
  }

  // The four kinds of calls, for proofs that go through them one by one.

  predicate Mints(step: Step) { step.Login? || step.GoogleLogin? || step.RefreshTokens? || step.ChangePassword? }

  predicate EndsSessions(step: Step) { step.Logout? || step.LogoutAll? || step.RevokeSession? }

  predicate SweepsAccount(step: Step) {
    step.AdminSetPassword? || step.ResetPassword? || step.SoftDelete? || step.Purge?
  }

  predicate EditsAccount(step: Step) { step.Signup? || step.VerifyAccount? || step.Reactivate? || step.Tick? }

  ghost function Next(s: State, step: Step): State { Do(s, step).0 }

  ghost function Run(s: State, steps: seq<Step>): State
    decreases |steps|
  {
    if steps == [] then s else Run(Next(s, steps[0]), steps[1..])
  }

  /** A server that has issued nothing yet: any accounts, any clock. */
  predicate Initial(s: State) {
    && s.redis == map[] && s.issued == {} && s.rows == map[]
    && (forall e :: e in s.users ==> s.users[e].id < s.nextUser)
    && (forall e, f :: e in s.users && f in s.users && s.users[e].id == s.users[f].id ==> e == f)
  }
}
