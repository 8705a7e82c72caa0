/** The session services as the code runs them: one object holding Redis, the tables and the clock, with a
method per service call. Each method is proved to take exactly the step SessionModel describes, so every
promise of SessionGuarantees is about these methods. */
module SessionServer {
  import opened Wrappers
  import opened Redis
  import opened SessionModel

  /** The unique index on `user_sessions.current_jti`, and uuid4 not repeating. */
  ghost predicate JtisUnique(rows: map<nat, Row>, nextUuid: Uuid) {
    && (forall i :: i in rows ==> rows[i].jti < nextUuid)
    && (forall i, j :: i in rows && j in rows && rows[i].jti == rows[j].jti ==> i == j)
  }

  ghost predicate NewJti(rows: map<nat, Row>, nextUuid: Uuid, jti: Uuid) {
    jti < nextUuid && forall i :: i in rows ==> rows[i].jti != jti
  }

  class Server {
    const cfg: Config
    var now: nat
    var redis: map<Key, Entry>
    var issued: set<Token>
    var rows: map<nat, Row>
    var users: map<Email, User>
    var nextUuid: Uuid
    var nextRow: nat
    var nextUser: nat

    ghost function Now(): State
      reads this
    {
      State(cfg, now, redis, issued, rows, users, nextUuid, nextRow, nextUser)
    }

    ghost predicate UniqueJtis()
      reads this
    {
      JtisUnique(rows, nextUuid)
    }

    constructor (cfg: Config, users: map<Email, User>, nextUser: nat, start: nat)
      ensures Now() == State(cfg, start, map[], {}, map[], users, 0, 0, nextUser) && UniqueJtis()
    {
      this.cfg := cfg;
      now, redis, issued, rows := start, map[], {}, map[];
      this.users := users;
      nextUuid, nextRow := 0, 0;
      this.nextUser := nextUser;
    }

    // ----- jwt_service -----

    method GetAccountVersion(email: Email) returns (version: nat)
      ensures version == AccountVersion(Now(), email)
    {
      version := Count(redis, now, AccountVer(email));
    }

    method GetChainVersion(email: Email, chain: Uuid) returns (version: nat)
      ensures version == ChainVersion(Now(), email, chain)
    {
      version := Count(redis, now, ChainVer(email, chain));
    }

    method CreateToken(kind: Kind, email: Email, chain: Uuid) returns (t: Token)
      modifies this`issued, this`nextUuid
      ensures t == Fresh(old(Now()), kind, email, chain) && Now() == Mint(old(Now()), kind, email, chain)
    {
      var minutes := if kind == Access then cfg.accessMinutes else cfg.refreshMinutes;
      var jti := nextUuid;
      nextUuid := nextUuid + 1;
      var accountVer := GetAccountVersion(email);
      var chainVer := GetChainVersion(email, chain);
      t := Token(kind, email, jti, chain, accountVer, chainVer, now + 60 * minutes);
      issued := issued + {t};
    }

    method CreatePair(email: Email, chain: Uuid) returns (reply: Reply)
      modifies this`issued, this`nextUuid
      ensures Now() == MintPair(old(Now()), email, chain) && reply == PairReply(old(Now()), email, chain)
      ensures old(UniqueJtis()) ==> UniqueJtis() && NewJti(rows, nextUuid, reply.refresh.jti)
    {
      var access := CreateToken(Access, email, chain);
      var refresh := CreateToken(Refresh, email, chain);
      reply := Granted(access, refresh);
    }

    method DecodePayload(t: Token) returns (ok: bool)
      ensures ok == Decodes(Now(), t)
    {
      ok := t in issued && now < t.exp;
    }

    method IsCurrentVersion(t: Token) returns (ok: bool)
      ensures ok == CurrentVersion(Now(), t)
    {
      var accountVer := GetAccountVersion(t.email);
      if t.accountVer != accountVer { return false; }
      var chainVer := GetChainVersion(t.email, t.chain);
      ok := t.chainVer == chainVer;
    }

    method VerifyToken(t: Token, expected: Kind) returns (ok: bool)
      ensures ok == Verifies(Now(), t, expected)
    {
      ok := DecodePayload(t);
      if !ok || Live(redis, now, Revoked(t.jti)) { return false; }
      ok := IsCurrentVersion(t);
      ok := ok && t.kind == expected;
    }

    /** SET NX EX: only the first caller gets true. */
    method ClaimJtiForRotation(t: Token) returns (claimed: bool)
      modifies this`redis
      ensures claimed == !Claimed(old(Now()), t.jti)
      ensures Now() == if !claimed then old(Now())
        else old(Now()).(redis := SetEx(old(redis), now, Revoked(t.jti), ClaimTtl(old(Now()), t)))
    {
      var ttl := if t.exp - now > 1 then t.exp - now else 1;
      claimed := !Live(redis, now, Revoked(t.jti));
      if claimed {
        redis := SetEx(redis, now, Revoked(t.jti), ttl);
      }
    }

    method BumpAccountVersion(email: Email)
      modifies this`redis
      ensures Now() == BumpAccount(old(Now()), email)
    {
      redis := Incr(redis, now, AccountVer(email));
    }

    method BumpChainVersion(email: Email, chain: Uuid)
      modifies this`redis
      ensures Now() == BumpChain(old(Now()), email, chain)
    {
      var key := ChainVer(email, chain);
      redis := Incr(redis, now, key);
      redis := Expire(redis, now, key, cfg.refreshMinutes * 60);
    }

    // ----- session_repository and session_service -----

    method GetByJti(jti: Uuid) returns (found: Option<nat>)
      requires UniqueJtis()
      ensures found == FindByJti(rows, jti)
    {
      found := None;
      if i :| i in rows.Keys && rows[i].jti == jti {
        found := Some(i);
      }
    }

    /** `scalar_one_or_none` on the unrevoked rows of a chain. */
    method GetOpenByChain(chain: Uuid) returns (found: Lookup)
      ensures found == FindOpen(rows, chain)
    {
      found := Missing;
      if i :| i in rows.Keys && OpenOn(rows, chain, i) {
        found := Found(i);
        if j :| j in rows.Keys && OpenOn(rows, chain, j) && j != i {
          found := Several;
        }
      }
    }

    method Create(userId: nat, t: Token)
      modifies this`rows, this`nextRow
      ensures Now() == CreateRow(old(Now()), userId, t)
      ensures old(UniqueJtis()) && old(NewJti(rows, nextUuid, t.jti)) ==> UniqueJtis()
    {
      rows := rows[nextRow := Row(userId, t.jti, t.chain, t.exp, None)];
      nextRow := nextRow + 1;
    }

    method Move(i: nat, t: Token)
      requires i in rows
      modifies this`rows
      ensures Now() == MoveRow(old(Now()), i, t)
      ensures old(UniqueJtis()) && old(NewJti(rows, nextUuid, t.jti)) ==> UniqueJtis()
    {
      rows := rows[i := rows[i].(jti := t.jti, expires := t.exp)];
    }

    method Revoke(i: nat)
      requires i in rows
      modifies this`rows
      ensures Now() == RevokeRow(old(Now()), i)
      ensures old(UniqueJtis()) ==> UniqueJtis()
    {
      rows := rows[i := rows[i].(revokedAt := Some(now))];
    }

    method RotateSession(oldJti: Uuid, t: Token)
      requires UniqueJtis()
      modifies this`rows, this`nextRow
      ensures Now() == RotateRow(old(Now()), oldJti, t)
      ensures old(NewJti(rows, nextUuid, t.jti)) ==> UniqueJtis()
    {
      var found := GetByJti(oldJti);
      if found.Some? {
        Move(found.value, t);
      } else if t.email in users {
        Create(users[t.email].id, t);
      }
    }

    method RotateSessionByChain(t: Token)
      modifies this`rows, this`nextRow
      ensures Now() == RotateRowOfChain(old(Now()), t)
      ensures old(UniqueJtis()) && old(NewJti(rows, nextUuid, t.jti)) ==> UniqueJtis()
    {
      var found := GetOpenByChain(t.chain);
      if found.Found? {
        Move(found.id, t);
      } else if found.Missing? && t.email in users {
        Create(users[t.email].id, t);
      }
    }

    method RevokeAllSessions(email: Email, exempt: Option<Uuid>)
      modifies this`rows
      ensures Now() == RevokeRowsOf(old(Now()), email, exempt)
      ensures old(UniqueJtis()) ==> UniqueJtis()
    {
      if email in users {
        var userId := users[email].id;
        rows := map i | i in rows ::
          if rows[i].userId == userId && rows[i].revokedAt.None? && exempt != Some(rows[i].chain)
          then rows[i].(revokedAt := Some(now)) else rows[i];
      }
    }

    // ----- refresh_token_service -----

    method RevokeAllTokensForUser(email: Email, exempt: Option<Uuid>)
      modifies this`redis, this`rows
      ensures Now() == RevokeAll(old(Now()), email, exempt)
      ensures old(UniqueJtis()) ==> UniqueJtis()
    {
      BumpAccountVersion(email);
      RevokeAllSessions(email, exempt);
    }

    method RevokeChainForUser(email: Email, chain: Uuid)
      modifies this`redis, this`rows
      ensures Now() == RevokeChain(old(Now()), email, chain)
      ensures old(UniqueJtis()) ==> UniqueJtis()
    {
      BumpChainVersion(email, chain);
      var found := GetOpenByChain(chain);
      if found.Found? {
        Revoke(found.id);
      }
    }

    method RefreshTokens(presented: Token) returns (reply: Reply)
      requires UniqueJtis()
      modifies this
      ensures (Now(), reply) == Do(old(Now()), Step.RefreshTokens(presented))
      ensures UniqueJtis()
    {
      var decoded := DecodePayload(presented);
      if !decoded || presented.kind != Refresh { return Refused; }
      var current := IsCurrentVersion(presented);
      if !current { return Refused; }
      var claimed := ClaimJtiForRotation(presented);
      if !claimed {
        RevokeChainForUser(presented.email, presented.chain);
        return Refused;
      }
      reply := CreatePair(presented.email, presented.chain);
      RotateSession(presented.jti, reply.refresh);
    }

    // ----- login, logout, sign-out everywhere -----

    method StartSession(email: Email) returns (reply: Reply)
      requires UniqueJtis() && email in users
      modifies this`issued, this`nextUuid, this`rows, this`nextRow
      ensures (Now(), reply) == OpenSession(old(Now()), email)
      ensures UniqueJtis()
    {
      var chain := nextUuid;
      nextUuid := nextUuid + 1;
      reply := CreatePair(email, chain);
      Create(users[email].id, reply.refresh);
    }

    method Login(email: Email, secret: string) returns (reply: Reply)
      requires UniqueJtis()
      modifies this
      ensures (Now(), reply) == Do(old(Now()), Step.Login(email, secret))
      ensures UniqueJtis()
    {
      if email == "" || secret == "" || email !in users { return Refused; }
      var user := users[email];
      if !user.verified || !user.active || user.password != Some(secret) { return Refused; }
      reply := StartSession(email);
    }

    method GoogleLogin(email: Email) returns (reply: Reply)
      requires UniqueJtis()
      modifies this
      ensures (Now(), reply) == Do(old(Now()), Step.GoogleLogin(email))
      ensures UniqueJtis()
    {
      if email == "" || (email in users && users[email].system) { return Refused; }
      if email !in users {
        users := users[email := User(nextUser, false, true, true, false, None)];
        nextUser := nextUser + 1;
      } else if !users[email].verified {
        users := users[email := users[email].(verified := true, password := None)];
      }
      if !users[email].active { return Refused; }
      reply := StartSession(email);
    }

    method Logout(presented: Token) returns (reply: Reply)
      requires UniqueJtis()
      modifies this
      ensures (Now(), reply) == Do(old(Now()), Step.Logout(presented))
      ensures UniqueJtis()
    {
      reply := Done;
      var decoded := DecodePayload(presented);
      if !decoded || presented.kind != Refresh { return; }
      var found := GetByJti(presented.jti);
      if found.None? || rows[found.value].revokedAt.Some? { return; }
      BumpChainVersion(presented.email, rows[found.value].chain);
      Revoke(found.value);
    }

    method LogoutAll(presented: Token) returns (reply: Reply)
      requires UniqueJtis()
      modifies this
      ensures (Now(), reply) == Do(old(Now()), Step.LogoutAll(presented))
      ensures UniqueJtis()
    {
      reply := Done;
      var decoded := DecodePayload(presented);
      if decoded && presented.kind == Refresh {
        RevokeAllTokensForUser(presented.email, None);
      }
    }

    method IsSignedIn(presented: Token) returns (ok: bool)
      ensures ok == SignedIn(Now(), presented)
    {
      ok := VerifyToken(presented, Access);
      ok := ok && presented.email in users && users[presented.email].active;
    }

    method RevokeSession(presented: Token, own: Option<Token>, rowId: nat) returns (reply: Reply)
      requires UniqueJtis()
      modifies this
      ensures (Now(), reply) == Do(old(Now()), Step.RevokeSession(presented, own, rowId))
      ensures UniqueJtis()
    {
      var signedIn := IsSignedIn(presented);
      if !signedIn { return Refused; }
      if rowId !in rows || rows[rowId].userId != users[presented.email].id || rows[rowId].revokedAt.Some? {
        return Refused;
      }
      if own.Some? {
        var decoded := DecodePayload(own.value);
        if decoded && own.value.kind == Refresh && own.value.chain == rows[rowId].chain { return Refused; }
      }
      Revoke(rowId);
      BumpChainVersion(presented.email, rows[rowId].chain);
      reply := Done;
    }

    // ----- passwords and account lifecycle -----

    /** Sign every device out, then reissue the tokens of the chain that changed the password. */
    method KeepOnlyChain(email: Email, chain: Uuid) returns (reply: Reply)
      requires UniqueJtis()
      modifies this`redis, this`rows, this`issued, this`nextUuid, this`nextRow
      ensures var swept := RevokeAll(old(Now()), email, Some(chain));
        && reply == PairReply(swept, email, chain)
        && Now() == RotateRowOfChain(MintPair(swept, email, chain), reply.refresh)
      ensures UniqueJtis()
    {
      RevokeAllTokensForUser(email, Some(chain));
      reply := CreatePair(email, chain);
      RotateSessionByChain(reply.refresh);
    }

    method ChangePassword(presented: Token, given: Option<string>, wanted: string) returns (reply: Reply)
      requires UniqueJtis()
      modifies this
      ensures (Now(), reply) == Do(old(Now()), Step.ChangePassword(presented, given, wanted))
      ensures UniqueJtis()
    {
      var signedIn := IsSignedIn(presented);
      if !signedIn { return Refused; }
      var email, chain := presented.email, presented.chain;
      var stored := users[email].password;
      if stored.Some? {
        if given.None? || given.value == "" || given != stored { return Refused; }
        if wanted == stored.value { return Refused; }
      }
      if !Strong(wanted) { return Refused; }
      users := users[email := users[email].(password := Some(wanted))];
      reply := KeepOnlyChain(email, chain);
    }

    method SetPassword(email: Email, wanted: string, spareSystem: bool) returns (reply: Reply)
      requires UniqueJtis()
      modifies this
      ensures (Now(), reply) == DoSetPassword(old(Now()), email, wanted, spareSystem)
      ensures UniqueJtis()
    {
      if email !in users || (spareSystem && users[email].system) { return Refused; }
      if users[email].password == Some(wanted) || !Strong(wanted) { return Refused; }
      users := users[email := users[email].(password := Some(wanted))];
      RevokeAllTokensForUser(email, None);
      reply := Done;
    }

    method SoftDelete(caller: Email, email: Email) returns (reply: Reply)
      requires UniqueJtis()
      modifies this
      ensures (Now(), reply) == Do(old(Now()), Step.SoftDelete(caller, email))
      ensures UniqueJtis()
    {
      if email !in users || users[email].system || email == caller { return Refused; }
      users := users[email := users[email].(active := false, deleted := true)];
      RevokeAllTokensForUser(email, None);
      reply := Done;
    }

    method Purge(caller: Email, email: Email) returns (reply: Reply)
      requires UniqueJtis()
      modifies this
      ensures (Now(), reply) == Do(old(Now()), Step.Purge(caller, email))
      ensures UniqueJtis()
    {
      if email !in users || users[email].system || email == caller { return Refused; }
      RevokeAllTokensForUser(email, None);
      var userId := users[email].id;
      rows := map i | i in rows && rows[i].userId != userId :: rows[i];
      users := users - {email};
      reply := Done;
    }

    method Reactivate(email: Email) returns (reply: Reply)
      requires UniqueJtis()
      modifies this
      ensures (Now(), reply) == Do(old(Now()), Step.Reactivate(email))
      ensures UniqueJtis()
    {
      if email !in users || !users[email].deleted { return Refused; }
      users := users[email := users[email].(active := true, deleted := false)];
      reply := Done;
    }

    method Signup(email: Email, secret: string) returns (reply: Reply)
      requires UniqueJtis()
      modifies this
      ensures (Now(), reply) == Do(old(Now()), Step.Signup(email, secret))
      ensures UniqueJtis()
    {
      if email in users { return Refused; }
      users := users[email := User(nextUser, false, false, true, false, Some(secret))];
      nextUser := nextUser + 1;
      reply := Done;
    }

    method VerifyAccount(email: Email) returns (reply: Reply)
      requires UniqueJtis()
      modifies this
      ensures (Now(), reply) == Do(old(Now()), Step.VerifyAccount(email))
      ensures UniqueJtis()
    {
      if email !in users || users[email].verified { return Refused; }
      users := users[email := users[email].(verified := true)];
      reply := Done;
    }
  }
}
