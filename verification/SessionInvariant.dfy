/** What every reachable state of the session protocol satisfies, and why each service call keeps it.

The invariant needs the access lifetime not to exceed the refresh lifetime, because a bumped chain key only
lives for the refresh lifetime. SessionGuarantees shows that this is necessary as well. */
module SessionInvariant {
  import opened Wrappers
  import opened Redis
  import opened SessionModel

  /** An issued token that no revocation has hit: its account version is the newest and its chain was
  never bumped. Unlike `Current` this does not depend on any deadline, so it can only ever be lost. */
  ghost predicate Standing(s: State, t: Token) {
    && t in s.issued
    && t.accountVer == AccountVersion(s, t.email)
    && ChainVer(t.email, t.chain) !in s.redis
  }

  // ----- the token half: claims, counters, markers -----

  ghost predicate KeyShapes(s: State) {
    forall k :: k in s.redis ==>
      (k.AccountVer? <==> s.redis[k].deadline.None?) && (k.ChainVer? ==> s.redis[k].value >= 1)
  }

  ghost predicate ClaimsInRange(s: State) {
    forall t :: t in s.issued ==>
      && t.chainVer == 0 && t.jti < s.nextUuid && t.chain < s.nextUuid
      && t.accountVer <= AccountVersion(s, t.email)
      && t.exp <= s.now + s.cfg.refreshMinutes * 60
  }

  /** A bumped chain key outlives every token of the chain, a redemption marker outlives its token. */
  ghost predicate KeysOutliveTokens(s: State) {
    forall t :: t in s.issued ==>
      && (ChainVer(t.email, t.chain) in s.redis ==>
            var d := s.redis[ChainVer(t.email, t.chain)].deadline; d.Some? && t.exp <= d.value)
      && (Revoked(t.jti) in s.redis ==>
            var d := s.redis[Revoked(t.jti)].deadline; d.Some? && t.exp <= d.value)
  }

  ghost predicate Distinct(s: State) {
    forall t, u :: t in s.issued && u in s.issued ==>
      (t.jti == u.jti ==> t == u) && (t.chain == u.chain ==> t.email == u.email)
  }

  ghost predicate TokenInv(s: State) {
    && s.cfg.accessMinutes <= s.cfg.refreshMinutes
    && KeyShapes(s) && ClaimsInRange(s) && KeysOutliveTokens(s) && Distinct(s)
    && forall k :: k in s.redis ==> (k.Revoked? ==> k.jti < s.nextUuid) && (k.ChainVer? ==> k.chain < s.nextUuid)
  }

  // ----- the mirror half: session rows and accounts -----

  ghost predicate RowsInRange(s: State) {
    && (forall i :: i in s.rows ==>
          && i < s.nextRow && s.rows[i].jti < s.nextUuid && s.rows[i].chain < s.nextUuid
          && s.rows[i].userId < s.nextUser)
    && (forall e :: e in s.users ==> s.users[e].id < s.nextUser)
    && (forall e, f :: e in s.users && f in s.users && s.users[e].id == s.users[f].id ==> e == f)
  }

  ghost predicate OneRowPerChain(s: State) {
    forall i, j :: i in s.rows && j in s.rows && (s.rows[i].chain == s.rows[j].chain || s.rows[i].jti == s.rows[j].jti)
      ==> i == j
  }

  ghost predicate RowsMatchTokens(s: State) {
    forall i, t :: i in s.rows && t in s.issued ==>
      && (t.chain == s.rows[i].chain ==> t.email in s.users && s.users[t.email].id == s.rows[i].userId)
      && (t.jti == s.rows[i].jti ==> t.chain == s.rows[i].chain)
  }

  /** Row i is the live row of t's chain, and carries t itself when t is the refresh token still to redeem. */
  ghost predicate Mirrors(s: State, t: Token, i: nat) {
    && OpenOn(s.rows, t.chain, i)
    && (t.kind == Refresh && Revoked(t.jti) !in s.redis ==> s.rows[i].jti == t.jti && s.rows[i].expires == t.exp)
  }

  ghost predicate HasMirror(s: State, t: Token) { exists i :: i in s.rows && Mirrors(s, t, i) }

  ghost predicate Backed(s: State, t: Token) {
    t.email in s.users && s.users[t.email].active && HasMirror(s, t)
  }

  ghost predicate StandingIsBacked(s: State) { forall t :: Standing(s, t) ==> Backed(s, t) }

  ghost predicate RowInv(s: State) {
    RowsInRange(s) && OneRowPerChain(s) && RowsMatchTokens(s) && StandingIsBacked(s)
  }

  ghost predicate Inv(s: State) { TokenInv(s) && RowInv(s) }

  lemma InitialHolds(s: State)
    requires Initial(s) && s.cfg.accessMinutes <= s.cfg.refreshMinutes
    ensures Inv(s)
  {
  }

  /** The reason the deadlines are long enough: a token that still verifies has never been revoked. */
  lemma CurrentIsStanding(s: State, t: Token)
    requires TokenInv(s) && Current(s, t)
    ensures Standing(s, t)
  {
  }

  // ----- TokenInv, primitive by primitive -----

  lemma MintKeepsTokens(s: State, kind: Kind, email: Email, chain: Uuid)
    requires TokenInv(s) && chain < s.nextUuid && ChainVer(email, chain) !in s.redis
    requires forall t :: t in s.issued && t.chain == chain ==> t.email == email
    ensures TokenInv(Mint(s, kind, email, chain))
  {
    var s' := Mint(s, kind, email, chain);
    forall t | t in s'.issued ensures t in s.issued || t == Fresh(s, kind, email, chain) {}
  }

  lemma MintPairKeepsTokens(s: State, email: Email, chain: Uuid)
    requires TokenInv(s) && chain < s.nextUuid && ChainVer(email, chain) !in s.redis
    requires forall t :: t in s.issued && t.chain == chain ==> t.email == email
    ensures TokenInv(MintPair(s, email, chain))
  {
    MintKeepsTokens(s, Access, email, chain);
    MintKeepsTokens(Mint(s, Access, email, chain), Refresh, email, chain);
  }

  lemma BumpAccountKeepsTokens(s: State, email: Email)
    requires TokenInv(s)
    ensures TokenInv(BumpAccount(s, email))
    ensures forall e :: AccountVersion(BumpAccount(s, email), e) == AccountVersion(s, e) + if e == email then 1 else 0
  {
  }

  lemma BumpChainKeepsTokens(s: State, email: Email, chain: Uuid)
    requires TokenInv(s) && chain < s.nextUuid
    ensures TokenInv(BumpChain(s, email, chain))
    ensures forall e :: AccountVersion(BumpChain(s, email, chain), e) == AccountVersion(s, e)
    ensures forall k :: k in BumpChain(s, email, chain).redis <==> k in s.redis || k == ChainVer(email, chain)
  {
  }

  lemma ClaimKeepsTokens(s: State, t: Token)
    requires TokenInv(s) && Decodes(s, t)
    ensures TokenInv(Claiming(s, t))
  {
  }

  lemma TickKeepsTokens(s: State, seconds: nat)
    requires TokenInv(s)
    ensures TokenInv(s.(now := s.now + seconds))
    ensures forall e :: AccountVersion(s.(now := s.now + seconds), e) == AccountVersion(s, e)
  {
  }

  // ----- RowInv, effect by effect -----

  /** No token of the account still stands. */
  ghost predicate Silenced(s: State, email: Email) {
    forall t :: t in s.issued && t.email == email ==> !Standing(s, t)
  }

  lemma BumpChainKeeps(s: State, email: Email, chain: Uuid)
    requires Inv(s) && chain < s.nextUuid
    ensures Inv(BumpChain(s, email, chain))
  {
    var s' := BumpChain(s, email, chain);
    BumpChainKeepsTokens(s, email, chain);
    forall t | Standing(s', t) ensures Backed(s', t) {
      assert Standing(s, t) && HasMirror(s, t);
      var i :| i in s.rows && Mirrors(s, t, i);
      assert Mirrors(s', t, i);
    }
  }

  lemma BumpAccountKeeps(s: State, email: Email)
    requires Inv(s)
    ensures Inv(BumpAccount(s, email)) && Silenced(BumpAccount(s, email), email)
  {
    var s' := BumpAccount(s, email);
    BumpAccountKeepsTokens(s, email);
    forall t | Standing(s', t) ensures Backed(s', t) {
      assert Standing(s, t) && HasMirror(s, t);
      var i :| i in s.rows && Mirrors(s, t, i);
      assert Mirrors(s', t, i);
    }
  }

  lemma ClaimKeeps(s: State, t: Token)
    requires Inv(s) && Decodes(s, t)
    ensures Inv(Claiming(s, t))
  {
    var s' := Claiming(s, t);
    ClaimKeepsTokens(s, t);
    forall u | Standing(s', u) ensures Backed(s', u) {
      assert Standing(s, u) && HasMirror(s, u);
      var i :| i in s.rows && Mirrors(s, u, i);
      assert Mirrors(s', u, i);
    }
  }

  /** Revoking rows is safe once nothing stands on their chains. */
  /** Whatever happens to rows and accounts, the token half only looks at Redis and the issued tokens. */
  lemma SameTokens(s: State, s': State)
    requires TokenInv(s) && s' == s.(rows := s'.rows, users := s'.users, nextRow := s'.nextRow, nextUser := s'.nextUser)
    ensures TokenInv(s') && forall t :: Standing(s', t) <==> Standing(s, t)
  {
  }

  lemma RevokeRowKeepsBacking(s: State, i: nat)
    requires Inv(s) && i in s.rows
    requires forall t :: t in s.issued && t.chain == s.rows[i].chain ==> !Standing(s, t)
    ensures StandingIsBacked(RevokeRow(s, i))
  {
    var s' := RevokeRow(s, i);
    SameTokens(s, s');
    forall t | Standing(s', t) ensures Backed(s', t) {
      assert Standing(s, t) && HasMirror(s, t);
      var j :| j in s.rows && Mirrors(s, t, j);
      assert Mirrors(s', t, j);
    }
  }

  lemma RevokeRowKeeps(s: State, i: nat)
    requires Inv(s) && i in s.rows
    requires forall t :: t in s.issued && t.chain == s.rows[i].chain ==> !Standing(s, t)
    ensures Inv(RevokeRow(s, i))
  {
    SameTokens(s, RevokeRow(s, i));
    RevokeRowKeepsBacking(s, i);
  }

  lemma RevokeRowsOfKeepsBacking(s: State, email: Email, exempt: Option<Uuid>)
    requires Inv(s) && Silenced(s, email)
    ensures StandingIsBacked(RevokeRowsOf(s, email, exempt))
  {
    var s' := RevokeRowsOf(s, email, exempt);
    SameTokens(s, s');
    forall t | Standing(s', t) ensures Backed(s', t) {
      assert Standing(s, t) && HasMirror(s, t) && t.email != email;
      var i :| i in s.rows && Mirrors(s, t, i);
      assert s'.rows[i] == s.rows[i];
      assert Mirrors(s', t, i);
    }
  }

  lemma RevokeRowsOfKeepsRows(s: State, email: Email, exempt: Option<Uuid>)
    requires Inv(s)
    ensures var s' := RevokeRowsOf(s, email, exempt); RowsInRange(s') && OneRowPerChain(s') && RowsMatchTokens(s')
  {
    var s' := RevokeRowsOf(s, email, exempt);
    assert s'.rows.Keys == s.rows.Keys && s'.users == s.users && s'.issued == s.issued;
    assert forall i :: i in s.rows ==> s'.rows[i] == s.rows[i].(revokedAt := s'.rows[i].revokedAt);
  }

  lemma RevokeRowsOfKeeps(s: State, email: Email, exempt: Option<Uuid>)
    requires Inv(s) && Silenced(s, email)
    ensures Inv(RevokeRowsOf(s, email, exempt)) && Silenced(RevokeRowsOf(s, email, exempt), email)
  {
    SameTokens(s, RevokeRowsOf(s, email, exempt));
    RevokeRowsOfKeepsRows(s, email, exempt);
    RevokeRowsOfKeepsBacking(s, email, exempt);
  }

  lemma RevokeAllKeeps(s: State, email: Email, exempt: Option<Uuid>)
    requires Inv(s)
    ensures Inv(RevokeAll(s, email, exempt)) && Silenced(RevokeAll(s, email, exempt), email)
  {
    BumpAccountKeeps(s, email);
    RevokeRowsOfKeeps(BumpAccount(s, email), email, exempt);
  }

  lemma EditUserKeepsBacking(s: State, email: Email, user: User)
    requires Inv(s) && email in s.users
    requires s.users[email].active ==> user.active || Silenced(s, email)
    ensures StandingIsBacked(s.(users := s.users[email := user]))
  {
    var s' := s.(users := s.users[email := user]);
    SameTokens(s, s');
    forall t | Standing(s', t) ensures Backed(s', t) {
      assert Standing(s, t) && HasMirror(s, t);
      var i :| i in s.rows && Mirrors(s, t, i);
      assert Mirrors(s', t, i);
    }
  }

  lemma EditUserKeepsRows(s: State, email: Email, user: User)
    requires Inv(s) && email in s.users && user.id == s.users[email].id
    ensures var s' := s.(users := s.users[email := user]);
      RowsInRange(s') && OneRowPerChain(s') && RowsMatchTokens(s')
  {
    var s' := s.(users := s.users[email := user]);
    assert forall e :: e in s.users <==> e in s'.users;
    assert forall e :: e in s.users ==> s'.users[e].id == s.users[e].id;
  }

  /** Editing an account keeps its id; deactivating one needs its tokens silenced first. */
  lemma EditUserKeeps(s: State, email: Email, user: User)
    requires Inv(s) && email in s.users && user.id == s.users[email].id
    requires s.users[email].active ==> user.active || Silenced(s, email)
    ensures Inv(s.(users := s.users[email := user]))
  {
    SameTokens(s, s.(users := s.users[email := user]));
    EditUserKeepsRows(s, email, user);
    EditUserKeepsBacking(s, email, user);
  }

  lemma AddUserKeepsBacking(s: State, email: Email, user: User)
    requires Inv(s) && email !in s.users
    ensures StandingIsBacked(AddUser(s, email, user))
  {
    var s' := AddUser(s, email, user);
    SameTokens(s, s');
    forall t | Standing(s', t) ensures Backed(s', t) {
      assert Standing(s, t) && HasMirror(s, t);
      var i :| i in s.rows && Mirrors(s, t, i);
      assert Mirrors(s', t, i);
    }
  }

  lemma AddUserKeeps(s: State, email: Email, user: User)
    requires Inv(s) && email !in s.users && user.id == s.nextUser
    ensures Inv(AddUser(s, email, user))
  {
    SameTokens(s, AddUser(s, email, user));
    AddUserKeepsBacking(s, email, user);
  }

  lemma RemoveUserKeepsBacking(s: State, email: Email)
    requires Inv(s) && email in s.users && Silenced(s, email)
    ensures StandingIsBacked(RemoveUser(s, email))
  {
    var s' := RemoveUser(s, email);
    SameTokens(s, s');
    forall t | Standing(s', t) ensures Backed(s', t) {
      assert Standing(s, t) && HasMirror(s, t) && t.email != email;
      var i :| i in s.rows && Mirrors(s, t, i);
      assert i in s'.rows && Mirrors(s', t, i);
    }
  }

  lemma RemoveUserKeepsMatch(s: State, email: Email)
    requires Inv(s) && email in s.users && Silenced(s, email)
    ensures RowsMatchTokens(RemoveUser(s, email))
  {
    var s' := RemoveUser(s, email);
    forall i, t | i in s'.rows && t in s'.issued && t.chain == s'.rows[i].chain
      ensures t.email in s'.users && s'.users[t.email].id == s'.rows[i].userId
    {
      assert i in s.rows && s.users[t.email].id == s.rows[i].userId;
    }
  }

  lemma RemoveUserKeeps(s: State, email: Email)
    requires Inv(s) && email in s.users && Silenced(s, email)
    ensures Inv(RemoveUser(s, email))
  {
    SameTokens(s, RemoveUser(s, email));
    RemoveUserKeepsMatch(s, email);
    RemoveUserKeepsBacking(s, email);
  }

  lemma TickKeeps(s: State, seconds: nat)
    requires Inv(s)
    ensures Inv(s.(now := s.now + seconds))
  {
    var s' := s.(now := s.now + seconds);
    TickKeepsTokens(s, seconds);
    forall t | Standing(s', t) ensures Backed(s', t) {
      assert Standing(s, t) && HasMirror(s, t);
      var i :| i in s.rows && Mirrors(s, t, i);
      assert Mirrors(s', t, i);
    }
  }

  /** A chain that was never bumped, whose tokens all belong to one active account. */
  ghost predicate Mintable(s: State, email: Email, chain: Uuid) {
    && chain < s.nextUuid && ChainVer(email, chain) !in s.redis
    && email in s.users && s.users[email].active
    && forall t :: t in s.issued && t.chain == chain ==> t.email == email
  }

  /** Nothing is left to redeem on the chain. */
  ghost predicate Redeemed(s: State, chain: Uuid) {
    forall t :: Standing(s, t) && t.chain == chain && t.kind == Refresh ==> Revoked(t.jti) in s.redis
  }

  lemma PairIsIssued(s: State, email: Email, chain: Uuid)
    ensures
      var Granted(access, refresh) := PairReply(s, email, chain);
      && MintPair(s, email, chain).issued == s.issued + {access, refresh}
      && access.jti == s.nextUuid && refresh.jti == s.nextUuid + 1
      && access.email == refresh.email == email && access.chain == refresh.chain == chain
      && access.kind == Access && refresh.kind == Refresh
      && access.accountVer == refresh.accountVer == AccountVersion(s, email)
      && access.exp == s.now + s.cfg.accessMinutes * 60 && refresh.exp == s.now + s.cfg.refreshMinutes * 60
  {
  }

  /** `s'` is `s` with one more pair of tokens on a chain, and with its row i carrying the new refresh token. */
  ghost predicate Extends(s: State, s': State, access: Token, refresh: Token, i: nat) {
    && s'.issued == s.issued + {access, refresh} && s'.redis == s.redis && s'.now == s.now
    && s'.users == s.users && s'.nextUser == s.nextUser && s'.nextUuid > s.nextUuid && s'.nextRow >= s.nextRow
    && access.email == refresh.email && access.chain == refresh.chain && access.chain < s'.nextUuid
    && s.nextUuid <= access.jti < s'.nextUuid && s.nextUuid <= refresh.jti < s'.nextUuid
    && access.kind == Access && refresh.kind == Refresh && access.jti != refresh.jti
    && s'.rows.Keys == s.rows.Keys + {i} && i < s'.nextRow
    && (forall j :: j in s.rows && j != i ==> s'.rows[j] == s.rows[j])
    && s'.rows[i].chain == refresh.chain && s'.rows[i].jti == refresh.jti && s'.rows[i].expires == refresh.exp
    && s'.rows[i].revokedAt == None
    && refresh.email in s.users && s.users[refresh.email].active && s'.rows[i].userId == s.users[refresh.email].id
    && (forall j :: j in s.rows ==> (s.rows[j].chain == refresh.chain <==> j == i))
    && (forall t :: t in s.issued && t.chain == refresh.chain ==> t.email == refresh.email)
  }

  lemma ExtensionKeepsRange(s: State, s': State, access: Token, refresh: Token, i: nat)
    requires TokenInv(s) && RowInv(s) && Extends(s, s', access, refresh, i)
    ensures RowsInRange(s')
  {
    forall j | j in s'.rows
      ensures j < s'.nextRow && s'.rows[j].jti < s'.nextUuid && s'.rows[j].chain < s'.nextUuid
      ensures s'.rows[j].userId < s'.nextUser
    {
      if j != i { assert s'.rows[j] == s.rows[j]; }
    }
  }

  lemma ExtensionKeepsRowsApart(s: State, s': State, access: Token, refresh: Token, i: nat)
    requires TokenInv(s) && RowInv(s) && Extends(s, s', access, refresh, i)
    ensures OneRowPerChain(s')
  {
    forall j, k | j in s'.rows && k in s'.rows
        && (s'.rows[j].chain == s'.rows[k].chain || s'.rows[j].jti == s'.rows[k].jti)
      ensures j == k
    {
      if j != i && k != i {
        assert s'.rows[j] == s.rows[j] && s'.rows[k] == s.rows[k];
      }
    }
  }

  lemma RowMatchesNewToken(s: State, s': State, access: Token, refresh: Token, i: nat, j: nat, t: Token)
    requires TokenInv(s) && RowInv(s) && Extends(s, s', access, refresh, i) && j in s'.rows && t in {access, refresh}
    ensures t.chain == s'.rows[j].chain ==> t.email in s'.users && s'.users[t.email].id == s'.rows[j].userId
    ensures t.jti == s'.rows[j].jti ==> t.chain == s'.rows[j].chain
  {
    if j != i { assert s'.rows[j] == s.rows[j] && s.rows[j].jti < s.nextUuid; }
  }

  lemma RowMatchesOldToken(s: State, s': State, access: Token, refresh: Token, i: nat, j: nat, t: Token)
    requires TokenInv(s) && RowInv(s) && Extends(s, s', access, refresh, i) && j in s'.rows && t in s.issued
    ensures t.chain == s'.rows[j].chain ==> t.email in s'.users && s'.users[t.email].id == s'.rows[j].userId
    ensures t.jti == s'.rows[j].jti ==> t.chain == s'.rows[j].chain
  {
    if j != i { assert s'.rows[j] == s.rows[j]; } else { assert t.jti < s.nextUuid; }
  }

  lemma ExtensionKeepsMatch(s: State, s': State, access: Token, refresh: Token, i: nat)
    requires TokenInv(s) && RowInv(s) && Extends(s, s', access, refresh, i)
    ensures RowsMatchTokens(s')
  {
    forall j, t | j in s'.rows && t in s'.issued
      ensures t.chain == s'.rows[j].chain ==> t.email in s'.users && s'.users[t.email].id == s'.rows[j].userId
      ensures t.jti == s'.rows[j].jti ==> t.chain == s'.rows[j].chain
    {
      if t in s.issued {
        RowMatchesOldToken(s, s', access, refresh, i, j, t);
      } else {
        RowMatchesNewToken(s, s', access, refresh, i, j, t);
      }
    }
  }

  lemma ExtensionKeepsMirrors(s: State, s': State, access: Token, refresh: Token, i: nat)
    requires TokenInv(s) && RowInv(s) && Extends(s, s', access, refresh, i) && Redeemed(s, refresh.chain)
    ensures StandingIsBacked(s')
  {
    forall t | Standing(s', t) ensures Backed(s', t) {
      if t.chain == refresh.chain {
        if t != access && t != refresh {
          assert Standing(s, t);
        }
        assert Mirrors(s', t, i);
      } else {
        assert Standing(s, t) && HasMirror(s, t);
        var j :| j in s.rows && Mirrors(s, t, j);
        assert Mirrors(s', t, j);
      }
    }
  }

  lemma ExtensionKeeps(s: State, s': State, access: Token, refresh: Token, i: nat)
    requires TokenInv(s) && RowInv(s) && Extends(s, s', access, refresh, i) && Redeemed(s, refresh.chain)
    ensures RowInv(s')
  {
    ExtensionKeepsRange(s, s', access, refresh, i);
    ExtensionKeepsRowsApart(s, s', access, refresh, i);
    ExtensionKeepsMatch(s, s', access, refresh, i);
    ExtensionKeepsMirrors(s, s', access, refresh, i);
  }

  lemma RenewExtends(s: State, email: Email, chain: Uuid, i: nat)
    requires Inv(s) && Mintable(s, email, chain)
    requires OpenOn(s.rows, chain, i) && s.rows[i].userId == s.users[email].id
    ensures var Granted(access, refresh) := PairReply(s, email, chain);
      Extends(s, MoveRow(MintPair(s, email, chain), i, refresh), access, refresh, i) && refresh.chain == chain
  {
    PairIsIssued(s, email, chain);
  }

  /** Renewing a chain: a new pair, with the chain's live row pointed at the new refresh token. */
  lemma RenewKeeps(s: State, email: Email, chain: Uuid, i: nat)
    requires Inv(s) && Mintable(s, email, chain) && Redeemed(s, chain)
    requires OpenOn(s.rows, chain, i) && s.rows[i].userId == s.users[email].id
    ensures Inv(MoveRow(MintPair(s, email, chain), i, PairReply(s, email, chain).refresh))
  {
    var Granted(access, refresh) := PairReply(s, email, chain);
    RenewExtends(s, email, chain, i);
    MintPairKeepsTokens(s, email, chain);
    ExtensionKeeps(s, MoveRow(MintPair(s, email, chain), i, refresh), access, refresh, i);
  }

  lemma OpenSessionExtends(s: State, email: Email)
    requires Inv(s) && email in s.users && s.users[email].active
    ensures var (s', Granted(access, refresh)) := OpenSession(s, email);
            Extends(s, s', access, refresh, s.nextRow) && refresh.chain == s.nextUuid
  {
    var drawn := s.(nextUuid := s.nextUuid + 1);
    PairIsIssued(drawn, email, s.nextUuid);
    assert s.nextRow !in s.rows;
  }

  lemma DrawKeepsTokens(s: State, email: Email)
    requires TokenInv(s)
    ensures TokenInv(s.(nextUuid := s.nextUuid + 1)) && ChainVer(email, s.nextUuid) !in s.redis
  {
  }

  /** A login opens a chain nobody has used, with its own row. */
  lemma OpenSessionKeeps(s: State, email: Email)
    requires Inv(s) && email in s.users && s.users[email].active
    ensures Inv(OpenSession(s, email).0)
  {
    DrawKeepsTokens(s, email);
    MintPairKeepsTokens(s.(nextUuid := s.nextUuid + 1), email, s.nextUuid);
    OpenSessionExtends(s, email);
    var (s', Granted(access, refresh)) := OpenSession(s, email);
    ExtensionKeeps(s, s', access, refresh, s.nextRow);
  }
}
