/** What one whole call of the auth service does to the two tables, statement by statement. */
module AuthSpec {
  import opened Schema
  import Base64Url
  import Jwt

  /** The uninterpreted parts: the token digest and the password check are functions of their
      arguments, nothing more is known about them. */
  datatype Config = Config(
    digest: string -> Digest,
    passwordMatches: (string, string) -> bool,
    signer: Jwt.Signer,
    refreshTTL: Time)

  /** What the surroundings decide while a token pair is issued: random bytes, the clock at
      each step, the database-generated id, and which steps fail. */
  datatype Issue = Issue(
    entropy: Option<seq<Base64Url.Byte>>, preparedAt: Time,
    create: Fate, rowId: Uuid, createdAt: Time,
    signs: bool, signedAt: Time)

  datatype Env = Env(readable: bool, decidedAt: Time, revoke: Fate, revokedAt: Time, issue: Issue)

  datatype Reply =
    | Tokens(access: Jwt.AccessToken, refresh: string)
    | InvalidCredentials
    | Unknown
    | Reuse
    | Expired
    | LoggedOut
    | Failed

  datatype Op =
    | Login(email: string, password: string, chain: Uuid, env: Env)
    | Refresh(presented: string, env: Env)
    | Logout(presented: string, env: Env)
    | LogoutAll(user: Uuid, env: Env)
    | CreateUser(newUser: User)
    | UpdateUser(id: Uuid, patch: Patch, now: Time)
    | DeleteUser(gone: Uuid)

  function RevokeStatement(db: Store, sel: Selector, fate: Fate, now: Time): Store {
    if fate.Dropped? then db else db.(tokens := Revoke(db.tokens, sel, now))
  }

  function IssuePair(cfg: Config, db: Store, user: Uuid, chain: Uuid, e: Issue): (Store, Reply) {
    var plaintext := Base64Url.GenerateRefreshToken(e.entropy);
    if plaintext.None? then (db, Failed)
    else
      var row := NewToken(e.rowId, user, cfg.digest(plaintext.value), chain,
                          e.preparedAt + cfg.refreshTTL, e.createdAt);
      var stored := if e.create.Dropped? then db else Insert(db, row);
      if !e.create.Applied? || !Insertable(db, row) || !e.signs then (stored, Failed)
      else (stored, Tokens(Jwt.Sign(cfg.signer, user, chain, e.signedAt), plaintext.value))
  }

  function LoginCall(cfg: Config, db: Store, email: string, password: string, chain: Uuid, e: Env): (Store, Reply) {
    var user := UserByEmail(db.users, email);
    if !e.readable then (db, Failed)
    else if user.None? || !cfg.passwordMatches(user.value.passwordHash, password) then (db, InvalidCredentials)
    else IssuePair(cfg, db, user.value.id, chain, e.issue)
  }

  function RefreshCall(cfg: Config, db: Store, presented: string, e: Env): (Store, Reply) {
    var found := Lookup(db.tokens, cfg.digest(presented));
    if !e.readable then (db, Failed)
    else if found.None? then (db, Unknown)
    else
      var row := found.value;
      if !row.Active() then
        (RevokeStatement(db, ByChain(row.chainId), e.revoke, e.revokedAt),
         if e.revoke.Applied? then Reuse else Failed)
      else if e.decidedAt > row.expiresAt then (db, Expired)
      else
        var spent := RevokeStatement(db, ById(row.id), e.revoke, e.revokedAt);
        if e.revoke.Applied? then IssuePair(cfg, spent, row.userId, row.chainId, e.issue)
        else (spent, Failed)
  }

  function LogoutCall(cfg: Config, db: Store, presented: string, e: Env): (Store, Reply) {
    var found := Lookup(db.tokens, cfg.digest(presented));
    if !e.readable then (db, Failed)
    else if found.None? then (db, LoggedOut)
    else
      (RevokeStatement(db, ById(found.value.id), e.revoke, e.revokedAt),
       if e.revoke.Applied? then LoggedOut else Failed)
  }

  function LogoutAllCall(db: Store, user: Uuid, e: Env): (Store, Reply) {
    (RevokeStatement(db, ByUser(user), e.revoke, e.revokedAt),
     if e.revoke.Applied? then LoggedOut else Failed)
  }

  function Exec(cfg: Config, db: Store, op: Op): (Store, Reply) {
    match op
    case Login(email, password, chain, e) => LoginCall(cfg, db, email, password, chain, e)
    case Refresh(presented, e) => RefreshCall(cfg, db, presented, e)
    case Logout(presented, e) => LogoutCall(cfg, db, presented, e)
    case LogoutAll(user, e) => LogoutAllCall(db, user, e)
    case CreateUser(u) => (Schema.CreateUser(db, u), Failed)
    case UpdateUser(id, patch, now) => (Schema.UpdateUser(db, id, patch, now), Failed)
    case DeleteUser(id) => (Schema.DeleteUser(db, id), Failed)
  }
}
