/** What calls mean to the owner of an account: who gets in, what a pair takes, what ends it. */
module Accounts {
  import opened Schema
  import opened Constraints
  import opened AuthSpec
  import opened Sessions
  import opened Guarantees
  import opened Refinement
  import Jwt

  // ---------- who gets in ----------

  /** Email and password are those of user `u`. */
  predicate Credentials(cfg: Config, db: Store, email: string, password: string, u: User) {
    u in db.users && u.email == email && cfg.passwordMatches(u.passwordHash, password)
  }

  lemma OnlyUserWithEmail(db: Store, u: User)
    requires UsersUnique(db.users) && u in db.users
    ensures UserByEmail(db.users, u.email) == Some(u)
  {
  }

  /** Login hands out a pair exactly if some user has the email and the password and no step fails;
      the pair is that user's, in the new chain. A wrong password and an unknown email give one
      answer, and nothing else gives it. */
  lemma LoginExactly(cfg: Config, db: Store, email: string, password: string, chain: Uuid, e: Env)
    requires Valid(db) && e.issue.rowId !in TokenIds(db.tokens)
    ensures
      var reply := Exec(cfg, db, Login(email, password, chain, e)).1;
      && (reply.InvalidCredentials? <==>
            e.readable && forall u | u in db.users :: !Credentials(cfg, db, email, password, u))
      && (reply.Tokens? <==>
            && e.readable && (exists u :: Credentials(cfg, db, email, password, u))
            && NewDigest(cfg, e.issue).Some? && NewDigest(cfg, e.issue).value !in Hashes(db.tokens)
            && e.issue.create.Applied? && e.issue.signs)
      && (reply.Tokens? ==> forall u | Credentials(cfg, db, email, password, u) ::
            reply.access == Jwt.Sign(cfg.signer, u.id, chain, e.issue.signedAt))
  {
    forall u | Credentials(cfg, db, email, password, u) ensures UserByEmail(db.users, email) == Some(u) {
      OnlyUserWithEmail(db, u);
    }
    var found := UserByEmail(db.users, email);
    if found.Some? {
      assert Credentials(cfg, db, email, password, found.value)
        <==> cfg.passwordMatches(found.value.passwordHash, password);
      assert found.value.id in UserIds(db.users);
    }
  }

  /** The verdict on a password after some change: only that of user `u` counts. */
  ghost predicate ChecksAgainst(cfg: Config, db: Store, u: User) {
    forall password, chain, e: Env | e.readable ::
      Exec(cfg, db, Login(u.email, password, chain, e)).1.InvalidCredentials?
      <==> !cfg.passwordMatches(u.passwordHash, password)
  }

  lemma StoredUserChecks(cfg: Config, db: Store, u: User)
    requires UsersUnique(db.users) && u in db.users
    ensures ChecksAgainst(cfg, db, u)
  {
    OnlyUserWithEmail(db, u);
  }

  /** A registered user logs in with the email and the password they registered with. */
  lemma LoginAfterCreate(cfg: Config, db: Store, u: User)
    requires Valid(db) && !Taken(db.users, u)
    ensures u in Exec(cfg, db, Op.CreateUser(u)).0.users
    ensures ChecksAgainst(cfg, Exec(cfg, db, Op.CreateUser(u)).0, u)
  {
    CreateTakesEffect(db, u);
    CreateUserKeepsValid(db, u);
    StoredUserChecks(cfg, Exec(cfg, db, Op.CreateUser(u)).0, u);
  }

  /** After a patch a user logs in with the new email and the new password, where given, and no
      longer with the old password. */
  lemma LoginAfterPatch(cfg: Config, db: Store, u: User, p: Patch, now: Time) returns (v: User)
    requires Valid(db) && u in db.users && !EmailTaken(db.users, u.id, p)
    ensures v in Exec(cfg, db, Op.UpdateUser(u.id, p, now)).0.users && Patched(u, v, p, now)
    ensures ChecksAgainst(cfg, Exec(cfg, db, Op.UpdateUser(u.id, p, now)).0, v)
  {
    var after := Exec(cfg, db, Op.UpdateUser(u.id, p, now)).0;
    PatchTakesEffect(db, u.id, p, now);
    UpdateUserKeepsValid(db, u.id, p, now);
    var i :| 0 <= i < |db.users| && db.users[i] == u;
    v := after.users[i];
    StoredUserChecks(cfg, after, v);
  }

  // ---------- what a pair takes ----------

  /** A pair takes every step of its call; in particular a refresh whose revoke was not
      acknowledged hands out none. */
  lemma PairNeedsEveryStep(cfg: Config, db: Store, op: Op)
    requires Exec(cfg, db, op).1.Tokens?
    ensures op.Login? || op.Refresh?
    ensures
      var e := op.env;
      && e.readable && e.issue.entropy.Some? && e.issue.create.Applied? && e.issue.signs
      && (op.Refresh? ==> e.revoke.Applied?)
  {
  }

  /** A call adds a row only by an insert that was sent, and a refresh revokes the row it was
      given before that. */
  lemma RowsAreAddedLast(cfg: Config, db: Store, op: Op)
    requires Valid(db) && |Exec(cfg, db, op).0.tokens| > |db.tokens|
    ensures op.Login? || op.Refresh?
    ensures op.env.readable && !op.env.issue.create.Dropped?
    ensures op.Refresh? ==>
              && op.env.revoke.Applied?
              && exists t :: t in Exec(cfg, db, op).0.tokens && t.hash == cfg.digest(op.presented) && !t.Active()
  {
    match op
    case Refresh(presented, e) => RefreshAddsLast(cfg, db, presented, e);
    case DeleteUser(id) => SurvivingIsShorter(db.tokens, id);
    case _ =>
  }

  lemma RefreshAddsLast(cfg: Config, db: Store, presented: string, e: Env)
    requires Valid(db) && |RefreshCall(cfg, db, presented, e).0.tokens| > |db.tokens|
    ensures e.readable && !e.issue.create.Dropped? && e.revoke.Applied?
    ensures exists t :: t in RefreshCall(cfg, db, presented, e).0.tokens
                     && t.hash == cfg.digest(presented) && !t.Active()
  {
    var row := Lookup(db.tokens, cfg.digest(presented)).value;
    var spent := Revoke(db.tokens, ById(row.id), e.revokedAt);
    var k :| 0 <= k < |db.tokens| && db.tokens[k] == row;
    RevokeTakesEffect(db.tokens, ById(row.id), e.revokedAt, k);
    var after := RefreshCall(cfg, db, presented, e).0.tokens;
    assert after[..|spent|] == spent && after[k] == spent[k];
  }

  lemma {:induction false} SurvivingIsShorter(tokens: seq<Token>, user: Uuid)
    ensures |Surviving(tokens, user)| <= |tokens|
  {
    if tokens != [] {
      SurvivingIsShorter(tokens[..|tokens| - 1], user);
    }
  }

  // ---------- what ends it ----------

  /** Logout is answered as done exactly if the token is unknown or its UPDATE is acknowledged, and
      leaves no row of the token in service. */
  lemma LogoutExactly(cfg: Config, db: Store, presented: string, e: Env)
    requires Valid(db)
    ensures
      var (after, reply) := Exec(cfg, db, Logout(presented, e));
      var h := cfg.digest(presented);
      && (reply.LoggedOut? <==> e.readable && (h !in Hashes(db.tokens) || e.revoke.Applied?))
      && (reply.LoggedOut? ==> forall t | t in after.tokens && t.hash == h :: !t.Active())
      && ((forall t | t in db.tokens && t.hash == h :: !t.Active()) ==> after == db)
  {
    var found := Lookup(db.tokens, cfg.digest(presented));
    if found.Some? {
      var row := found.value;
      var after := Revoke(db.tokens, ById(row.id), e.revokedAt);
      forall t | t in after && t.hash == row.hash ensures !t.Active() {
        var k :| 0 <= k < |after| && after[k] == t;
        RevokeTakesEffect(db.tokens, ById(row.id), e.revokedAt, k);
      }
      if !row.Active() {
        assert after == db.tokens;
      }
    } else {
      assert forall t | t in db.tokens :: t.hash in Hashes(db.tokens);
    }
  }

  /** Logging out with the newest token of a session ends it: no token of it is redeemed
      afterwards, in any run of whole calls, also if the acknowledgement was lost. */
  lemma LogoutEndsSession(cfg: Config, db: Store, presented: string, e: Env, rest: seq<Op>, t: Token)
    requires CallThenRun(cfg, db, Logout(presented, e), rest) && e.readable && !e.revoke.Dropped?
    requires t in db.tokens && t.chainId in Abs(db.tokens)
    requires Abs(db.tokens)[t.chainId].Newest(cfg.digest(presented))
    requires Unrepeated(cfg, db.tokens, [Logout(presented, e)] + rest, t.hash)
    ensures forall k | 0 <= k < |rest| && Presents(cfg, rest[k], t.hash) ::
              !ReplyAfter(cfg, db, Logout(presented, e), rest, k).Tokens?
  {
    var m := Abs(db.tokens);
    CallRefines(cfg, db, Logout(presented, e));
    OneHolder(db.tokens);
    assert cfg.digest(presented) in m[t.chainId].history;
    assert Holder(m, cfg.digest(presented)) == Some(t.chainId);
    TokenHolder(db.tokens, t);
    NeverAfter(cfg, db, Logout(presented, e), rest, t.hash);
  }

  /** LogoutAll is answered as done exactly if its UPDATE is acknowledged, and then the user has no
      row in service, and every other row is as it was. */
  lemma LogoutAllExactly(cfg: Config, db: Store, user: Uuid, e: Env)
    ensures
      var (after, reply) := Exec(cfg, db, LogoutAll(user, e));
      && (reply.LoggedOut? <==> e.revoke.Applied?)
      && (reply.LoggedOut? ==> forall t | t in after.tokens && t.userId == user :: !t.Active())
      && (forall t | t in db.tokens && t.userId != user :: t in after.tokens)
  {
    var after := Revoke(db.tokens, ByUser(user), e.revokedAt);
    forall t | t in after && t.userId == user ensures !t.Active() {
      var k :| 0 <= k < |after| && after[k] == t;
    }
    forall t | t in db.tokens && t.userId != user ensures t in after {
      var k :| 0 <= k < |db.tokens| && db.tokens[k] == t;
      assert after[k] == t;
    }
  }

  /** A deleted user is unknown to Login, and every token they had to Refresh. */
  lemma DeletedIsUnknown(cfg: Config, db: Store, id: Uuid, presented: string, e: Env)
    requires Valid(db) && e.readable
    ensures
      var after := Exec(cfg, db, Op.DeleteUser(id)).0;
      && (forall u | u in db.users && u.id == id :: UserByEmail(after.users, u.email).None?)
      && ((exists t :: t in db.tokens && t.userId == id && t.hash == cfg.digest(presented)) ==>
            Exec(cfg, after, Refresh(presented, e)) == (after, Unknown))
  {
    DeleteTakesEffect(db, id);
    var after := Exec(cfg, db, Op.DeleteUser(id)).0;
    if t :| t in db.tokens && t.userId == id && t.hash == cfg.digest(presented) {
      assert forall r | r in after.tokens :: r.hash != t.hash;
    }
  }
}
