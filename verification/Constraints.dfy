/** Every statement keeps the constraints of the migrations: keys, UNIQUE, and the cascade that
    keeps the foreign key. */
module Constraints {
  import opened Schema

  lemma {:induction false} SurvivingKeepsUnique(tokens: seq<Token>, user: Uuid)
    requires TokensUnique(tokens)
    ensures TokensUnique(Surviving(tokens, user))
  {
    if tokens != [] {
      var n := |tokens| - 1;
      SurvivingKeepsUnique(tokens[..n], user);
      forall t | t in Surviving(tokens[..n], user) ensures t.id != tokens[n].id && t.hash != tokens[n].hash {
        var i :| 0 <= i < n && tokens[i] == t;
      }
    }
  }

  lemma {:induction false} RemoveUserKeepsUnique(users: seq<User>, id: Uuid)
    requires UsersUnique(users)
    ensures UsersUnique(RemoveUser(users, id))
  {
    if users != [] {
      var n := |users| - 1;
      RemoveUserKeepsUnique(users[..n], id);
      forall u | u in RemoveUser(users[..n], id) ensures u.id != users[n].id && u.email != users[n].email {
        var i :| 0 <= i < n && users[i] == u;
      }
    }
  }

  lemma DeleteUserKeepsValid(db: Store, id: Uuid)
    requires Valid(db)
    ensures Valid(DeleteUser(db, id))
  {
    SurvivingKeepsUnique(db.tokens, id);
    RemoveUserKeepsUnique(db.users, id);
  }

  lemma CreateUserKeepsValid(db: Store, u: User)
    requires Valid(db)
    ensures Valid(CreateUser(db, u))
    ensures UserIds(db.users) <= UserIds(CreateUser(db, u).users) <= UserIds(db.users) + {u.id}
  {
  }

  lemma UpdateUserKeepsValid(db: Store, id: Uuid, p: Patch, now: Time)
    requires Valid(db)
    ensures Valid(UpdateUser(db, id, p, now))
    ensures UserIds(UpdateUser(db, id, p, now).users) == UserIds(db.users)
  {
    var after := UpdateUser(db, id, p, now);
    forall x ensures x in UserIds(after.users) <==> x in UserIds(db.users) {
      if i :| 0 <= i < |db.users| && db.users[i].id == x {
        assert after.users[i] in after.users;
      }
      if i :| 0 <= i < |after.users| && after.users[i].id == x {
        assert db.users[i] in db.users;
      }
    }
  }

  lemma RevokeKeepsValid(db: Store, sel: Selector, now: Time)
    requires Valid(db)
    ensures Valid(db.(tokens := Revoke(db.tokens, sel, now)))
  {
  }

  lemma InsertKeepsValid(db: Store, t: Token)
    requires Valid(db)
    ensures Valid(Insert(db, t))
  {
  }

  // ---------- what the statements do, column by column ----------

  /** The row is stamped with `now` if it was in service and the statement is about it; otherwise
      nothing of it changes. */
  ghost predicate Stamped(before: Token, after: Token, picked: bool, now: Time) {
    && after.id == before.id && after.userId == before.userId && after.hash == before.hash
    && after.chainId == before.chainId && after.expiresAt == before.expiresAt && after.createdAt == before.createdAt
    && (if before.revokedAt == None && picked
        then after.revokedAt == Some(now) && after.updatedAt == now
        else after.revokedAt == before.revokedAt && after.updatedAt == before.updatedAt)
  }

  /** The three revoking UPDATEs: by id, by chain, by owner. */
  lemma RevokeTakesEffect(tokens: seq<Token>, sel: Selector, now: Time, i: nat)
    requires i < |tokens|
    ensures |Revoke(tokens, sel, now)| == |tokens|
    ensures
      var t := tokens[i];
      var picked := match sel
        case ById(id) => t.id == id
        case ByChain(chain) => t.chainId == chain
        case ByUser(user) => t.userId == user;
      Stamped(t, Revoke(tokens, sel, now)[i], picked, now)
  {
  }

  /** A row that the keys, the UNIQUE hash or the foreign key do not admit. */
  ghost predicate Conflicts(db: Store, t: Token) {
    || (forall u | u in db.users :: u.id != t.userId)
    || (exists r :: r in db.tokens && (r.id == t.id || r.hash == t.hash))
  }

  /** A new row is stored after all others unless it conflicts. */
  lemma InsertTakesEffect(db: Store, t: Token)
    ensures Insert(db, t) == if Conflicts(db, t) then db else Store(db.users, db.tokens + [t])
    ensures Insertable(db, t) <==> !Conflicts(db, t)
  {
    assert t.userId in UserIds(db.users) <==> exists u :: u in db.users && u.id == t.userId;
    assert t.id in TokenIds(db.tokens) <==> exists r :: r in db.tokens && r.id == t.id;
    assert t.hash in Hashes(db.tokens) <==> exists r :: r in db.tokens && r.hash == t.hash;
  }

  ghost predicate Given<T>(o: Option<T>, before: T, after: T) {
    after == match o case Some(x) => x case None => before
  }

  /** Every given column has the new value, every other one keeps its own. */
  ghost predicate Patched(before: User, after: User, p: Patch, now: Time) {
    && after.id == before.id && after.createdAt == before.createdAt && after.updatedAt == now
    && Given(p.email, before.email, after.email)
    && Given(p.passwordHash, before.passwordHash, after.passwordHash)
    && Given(p.name, before.name, after.name)
  }

  /** The new email is another user's. */
  ghost predicate EmailTaken(users: seq<User>, id: Uuid, p: Patch) {
    p.email.Some? && exists u :: u in users && u.id != id && u.email == p.email.value
  }

  /** The patch is refused exactly if the email is taken; otherwise it changes the one user, in its
      place, and nobody else. */
  lemma PatchTakesEffect(db: Store, id: Uuid, p: Patch, now: Time)
    ensures
      var after := UpdateUser(db, id, p, now);
      && after.tokens == db.tokens && |after.users| == |db.users|
      && (EmailTaken(db.users, id, p) ==> after == db)
      && (!EmailTaken(db.users, id, p) ==> forall i | 0 <= i < |db.users| ::
            if db.users[i].id == id then Patched(db.users[i], after.users[i], p, now)
            else after.users[i] == db.users[i])
    ensures PatchAllowed(db.users, id, p) <==> !EmailTaken(db.users, id, p)
    ensures id !in UserIds(db.users) ==> UpdateUser(db, id, p, now) == db
  {
    if id !in UserIds(db.users) {
      assert UpdateUser(db, id, p, now).users == db.users;
    }
  }

  /** The patched user is found again under the same id. */
  lemma PatchIsFound(db: Store, id: Uuid, p: Patch, now: Time) returns (i: nat)
    requires id in UserIds(db.users) && !EmailTaken(db.users, id, p)
    ensures
      var after := UpdateUser(db, id, p, now).users;
      && i < |db.users| == |after| && db.users[i].id == id
      && UserById(after, id) == Some(after[i]) && Patched(db.users[i], after[i], p, now)
  {
    PatchTakesEffect(db, id, p, now);
    var after := UpdateUser(db, id, p, now).users;
    var k :| 0 <= k < |db.users| && db.users[k].id == id;
    assert after[k].id == id && after[k] in after;
    var found := UserById(after, id).value;
    i :| 0 <= i < |after| && after[i] == found;
    var before := db.users[i];
    assert after[i].id == id;
    assert before.id == id;
  }

  predicate Taken(users: seq<User>, u: User) {
    exists v :: v in users && (v.id == u.id || v.email == u.email)
  }

  /** A new user is stored as given, after all others, unless the id or the email is taken. */
  lemma CreateTakesEffect(db: Store, u: User)
    ensures CreateUser(db, u) == if Taken(db.users, u) then db else Store(db.users + [u], db.tokens)
  {
    assert u.id in UserIds(db.users) <==> exists v :: v in db.users && v.id == u.id;
  }

  /** The user goes, with every token of theirs, and nobody and nothing else does. */
  lemma DeleteTakesEffect(db: Store, id: Uuid)
    ensures forall u :: u in DeleteUser(db, id).users <==> u in db.users && u.id != id
    ensures forall t :: t in DeleteUser(db, id).tokens <==> t in db.tokens && t.userId != id
  {
  }
}
