/** The database and the statements the service sends to it. An UPDATE walks the rows; the
    fate of a statement, the clock and the generated ids come from outside. */
module Queries {
  import opened Schema
  import opened AuthSpec
  import opened Constraints
  import opened Paging

  /** What a caller sees: a row, `sql.ErrNoRows`, or another error. */
  datatype Answer<+T> = Row(value: T) | NoRows | Error

  class Database {
    var users: seq<User>
    var tokens: seq<Token>

    function Contents(): Store
      reads this
    {
      Store(users, tokens)
    }

    constructor ()
      ensures Contents() == Store([], [])
    {
      users, tokens := [], [];
    }

    /** A transaction starts with a working copy of the tables. */
    constructor Begin(users: seq<User>, tokens: seq<Token>)
      ensures Contents() == Store(users, tokens)
    {
      this.users, this.tokens := users, tokens;
    }

    method GetUserByEmail(email: string, readable: bool) returns (a: Answer<User>)
      ensures a.Error? <==> !readable
      ensures readable ==> a == (match UserByEmail(users, email) case None => NoRows case Some(u) => Row(u))
    {
      if !readable {
        return Error;
      }
      for i := 0 to |users|
        invariant UserByEmail(users, email) == UserByEmail(users[i..], email)
      {
        assert users[i..][1..] == users[i + 1..];
        if users[i].email == email {
          return Row(users[i]);
        }
      }
      a := NoRows;
    }

    method GetRefreshTokenByHash(hash: Digest, readable: bool) returns (a: Answer<Token>)
      ensures a.Error? <==> !readable
      ensures readable ==> a == (match Lookup(tokens, hash) case None => NoRows case Some(t) => Row(t))
    {
      if !readable {
        return Error;
      }
      for i := 0 to |tokens|
        invariant Lookup(tokens, hash) == Lookup(tokens[i..], hash)
      {
        assert tokens[i..][1..] == tokens[i + 1..];
        if tokens[i].hash == hash {
          return Row(tokens[i]);
        }
      }
      a := NoRows;
    }

    method CreateRefreshToken(user: Uuid, hash: Digest, chain: Uuid, expiresAt: Time, fate: Fate, id: Uuid, now: Time)
      returns (a: Answer<Token>)
      modifies this`tokens
      ensures
        var row := NewToken(id, user, hash, chain, expiresAt, now);
        && Contents() == (if fate.Dropped? then old(Contents()) else Insert(old(Contents()), row))
        && a == (if fate.Applied? && Insertable(old(Contents()), row) then Row(row) else Error)
    {
      var row := NewToken(id, user, hash, chain, expiresAt, now);
      if fate.Dropped? || !Insertable(Contents(), row) {
        return Error;
      }
      tokens := tokens + [row];
      a := if fate.Applied? then Row(row) else Error;
    }

    /** UPDATE refresh_tokens SET revoked_at = now(), updated_at = now() WHERE ... AND revoked_at IS NULL */
    method Update(sel: Selector, now: Time) returns (matched: nat)
      modifies this`tokens
      ensures tokens == Revoke(old(tokens), sel, now)
      ensures matched > 0 <==> exists t :: t in old(tokens) && sel.Picks(t) && t.Active()
    {
      matched := 0;
      for i := 0 to |tokens|
        invariant |tokens| == |old(tokens)|
        invariant forall k | 0 <= k < i :: tokens[k] == RevokeRow(old(tokens)[k], sel, now)
        invariant forall k | i <= k < |tokens| :: tokens[k] == old(tokens)[k]
        invariant matched > 0 <==> exists k :: 0 <= k < i && sel.Picks(old(tokens)[k]) && old(tokens)[k].Active()
      {
        if sel.Picks(tokens[i]) && tokens[i].Active() {
          tokens := tokens[i := tokens[i].(revokedAt := Some(now), updatedAt := now)];
          matched := matched + 1;
        }
      }
    }

    /** Returns the id of the row it revoked, or no row. */
    method RevokeRefreshToken(id: Uuid, fate: Fate, now: Time) returns (a: Answer<Uuid>)
      modifies this`tokens
      ensures Contents() == RevokeStatement(old(Contents()), ById(id), fate, now)
      ensures a.Error? <==> !fate.Applied?
      ensures a.Row? <==> fate.Applied? && exists t :: t in old(tokens) && t.id == id && t.Active()
    {
      if fate.Dropped? {
        return Error;
      }
      var matched := Update(ById(id), now);
      assert forall t | t in old(tokens) :: ById(id).Picks(t) <==> t.id == id;
      a := if fate.Unacked? then Error else if matched > 0 then Row(id) else NoRows;
    }

    method RevokeChain(chain: Uuid, fate: Fate, now: Time) returns (failed: bool)
      modifies this`tokens
      ensures Contents() == RevokeStatement(old(Contents()), ByChain(chain), fate, now)
      ensures failed <==> !fate.Applied?
    {
      if !fate.Dropped? {
        var _ := Update(ByChain(chain), now);
      }
      failed := !fate.Applied?;
    }

    method RevokeAllForUser(user: Uuid, fate: Fate, now: Time) returns (failed: bool)
      modifies this`tokens
      ensures Contents() == RevokeStatement(old(Contents()), ByUser(user), fate, now)
      ensures failed <==> !fate.Applied?
    {
      if !fate.Dropped? {
        var _ := Update(ByUser(user), now);
      }
      failed := !fate.Applied?;
    }

    method CreateUser(u: User, fate: Fate) returns (a: Answer<User>)
      modifies this`users
      ensures Contents() == if fate.Dropped? then old(Contents()) else Schema.CreateUser(old(Contents()), u)
      ensures a == if fate.Applied? && !Taken(old(users), u) then Row(u) else Error
      ensures a.Row? ==> users == old(users) + [u]
    {
      if fate.Dropped? {
        return Error;
      }
      for i := 0 to |users|
        invariant forall v | v in users[..i] :: v.id != u.id && v.email != u.email
      {
        if users[i].id == u.id || users[i].email == u.email {
          assert users[i] in users;
          return Error;
        }
        assert users[..i + 1] == users[..i] + [users[i]];
      }
      assert users[..|users|] == users;
      users := users + [u];
      a := if fate.Applied? then Row(u) else Error;
    }

    /** UPDATE users SET email = COALESCE($1, email), ... WHERE id = $4 RETURNING ... */
    method UpdateUser(id: Uuid, p: Patch, now: Time, fate: Fate) returns (a: Answer<User>)
      modifies this`users
      ensures Contents() == if fate.Dropped? then old(Contents()) else Schema.UpdateUser(old(Contents()), id, p, now)
      ensures a.NoRows? <==> fate.Applied? && id !in UserIds(old(users))
      ensures a.Row? <==> fate.Applied? && id in UserIds(old(users)) && !EmailTaken(old(users), id, p)
      ensures a.Row? ==> exists i :: 0 <= i < |users| == |old(users)| && old(users)[i].id == id
                           && users[i] == a.value && Patched(old(users)[i], a.value, p, now)
      ensures a.Row? ==> UserById(users, id) == Some(a.value)
    {
      if fate.Dropped? {
        return Error;
      }
      a := NoRows;
      var allowed := PatchAllowed(users, id, p);
      for i := 0 to |users|
        invariant |users| == |old(users)|
        invariant forall k | 0 <= k < i ::
                    users[k] == if allowed then PatchRow(old(users)[k], id, p, now) else old(users)[k]
        invariant forall k | i <= k < |users| :: users[k] == old(users)[k]
        invariant a.NoRows? <==> forall k | 0 <= k < i :: old(users)[k].id != id
        invariant a.Row? ==> allowed && exists k :: 0 <= k < i && old(users)[k].id == id && users[k] == a.value
        invariant a.Row? ==> UserById(users[..i], id) == Some(a.value)
        invariant a.Error? ==> !allowed
      {
        ghost var walked := users[..i];
        if users[i].id == id {
          if allowed {
            users := users[i := PatchRow(users[i], id, p, now)];
            a := Row(users[i]);
          } else {
            a := Error;
          }
        }
        assert users[..i + 1][..i] == walked;
      }
      assert users[..|users|] == users;
      if fate.Unacked? {
        a := Error;
      }
    }

    /** DELETE FROM users WHERE id = $1, and the rows that reference it. */
    method DeleteUser(id: Uuid, fate: Fate) returns (failed: bool)
      modifies this
      ensures Contents() == if fate.Dropped? then old(Contents()) else Schema.DeleteUser(old(Contents()), id)
      ensures failed <==> !fate.Applied?
    {
      failed := !fate.Applied?;
      if fate.Dropped? {
        return;
      }
      var keptUsers: seq<User> := [];
      for i := 0 to |users|
        invariant keptUsers == RemoveUser(users[..i], id)
      {
        assert users[..i + 1][..i] == users[..i];
        if users[i].id != id {
          keptUsers := keptUsers + [users[i]];
        }
      }
      var keptTokens: seq<Token> := [];
      for i := 0 to |tokens|
        invariant keptTokens == Surviving(tokens[..i], id)
      {
        assert tokens[..i + 1][..i] == tokens[..i];
        if tokens[i].userId != id {
          keptTokens := keptTokens + [tokens[i]];
        }
      }
      assert users[..|users|] == users && tokens[..|tokens|] == tokens;
      users, tokens := keptUsers, keptTokens;
    }

    /** SELECT ... WHERE (created_at, id) < (...) ORDER BY created_at DESC, id DESC LIMIT n:
        the filter and the sort walk the rows, and the driver collects one row after another. */
    method ListUsers(p: Params, readable: bool) returns (a: Answer<seq<User>>)
      ensures a == if readable then Row(Paging.ListUsers(users, p)) else Error
    {
      if !readable {
        return Error;
      }
      var sorted: seq<User> := [];
      var i := |users|;
      while i > 0
        invariant 0 <= i <= |users|
        invariant sorted == OrderBy(Where(users[i..], p))
      {
        i := i - 1;
        assert users[i..][1..] == users[i + 1..];
        if Selected(users[i], p) {
          assert Where(users[i..], p) == [users[i]] + Where(users[i + 1..], p);
          OrderByFirst(users[i], Where(users[i + 1..], p));
          sorted := InsertDescending(users[i], sorted);
        } else {
          assert Where(users[i..], p) == Where(users[i + 1..], p);
        }
      }
      assert users[0..] == users;
      var items: seq<User> := [];
      while |items| < |sorted| && |items| < p.maxRows
        invariant |items| <= |sorted| && |items| <= p.maxRows && items == sorted[..|items|]
      {
        items := items + [sorted[|items|]];
      }
      assert sorted[..|sorted|] == sorted;
      assert items == Limit(sorted, p.maxRows);
      a := Row(items);
    }
  }
}
