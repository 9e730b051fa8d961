/** Listing users while users come, change and go. */
module Directory {
  import opened Schema
  import opened Constraints
  import opened Paging

  datatype Mutation = Create(user: User) | Update(id: Uuid, patch: Patch, now: Time) | Delete(gone: Uuid)

  /** What happens before a page is requested, and the limit the request asks for. */
  datatype Turn = Turn(before: seq<Mutation>, limit: int)

  function Mutate(db: Store, m: Mutation): Store {
    match m
    case Create(u) => CreateUser(db, u)
    case Update(id, patch, now) => UpdateUser(db, id, patch, now)
    case Delete(id) => DeleteUser(db, id)
  }

  /** The mutations happen: who is in the table after each of them. */
  lemma MutationTakesEffect(db: Store, m: Mutation)
    ensures
      var after := Mutate(db, m).users;
      match m
      case Create(u) => after == if Taken(db.users, u) then db.users else db.users + [u]
      case Update(id, patch, now) =>
        if EmailTaken(db.users, id, patch) then after == db.users
        else |after| == |db.users| && forall i | 0 <= i < |after| ::
               if db.users[i].id == id then Patched(db.users[i], after[i], patch, now) else after[i] == db.users[i]
      case Delete(id) => forall u :: u in after <==> u in db.users && u.id != id
  {
    match m
    case Create(u) => CreateTakesEffect(db, u);
    case Update(id, patch, now) => PatchTakesEffect(db, id, patch, now);
    case Delete(id) => DeleteTakesEffect(db, id);
  }

  function MutateAll(db: Store, ms: seq<Mutation>): Store
    decreases |ms|
  {
    if ms == [] then db else MutateAll(Mutate(db, ms[0]), ms[1..])
  }

  /** What each request of a traversal finds. */
  function Rounds(db: Store, turns: seq<Turn>): seq<Round>
    decreases |turns|
  {
    if turns == [] then []
    else
      var now := MutateAll(db, turns[0].before);
      [Round(now.users, turns[0].limit)] + Rounds(now, turns[1..])
  }

  // ---------- creation times are for good ----------

  type Births = map<Uuid, Time>

  function Birth(born: Births, m: Mutation): Births {
    if m.Create? then born[m.user.id := m.user.createdAt] else born
  }

  function BirthAll(born: Births, ms: seq<Mutation>): Births
    decreases |ms|
  {
    if ms == [] then born else BirthAll(Birth(born, ms[0]), ms[1..])
  }

  function BirthTurns(born: Births, turns: seq<Turn>): Births
    decreases |turns|
  {
    if turns == [] then born else BirthTurns(BirthAll(born, turns[0].before), turns[1..])
  }

  /** Generated ids do not repeat, not even those of deleted users. */
  ghost predicate FreshIds(born: Births, ms: seq<Mutation>)
    decreases |ms|
  {
    ms == [] || ((ms[0].Create? ==> ms[0].user.id !in born) && FreshIds(Birth(born, ms[0]), ms[1..]))
  }

  ghost predicate FreshTurns(born: Births, turns: seq<Turn>)
    decreases |turns|
  {
    turns == [] || (FreshIds(born, turns[0].before) && FreshTurns(BirthAll(born, turns[0].before), turns[1..]))
  }

  ghost predicate WellBorn(users: seq<User>, born: Births) {
    forall u | u in users :: u.id in born && born[u.id] == u.createdAt
  }

  ghost predicate Keeps(born: Births, later: Births) {
    forall id | id in born :: id in later && later[id] == born[id]
  }

  /** No update touches an id or a creation time. */
  lemma MutateKeepsBirths(db: Store, m: Mutation, born: Births)
    requires Valid(db) && WellBorn(db.users, born) && FreshIds(born, [m])
    ensures Valid(Mutate(db, m)) && WellBorn(Mutate(db, m).users, Birth(born, m)) && Keeps(born, Birth(born, m))
  {
    match m
    case Create(u) => CreateUserKeepsValid(db, u);
    case Update(id, patch, now) =>
      UpdateUserKeepsValid(db, id, patch, now);
      var after := UpdateUser(db, id, patch, now).users;
      forall u | u in after ensures u.id in born && born[u.id] == u.createdAt {
        var i :| 0 <= i < |after| && after[i] == u;
        assert db.users[i] in db.users;
      }
    case Delete(id) => DeleteUserKeepsValid(db, id);
  }

  lemma {:induction false} MutateAllKeepsBirths(db: Store, ms: seq<Mutation>, born: Births)
    requires Valid(db) && WellBorn(db.users, born) && FreshIds(born, ms)
    ensures Valid(MutateAll(db, ms)) && WellBorn(MutateAll(db, ms).users, BirthAll(born, ms))
    ensures Keeps(born, BirthAll(born, ms))
    decreases |ms|
  {
    if ms != [] {
      assert FreshIds(born, [ms[0]]);
      MutateKeepsBirths(db, ms[0], born);
      MutateAllKeepsBirths(Mutate(db, ms[0]), ms[1..], Birth(born, ms[0]));
    }
  }

  lemma {:induction false} RoundsAreWellBorn(db: Store, turns: seq<Turn>, born: Births)
    requires Valid(db) && WellBorn(db.users, born) && FreshTurns(born, turns)
    ensures Keeps(born, BirthTurns(born, turns))
    ensures forall r | r in Rounds(db, turns) :: UsersUnique(r.users) && WellBorn(r.users, BirthTurns(born, turns))
    decreases |turns|
  {
    if turns != [] {
      var next, later := MutateAll(db, turns[0].before), BirthAll(born, turns[0].before);
      MutateAllKeepsBirths(db, turns[0].before, born);
      RoundsAreWellBorn(next, turns[1..], later);
    }
  }

  lemma UniqueIdsUniqueKeys(users: seq<User>)
    requires UsersUnique(users)
    ensures DistinctKeys(users)
  {
  }

  lemma RoundsAreDistinct(db: Store, turns: seq<Turn>, born: Births)
    requires Valid(db) && WellBorn(db.users, born) && FreshTurns(born, turns)
    ensures AllDistinct(Rounds(db, turns))
  {
    RoundsAreWellBorn(db, turns, born);
    forall r | r in Rounds(db, turns) ensures DistinctKeys(r.users) {
      UniqueIdsUniqueKeys(r.users);
    }
  }

  /** With arbitrary creates, updates and deletes between the pages, a traversal never lists a
      user twice, and its keys strictly decrease. */
  lemma NeverRepeats(db: Store, turns: seq<Turn>, born: Births, i: nat, j: nat)
    requires Valid(db) && WellBorn(db.users, born) && FreshTurns(born, turns)
    requires i < j < |Traverse(Rounds(db, turns), None)|
    ensures
      var seen := Traverse(Rounds(db, turns), None);
      Less(KeyOf(seen[j]), KeyOf(seen[i])) && seen[i].id != seen[j].id
  {
    var rounds := Rounds(db, turns);
    var seen := Traverse(rounds, None);
    RoundsAreDistinct(db, turns, born);
    RoundsAreWellBorn(db, turns, born);
    TraverseDescends(rounds, None);
    var r := TraverseListsRows(rounds, None, seen[i]);
    var q := TraverseListsRows(rounds, None, seen[j]);
    assert WellBorn(r.users, BirthTurns(born, turns)) && WellBorn(q.users, BirthTurns(born, turns));
  }

  lemma ListsAtLeastOnce(db: Store, turns: seq<Turn>, born: Births, id: Uuid) returns (i: nat)
    requires Valid(db) && WellBorn(db.users, born) && FreshTurns(born, turns)
    requires Finished(Rounds(db, turns), None)
    requires forall r | r in Rounds(db, turns) :: id in UserIds(r.users)
    ensures i < |Traverse(Rounds(db, turns), None)| && Traverse(Rounds(db, turns), None)[i].id == id
  {
    var rounds, births := Rounds(db, turns), BirthTurns(born, turns);
    RoundsAreDistinct(db, turns, born);
    RoundsAreWellBorn(db, turns, born);
    var k := Key(if id in births then births[id] else 0, id);
    forall r | r in rounds ensures HasKey(r.users, k) {
      var u :| u in r.users && u.id == id;
      assert KeyOf(u) == k;
    }
    TraverseMeets(rounds, None, k);
    var seen := Traverse(rounds, None);
    var u :| u in seen && KeyOf(u) == k;
    i :| 0 <= i < |seen| && seen[i] == u;
  }

  ghost predicate OnlyAt(seen: seq<User>, i: nat, id: Uuid) {
    i < |seen| && forall j | 0 <= j < |seen| :: seen[j].id == id <==> j == i
  }

  /** And if it reaches its end, it lists every user that is there at every page exactly once. */
  lemma ListsExactlyOnce(db: Store, turns: seq<Turn>, born: Births, id: Uuid)
    requires Valid(db) && WellBorn(db.users, born) && FreshTurns(born, turns)
    requires Finished(Rounds(db, turns), None)
    requires forall r | r in Rounds(db, turns) :: id in UserIds(r.users)
    ensures exists i :: OnlyAt(Traverse(Rounds(db, turns), None), i, id)
  {
    var seen := Traverse(Rounds(db, turns), None);
    var i := ListsAtLeastOnce(db, turns, born, id);
    forall j | 0 <= j < |seen| && j != i ensures seen[j].id != id {
      if j < i {
        NeverRepeats(db, turns, born, j, i);
      } else {
        NeverRepeats(db, turns, born, i, j);
      }
    }
    assert OnlyAt(seen, i, id);
  }
}
