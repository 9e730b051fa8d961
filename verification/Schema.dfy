/** The two tables of the service and the SQL statements that touch them.

    Each statement is a function from the stored rows to the rows it leaves; the
    methods that run the statements are in `Queries`. Identifiers (`UUID`) and token
    digests (`TEXT`) are natural numbers: only equality and the order of ids matter. */
module Schema {

  type Uuid = nat
  type Digest = nat
  /** Nanoseconds. */
  type Time = int

  datatype Option<+T> = None | Some(value: T)

  /** How one writing statement ends. `Dropped`: an error, and nothing was written.
      `Unacked`: the statement took effect and the caller still sees an error. */
  datatype Fate = Applied | Dropped | Unacked

  datatype User = User(
    id: Uuid, email: string, passwordHash: string, name: string,
    createdAt: Time, updatedAt: Time)

  datatype Token = Token(
    id: Uuid, userId: Uuid, hash: Digest, chainId: Uuid,
    revokedAt: Option<Time>, expiresAt: Time, createdAt: Time, updatedAt: Time)
  {
    predicate Active() { revokedAt.None? }
  }

  datatype Store = Store(users: seq<User>, tokens: seq<Token>)

  function UserIds(users: seq<User>): set<Uuid> {
    set u | u in users :: u.id
  }

  function TokenIds(tokens: seq<Token>): set<Uuid> {
    set t | t in tokens :: t.id
  }

  function Hashes(tokens: seq<Token>): set<Digest> {
    set t | t in tokens :: t.hash
  }

  function Chains(tokens: seq<Token>): set<Uuid> {
    set t | t in tokens :: t.chainId
  }

  /** PRIMARY KEY and UNIQUE on users. */
  ghost predicate UsersUnique(users: seq<User>) {
    forall i, j | 0 <= i < j < |users| ::
      users[i].id != users[j].id && users[i].email != users[j].email
  }

  /** PRIMARY KEY and UNIQUE on refresh_tokens. */
  ghost predicate TokensUnique(tokens: seq<Token>) {
    forall i, j | 0 <= i < j < |tokens| ::
      tokens[i].id != tokens[j].id && tokens[i].hash != tokens[j].hash
  }

  /** Every constraint the two migrations declare. */
  ghost predicate Valid(db: Store) {
    && UsersUnique(db.users)
    && TokensUnique(db.tokens)
    && forall t | t in db.tokens :: t.userId in UserIds(db.users)
  }

  // ---------- refresh_tokens ----------

  /** The WHERE clause of the three revoking UPDATEs; each adds `revoked_at IS NULL`. */
  datatype Selector = ById(id: Uuid) | ByChain(chain: Uuid) | ByUser(user: Uuid) {
    predicate Picks(t: Token) {
      match this
      case ById(id) => t.id == id
      case ByChain(chain) => t.chainId == chain
      case ByUser(user) => t.userId == user
    }
  }

  function RevokeRow(t: Token, sel: Selector, now: Time): Token {
    if sel.Picks(t) && t.Active() then t.(revokedAt := Some(now), updatedAt := now) else t
  }

  function Revoke(tokens: seq<Token>, sel: Selector, now: Time): (r: seq<Token>)
    ensures |r| == |tokens|
    ensures forall i | 0 <= i < |r| :: r[i] == RevokeRow(tokens[i], sel, now)
  {
    seq(|tokens|, i requires 0 <= i < |tokens| => RevokeRow(tokens[i], sel, now))
  }

  function Lookup(tokens: seq<Token>, hash: Digest): (r: Option<Token>)
    ensures r.None? <==> hash !in Hashes(tokens)
    ensures r.Some? ==> r.value in tokens && r.value.hash == hash
  {
    if tokens == [] then None
    else if tokens[0].hash == hash then Some(tokens[0])
    else
      var r := Lookup(tokens[1..], hash);
      assert r.None? ==> forall t | t in tokens :: t == tokens[0] || t in tokens[1..];
      r
  }

  /** The constraints an INSERT into refresh_tokens has to pass. */
  predicate Insertable(db: Store, t: Token) {
    && t.userId in UserIds(db.users)
    && t.id !in TokenIds(db.tokens)
    && t.hash !in Hashes(db.tokens)
  }

  function Insert(db: Store, t: Token): Store {
    if Insertable(db, t) then db.(tokens := db.tokens + [t]) else db
  }

  function NewToken(id: Uuid, user: Uuid, hash: Digest, chain: Uuid, expiresAt: Time, now: Time): Token {
    Token(id, user, hash, chain, None, expiresAt, now, now)
  }

  // ---------- users ----------

  /** ON DELETE CASCADE: the tokens whose owner is not `user`. */
  function Surviving(tokens: seq<Token>, user: Uuid): (r: seq<Token>)
    ensures forall t :: t in r <==> t in tokens && t.userId != user
  {
    if tokens == [] then []
    else
      var n := |tokens| - 1;
      Surviving(tokens[..n], user) + (if tokens[n].userId == user then [] else [tokens[n]])
  }

  function RemoveUser(users: seq<User>, id: Uuid): (r: seq<User>)
    ensures forall u :: u in r <==> u in users && u.id != id
  {
    if users == [] then []
    else
      var n := |users| - 1;
      RemoveUser(users[..n], id) + (if users[n].id == id then [] else [users[n]])
  }

  function DeleteUser(db: Store, id: Uuid): Store {
    Store(RemoveUser(db.users, id), Surviving(db.tokens, id))
  }

  function UserByEmail(users: seq<User>, email: string): (r: Option<User>)
    ensures r.None? <==> forall u | u in users :: u.email != email
    ensures r.Some? ==> r.value in users && r.value.email == email
  {
    if users == [] then None
    else if users[0].email == email then Some(users[0])
    else
      var r := UserByEmail(users[1..], email);
      assert r.None? ==> forall u | u in users :: u == users[0] || u in users[1..];
      r
  }

  function UserById(users: seq<User>, id: Uuid): (r: Option<User>)
    ensures r.None? <==> id !in UserIds(users)
    ensures r.Some? ==> r.value in users && r.value.id == id
  {
    if users == [] then None
    else
      var n := |users| - 1;
      if users[n].id == id then Some(users[n])
      else
        assert forall u | u in users :: u == users[n] || u in users[..n];
        UserById(users[..n], id)
  }

  function CreateUser(db: Store, u: User): Store {
    if u.id in UserIds(db.users) || exists v :: v in db.users && v.email == u.email then db
    else db.(users := db.users + [u])
  }

  datatype Patch = Patch(email: Option<string>, passwordHash: Option<string>, name: Option<string>)

  function Coalesce<T>(o: Option<T>, current: T): T {
    if o.Some? then o.value else current
  }

  function PatchRow(u: User, id: Uuid, p: Patch, now: Time): User {
    if u.id == id then
      u.(email := Coalesce(p.email, u.email),
         passwordHash := Coalesce(p.passwordHash, u.passwordHash),
         name := Coalesce(p.name, u.name),
         updatedAt := now)
    else u
  }

  /** The UPDATE is refused when the new email belongs to another user. */
  predicate PatchAllowed(users: seq<User>, id: Uuid, p: Patch) {
    p.email.Some? ==> forall u | u in users && u.id != id :: u.email != p.email.value
  }

  function UpdateUser(db: Store, id: Uuid, p: Patch, now: Time): Store {
    if PatchAllowed(db.users, id, p) then
      db.(users := seq(|db.users|, i requires 0 <= i < |db.users| => PatchRow(db.users[i], id, p, now)))
    else db
  }
}
