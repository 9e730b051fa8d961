/** WithTx: a function of the caller runs statements in one transaction, all of them or none. */
module Transactions {
  import opened Schema
  import opened Constraints
  import opened Queries
  import AuthSpec

  datatype Stmt =
    | CreateToken(user: Uuid, hash: Digest, chain: Uuid, expiresAt: Time, rowId: Uuid, createdAt: Time)
    | FindToken(digest: Digest)
    | RevokeTokens(sel: Selector, now: Time)
    | AddUser(newUser: User)
    | FindUser(email: string)
    | PatchUser(id: Uuid, patch: Patch, at: Time)
    | DropUser(gone: Uuid)

  datatype StmtReply = Done | Missing | GotToken(token: Token) | GotUser(found: User) | Refused

  /** A statement by itself: what it leaves and what it answers. A refused one changes nothing. */
  function Execute(db: Store, s: Stmt): (Store, StmtReply) {
    match s
    case CreateToken(user, hash, chain, expiresAt, id, now) =>
      var row := NewToken(id, user, hash, chain, expiresAt, now);
      if Insertable(db, row) then (Insert(db, row), GotToken(row)) else (db, Refused)
    case FindToken(hash) =>
      var found := Lookup(db.tokens, hash);
      (db, if found.None? then Missing else GotToken(found.value))
    case RevokeTokens(sel, now) =>
      (db.(tokens := Revoke(db.tokens, sel, now)),
       if sel.ById? && !exists t :: t in db.tokens && t.id == sel.id && t.Active() then Missing else Done)
    case AddUser(u) =>
      if Taken(db.users, u) then (db, Refused)
      else (CreateUser(db, u), GotUser(u))
    case FindUser(email) =>
      var found := UserByEmail(db.users, email);
      (db, if found.None? then Missing else GotUser(found.value))
    case PatchUser(id, p, at) =>
      if id !in UserIds(db.users) then (db, Missing)
      else if !PatchAllowed(db.users, id, p) then (db, Refused)
      else
        var after := UpdateUser(db, id, p, at);
        var stored := UserById(after.users, id);
        (after, if stored.None? then Missing else GotUser(stored.value))
    case DropUser(id) => (DeleteUser(db, id), Done)
  }

  /** The queries run a statement: what they make of the tables, and the row or the error they
      report, is what `Execute` says. */
  method Perform(q: Database, s: Stmt) returns (reply: StmtReply)
    modifies q
    ensures (q.Contents(), reply) == Execute(old(q.Contents()), s)
  {
    match s
    case CreateToken(user, hash, chain, expiresAt, id, now) =>
      var a := q.CreateRefreshToken(user, hash, chain, expiresAt, Applied, id, now);
      reply := if a.Row? then GotToken(a.value) else Refused;
    case FindToken(hash) =>
      var a := q.GetRefreshTokenByHash(hash, true);
      reply := if a.Row? then GotToken(a.value) else Missing;
    case RevokeTokens(ById(id), now) =>
      var a := q.RevokeRefreshToken(id, Applied, now);
      reply := if a.Row? then Done else Missing;
    case RevokeTokens(ByChain(chain), now) =>
      var _ := q.RevokeChain(chain, Applied, now);
      reply := Done;
    case RevokeTokens(ByUser(user), now) =>
      var _ := q.RevokeAllForUser(user, Applied, now);
      reply := Done;
    case AddUser(u) =>
      CreateTakesEffect(q.Contents(), u);
      var a := q.CreateUser(u, Applied);
      reply := if a.Row? then GotUser(a.value) else Refused;
    case FindUser(email) =>
      var a := q.GetUserByEmail(email, true);
      reply := if a.Row? then GotUser(a.value) else Missing;
    case PatchUser(id, p, at) =>
      PatchTakesEffect(q.Contents(), id, p, at);
      var a := q.UpdateUser(id, p, at, Applied);
      reply := if a.Row? then GotUser(a.value) else if a.NoRows? then Missing else Refused;
    case DropUser(id) =>
      var _ := q.DeleteUser(id, Applied);
      reply := Done;
  }

  /** One statement after another, outside any transaction. */
  function RunAll(db: Store, stmts: seq<Stmt>): (r: (Store, seq<StmtReply>))
    ensures |r.1| == |stmts|
    decreases |stmts|
  {
    if stmts == [] then (db, [])
    else
      var n := |stmts| - 1;
      var (before, replies) := RunAll(db, stmts[..n]);
      var (after, reply) := Execute(before, stmts[n]);
      (after, replies + [reply])
  }

  /** What the caller's function does next, given the answers it has had so far. */
  datatype Move = Issue(stmt: Stmt) | Return | ReturnError(error: Error) | Panic(value: string)

  datatype Error = Leaf(text: string) | Wrap(prefix: string, cause: Error) | Join(first: Error, second: Error)

  /** errors.Is */
  predicate Is(e: Error, target: Error) {
    e == target ||
    match e
    case Leaf(_) => false
    case Wrap(_, cause) => Is(cause, target)
    case Join(first, second) => Is(first, target) || Is(second, target)
  }

  datatype Outcome = Nil | Err(error: Error) | Panicked(value: string)

  /** Which of the driver's own calls fail, and what becomes of the commit. */
  datatype TxEnv = TxEnv(begins: bool, answered: nat -> bool, rollbackFails: bool, commit: Fate)

  const DRIVER := Leaf("driver")

  /** The transaction's view of the tables; once a statement has failed it only rolls back. */
  datatype Tx = Tx(work: Store, aborted: bool)

  function InTx(tx: Tx, s: Stmt, answered: bool): (Tx, StmtReply) {
    var (after, reply) := Execute(tx.work, s);
    if tx.aborted || !answered || reply.Refused? then (tx.(aborted := true), Refused)
    else (Tx(after, false), reply)
  }

  /** The token statements, spelled out: a row is stored and answered unless it conflicts; a lookup
      answers the row that has the digest; after an UPDATE no row it is about is in service. */
  lemma TokenStatements(db: Store, s: Stmt)
    ensures
      var (after, reply) := Execute(db, s);
      match s
      case CreateToken(user, hash, chain, expiresAt, id, now) =>
        var row := Token(id, user, hash, chain, None, expiresAt, now, now);
        if Conflicts(db, row) then after == db && reply == Refused
        else after == Store(db.users, db.tokens + [row]) && reply == GotToken(row)
      case FindToken(hash) =>
        && after == db
        && (reply.GotToken? ==> reply.token in db.tokens && reply.token.hash == hash)
        && (!reply.GotToken? ==> reply == Missing && forall t | t in db.tokens :: t.hash != hash)
      case RevokeTokens(sel, now) =>
        && after == AuthSpec.RevokeStatement(db, sel, Applied, now)
        && forall t | t in after.tokens && sel.Picks(t) :: !t.Active()
      case _ => true
  {
    if s.CreateToken? {
      InsertTakesEffect(db, Token(s.rowId, s.user, s.hash, s.chain, None, s.expiresAt, s.createdAt, s.createdAt));
    }
  }

  /** And those about users. */
  lemma UserStatements(db: Store, s: Stmt)
    ensures
      var (after, reply) := Execute(db, s);
      match s
      case AddUser(u) =>
        if Taken(db.users, u) then after == db && reply == Refused
        else after == Store(db.users + [u], db.tokens) && reply == GotUser(u)
      case FindUser(email) =>
        && after == db
        && (reply.GotUser? ==> reply.found in db.users && reply.found.email == email)
        && (!reply.GotUser? ==> reply == Missing && forall u | u in db.users :: u.email != email)
      case PatchUser(id, p, at) =>
        if forall u | u in db.users :: u.id != id then after == db && reply == Missing
        else if EmailTaken(db.users, id, p) then after == db && reply == Refused
        else exists i :: 0 <= i < |db.users| == |after.users| && db.users[i].id == id
               && reply == GotUser(after.users[i]) && Patched(db.users[i], after.users[i], p, at)
      case DropUser(id) =>
        && reply == Done
        && (forall u :: u in after.users <==> u in db.users && u.id != id)
        && (forall t :: t in after.tokens <==> t in db.tokens && t.userId != id)
      case _ => true
  {
    match s
    case AddUser(u) => CreateTakesEffect(db, u);
    case PatchUser(id, p, at) =>
      PatchTakesEffect(db, id, p, at);
      if id in UserIds(db.users) && !EmailTaken(db.users, id, p) {
        var i := PatchIsFound(db, id, p, at);
      }
    case _ =>
  }

  type Body = seq<StmtReply> -> Move

  /** The body stops by itself after at most `bound` statements. */
  ghost predicate Finite(fn: Body, bound: nat) {
    forall replies: seq<StmtReply> | |replies| >= bound :: !fn(replies).Issue?
  }

  /** The statements a body has issued when it has had these answers. */
  function IssuedStmts(fn: Body, replies: seq<StmtReply>): seq<Stmt>
    decreases |replies|
  {
    if replies == [] then []
    else
      var before := replies[..|replies| - 1];
      IssuedStmts(fn, before) + if fn(before).Issue? then [fn(before).stmt] else []
  }

  /** The body has issued a statement for each of these answers, and was told right: an error if the
      driver failed, or the statement was refused, or one before it was; otherwise what the statement
      answers after those run before it. */
  ghost predicate Conversation(fn: Body, db: Store, replies: seq<StmtReply>, answered: nat -> bool)
    decreases |replies|
  {
    replies == [] ||
    var n := |replies| - 1;
    var before := replies[..n];
    && Conversation(fn, db, before, answered)
    && fn(before).Issue?
    && replies[n] == (if Refused in before || !answered(n) then Refused
                      else Execute(RunAll(db, IssuedStmts(fn, before)).0, fn(before).stmt).1)
  }

  /** The state of a transaction in which these answers were given. */
  ghost predicate Underway(fn: Body, db: Store, tx: Tx, replies: seq<StmtReply>) {
    && (!tx.aborted ==> RunAll(db, IssuedStmts(fn, replies)) == (tx.work, replies))
    && (tx.aborted <==> Refused in replies)
    && (Valid(db) ==> Valid(tx.work))
  }

  lemma ExecuteKeepsValid(db: Store, s: Stmt)
    requires Valid(db)
    ensures Valid(Execute(db, s).0)
  {
    match s
    case CreateToken(user, hash, chain, expiresAt, id, now) =>
      InsertKeepsValid(db, NewToken(id, user, hash, chain, expiresAt, now));
    case RevokeTokens(sel, now) => RevokeKeepsValid(db, sel, now);
    case AddUser(u) => CreateUserKeepsValid(db, u);
    case PatchUser(id, p, at) => UpdateUserKeepsValid(db, id, p, at);
    case DropUser(id) => DeleteUserKeepsValid(db, id);
    case _ =>
  }

  lemma TransactionGoesOn(fn: Body, db: Store, tx: Tx, replies: seq<StmtReply>, answered: bool)
    requires Underway(fn, db, tx, replies) && fn(replies).Issue?
    ensures
      var (next, reply) := InTx(tx, fn(replies).stmt, answered);
      Underway(fn, db, next, replies + [reply])
  {
    var stmt, stmts := fn(replies).stmt, IssuedStmts(fn, replies);
    var (next, reply) := InTx(tx, stmt, answered);
    assert (replies + [reply])[..|replies|] == replies;
    assert (stmts + [stmt])[..|stmts|] == stmts;
    if Valid(tx.work) {
      ExecuteKeepsValid(tx.work, stmt);
    }
  }

  lemma ConversationGoesOn(fn: Body, db: Store, tx: Tx, replies: seq<StmtReply>, answered: nat -> bool)
    requires Conversation(fn, db, replies, answered) && Underway(fn, db, tx, replies) && fn(replies).Issue?
    ensures
      var (next, reply) := InTx(tx, fn(replies).stmt, answered(|replies|));
      Conversation(fn, db, replies + [reply], answered) && Underway(fn, db, next, replies + [reply])
  {
    var (next, reply) := InTx(tx, fn(replies).stmt, answered(|replies|));
    assert (replies + [reply])[..|replies|] == replies;
    TransactionGoesOn(fn, db, tx, replies, answered(|replies|));
  }

  /** errors.Is finds an error in itself, below every wrapping and in both parts of a join, and
      nowhere else. */
  lemma IsExactly(e: Error, target: Error)
    ensures Is(e, target) <==>
              || e == target
              || (e.Wrap? && Is(e.cause, target))
              || (e.Join? && (Is(e.first, target) || Is(e.second, target)))
  {
  }

  /** A transaction under way: a working copy of the tables, which the queries run against. */
  class Transaction {
    const work: Database
    var aborted: bool

    ghost function State(): Tx
      reads this, work
    {
      Tx(work.Contents(), aborted)
    }

    constructor (users: seq<User>, tokens: seq<Token>)
      ensures State() == Tx(Store(users, tokens), false) && fresh(work)
    {
      work := new Database.Begin(users, tokens);
      aborted := false;
    }

    /** Once a statement has failed, every later one does. */
    method Exec(s: Stmt, answered: bool) returns (reply: StmtReply)
      modifies this, work
      ensures (State(), reply) == InTx(old(State()), s, answered)
    {
      reply := Refused;
      if !aborted && answered {
        reply := Perform(work, s);
      }
      aborted := reply.Refused?;
    }

    /** The body runs, one statement after another, until it stops by itself. */
    method Converse(fn: Body, ghost db: Store, ghost bound: nat, answered: nat -> bool)
      returns (replies: seq<StmtReply>)
      requires Finite(fn, bound) && State() == Tx(db, false)
      modifies this, work
      ensures !fn(replies).Issue?
      ensures Conversation(fn, db, replies, answered) && Underway(fn, db, State(), replies)
    {
      replies := [];
      while fn(replies).Issue?
        invariant |replies| <= bound
        invariant Conversation(fn, db, replies, answered) && Underway(fn, db, State(), replies)
        decreases bound - |replies|
      {
        ConversationGoesOn(fn, db, State(), replies, answered);
        var reply := Exec(fn(replies).stmt, answered(|replies|));
        replies := replies + [reply];
      }
    }
  }

  class Repositories {
    const q: Database

    constructor (q: Database)
      ensures this.q == q
    {
      this.q := q;
    }

    /** `replies` is what the body had been told when it stopped. A nil result means that the
        tables are exactly what its statements make of them one after another, none of them
        refused. Any other result leaves the tables as they were, unless the commit took effect
        and its acknowledgement was lost. The body's own error is in the returned chain. */
    method WithTx(fn: Body, ghost bound: nat, env: TxEnv) returns (o: Outcome, replies: seq<StmtReply>)
      requires Finite(fn, bound)
      modifies q
      ensures Conversation(fn, old(q.Contents()), replies, env.answered)
      ensures o.Nil? <==> env.begins && fn(replies).Return? && Refused !in replies && env.commit.Applied?
      ensures
        if env.begins && fn(replies).Return? && Refused !in replies && !env.commit.Dropped?
        then (q.Contents(), replies) == RunAll(old(q.Contents()), IssuedStmts(fn, replies))
        else q.Contents() == old(q.Contents())
      ensures Valid(old(q.Contents())) ==> Valid(q.Contents())
      ensures env.begins ==> !fn(replies).Issue?
      ensures env.begins && fn(replies).ReturnError? ==>
                && o.Err? && Is(o.error, fn(replies).error)
                && o.error == if env.rollbackFails then Join(fn(replies).error, Wrap("rollback", DRIVER))
                              else fn(replies).error
      ensures env.begins && fn(replies).Return? && !o.Nil? ==> o == Err(Wrap("commit", DRIVER))
      ensures !env.begins ==> o == Err(Wrap("begin tx", DRIVER)) && replies == []
      ensures env.begins && fn(replies).Panic? ==> o == Panicked(fn(replies).value)
      ensures o.Panicked? ==> env.begins && fn(replies).Panic?
    {
      replies := [];
      if !env.begins {
        return Err(Wrap("begin tx", DRIVER)), [];
      }
      var tx := new Transaction(q.users, q.tokens);
      replies := tx.Converse(fn, q.Contents(), bound, env.answered);
      match fn(replies)
      case Panic(value) =>
        o := Panicked(value);
      case ReturnError(error) =>
        o := Err(if env.rollbackFails then Join(error, Wrap("rollback", DRIVER)) else error);
      case Return =>
        if !tx.aborted && !env.commit.Dropped? {
          q.users, q.tokens := tx.work.users, tx.work.tokens;
        }
        o := if tx.aborted || !env.commit.Applied? then Err(Wrap("commit", DRIVER)) else Nil;
    }
  }
}
