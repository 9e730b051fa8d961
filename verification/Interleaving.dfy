/** The calls of the auth service as processes that interleave: every SQL statement is one
    atomic step, every step may be the last one its process takes, and any number of processes
    run side by side with users coming and going. */
module Interleaving {
  import opened Schema
  import Jwt

  datatype Config = Config(signer: Jwt.Signer, refreshTTL: Time)

  /** Why a pair is being issued: a login, a refresh whose revoking UPDATE matched the row, or
      a refresh whose UPDATE matched nothing, which the repository reports as success. */
  datatype Origin = Opened | Spent(row: Uuid) | Missed(row: Uuid)

  datatype Outcome =
    | Issued(user: Uuid, chain: Uuid, origin: Origin, row: Uuid, access: Jwt.AccessToken)
    | Reuse(chain: Uuid)
    | Expired
    | Unknown
    | LoggedOut
    | Failed

  /** Where a process stands: the statement it runs next and the values it has read. */
  datatype Pc =
    | LoginLookup
    | RefreshLookup(hash: Digest)
    | RefreshDecide(read: Token)
    | RefreshKill(chain: Uuid)
    | RefreshRevoke(read: Token)
    | IssuePrepare(user: Uuid, chain: Uuid, origin: Origin)
    | IssueInsert(user: Uuid, chain: Uuid, origin: Origin, hash: Digest, expiresAt: Time)
    | IssueSign(user: Uuid, chain: Uuid, origin: Origin, row: Uuid)
    | LogoutLookup(hash: Digest)
    | LogoutRevoke(read: Token)
    | LogoutAllRevoke(user: Uuid)
    | Done(outcome: Outcome)
  {
    predicate Initial() {
      LoginLookup? || RefreshLookup? || LogoutLookup? || LogoutAllRevoke?
    }

    /** The chain whose next row the process is about to write. */
    predicate Pending() { IssuePrepare? || IssueInsert? }
  }

  /** The tables, the processes ever started, and history: which chain was opened for whom,
      every row as it was inserted, every digest drawn, every user id, the chains of UPDATEs
      of a refresh that matched nothing, and the chains that lost an active row or a pending
      insert for any reason other than a rotation. */
  datatype State = State(
    now: Time, db: Store, procs: seq<Pc>,
    owner: map<Uuid, Uuid>, inserted: map<Uuid, Token>, drawn: set<Digest>, userIds: set<Uuid>,
    lost: multiset<Uuid>, burned: multiset<Uuid>)

  /** The fresh values a step may need. */
  datatype Pick = Pick(user: Uuid, chain: Uuid, hash: Digest, row: Uuid)

  datatype Action =
    | Tick(delay: nat)
    | Spawn(pc: Pc)
    | Advance(i: nat, pick: Pick)
    | Abort(j: nat)
    | AddUser(newUser: User)
    | PatchUser(id: Uuid, patch: Patch)
    | DropUser(gone: Uuid)

  ghost predicate Enabled(s: State, a: Action) {
    match a
    case Tick(_) => true
    case Spawn(pc) => pc.Initial()
    case Advance(i, pick) =>
      && i < |s.procs| && !s.procs[i].Done?
      && (s.procs[i].LoginLookup? ==> pick.user in UserIds(s.db.users) && pick.chain !in s.owner)
      && (s.procs[i].IssuePrepare? ==> pick.hash !in s.drawn)
      && (s.procs[i].IssueInsert? ==> pick.row !in s.inserted)
    case Abort(i) => i < |s.procs| && !s.procs[i].Done?
    case AddUser(u) => u.id !in s.userIds
    case PatchUser(_, _) => true
    case DropUser(_) => true
  }

  /** The chains of the rows an UPDATE (or a cascading DELETE) takes out of service. */
  function Matched(tokens: seq<Token>, sel: Selector): multiset<Uuid> {
    if tokens == [] then multiset{}
    else
      var n := |tokens| - 1;
      Matched(tokens[..n], sel)
      + (if tokens[n].Active() && sel.Picks(tokens[n]) then multiset{tokens[n].chainId} else multiset{})
  }

  predicate ActiveRow(tokens: seq<Token>, id: Uuid) {
    exists t :: t in tokens && t.id == id && t.Active()
  }

  /** What one step does outside its process. */
  datatype Write =
    | Nothing
    | Wait(delay: nat)
    | Open(chain: Uuid, user: Uuid)
    | Draw(hash: Digest)
    | Kill(sel: Selector)
    | Spend(read: Token)
    | Append(row: Token)
    | Waste(chain: Uuid)
    | Create(newUser: User)
    | Change(id: Uuid, patch: Patch)
    | Cascade(gone: Uuid)

  function Apply(s: State, w: Write): State {
    match w
    case Nothing => s
    case Wait(delay) => s.(now := s.now + delay)
    case Open(chain, user) => s.(owner := s.owner[chain := user])
    case Draw(hash) => s.(drawn := s.drawn + {hash})
    case Kill(sel) =>
      s.(db := s.db.(tokens := Revoke(s.db.tokens, sel, s.now)), burned := s.burned + Matched(s.db.tokens, sel))
    case Spend(read) =>
      s.(db := s.db.(tokens := Revoke(s.db.tokens, ById(read.id), s.now)),
         lost := if ActiveRow(s.db.tokens, read.id) then s.lost else s.lost + multiset{read.chainId})
    case Append(row) => s.(db := Insert(s.db, row), inserted := s.inserted[row.id := row])
    case Waste(chain) => s.(burned := s.burned + multiset{chain})
    case Create(u) => s.(db := CreateUser(s.db, u), userIds := s.userIds + {u.id})
    case Change(id, patch) => s.(db := UpdateUser(s.db, id, patch, s.now))
    case Cascade(user) =>
      s.(db := DeleteUser(s.db, user), burned := s.burned + Matched(s.db.tokens, ByUser(user)))
  }

  datatype Effect = Effect(write: Write, pc: Pc)

  /** One statement of a process at `pc`. */
  function Statement(cfg: Config, s: State, pc: Pc, pick: Pick): Effect {
    match pc
    case LoginLookup => Effect(Open(pick.chain, pick.user), IssuePrepare(pick.user, pick.chain, Opened))
    case RefreshLookup(hash) =>
      var found := Lookup(s.db.tokens, hash);
      Effect(Nothing, if found.None? then Done(Unknown) else RefreshDecide(found.value))
    case RefreshDecide(read) =>
      Effect(Nothing, if !read.Active() then RefreshKill(read.chainId)
                      else if s.now > read.expiresAt then Done(Expired)
                      else RefreshRevoke(read))
    case RefreshKill(chain) => Effect(Kill(ByChain(chain)), Done(Reuse(chain)))
    case RefreshRevoke(read) =>
      var origin := if ActiveRow(s.db.tokens, read.id) then Spent(read.id) else Missed(read.id);
      Effect(Spend(read), IssuePrepare(read.userId, read.chainId, origin))
    case IssuePrepare(user, chain, origin) =>
      Effect(Draw(pick.hash), IssueInsert(user, chain, origin, pick.hash, s.now + cfg.refreshTTL))
    case IssueInsert(user, chain, origin, hash, expiresAt) =>
      var row := NewToken(pick.row, user, hash, chain, expiresAt, s.now);
      if Insertable(s.db, row) then Effect(Append(row), IssueSign(user, chain, origin, row.id))
      else Effect(Waste(chain), Done(Failed))
    case IssueSign(user, chain, origin, row) =>
      Effect(Nothing, Done(Issued(user, chain, origin, row, Jwt.Sign(cfg.signer, user, chain, s.now))))
    case LogoutLookup(hash) =>
      var found := Lookup(s.db.tokens, hash);
      Effect(Nothing, if found.None? then Done(LoggedOut) else LogoutRevoke(found.value))
    case LogoutRevoke(read) => Effect(Kill(ById(read.id)), Done(LoggedOut))
    case LogoutAllRevoke(user) => Effect(Kill(ByUser(user)), Done(LoggedOut))
    case Done(_) => Effect(Nothing, pc)
  }

  /** A process stops for good, with an error or because it was cut off. */
  function Stop(pc: Pc): Effect {
    Effect(if pc.Pending() then Waste(pc.chain) else Nothing, Done(Failed))
  }

  function Perform(s: State, i: nat, e: Effect): State
    requires i < |s.procs|
  {
    Apply(s, e.write).(procs := s.procs[i := e.pc])
  }

  function Next(cfg: Config, s: State, a: Action): State {
    match a
    case Tick(delay) => Apply(s, Wait(delay))
    case Spawn(pc) => s.(procs := s.procs + [pc])
    case Advance(i, pick) => if i < |s.procs| then Perform(s, i, Statement(cfg, s, s.procs[i], pick)) else s
    case Abort(i) => if i < |s.procs| then Perform(s, i, Stop(s.procs[i])) else s
    case AddUser(u) => Apply(s, Create(u))
    case PatchUser(id, patch) => Apply(s, Change(id, patch))
    case DropUser(id) => Apply(s, Cascade(id))
  }

  // ---------- runs ----------

  function Run(cfg: Config, s: State, acts: seq<Action>): State
    decreases |acts|
  {
    if acts == [] then s else Run(cfg, Next(cfg, s, acts[0]), acts[1..])
  }

  ghost predicate Schedulable(cfg: Config, s: State, acts: seq<Action>)
    decreases |acts|
  {
    acts == [] || (Enabled(s, acts[0]) && Schedulable(cfg, Next(cfg, s, acts[0]), acts[1..]))
  }

  const START := State(0, Store([], []), [], map[], map[], {}, {}, multiset{}, multiset{})

  // ---------- conservation ----------

  function ActiveOn(tokens: seq<Token>, c: Uuid): nat {
    if tokens == [] then 0
    else
      var n := |tokens| - 1;
      ActiveOn(tokens[..n], c) + if tokens[n].Active() && tokens[n].chainId == c then 1 else 0
  }

  function Claim(pc: Pc, c: Uuid): nat {
    if pc.Pending() && pc.chain == c then 1 else 0
  }

  function PendingOn(procs: seq<Pc>, c: Uuid): nat {
    if procs == [] then 0
    else
      var n := |procs| - 1;
      PendingOn(procs[..n], c) + Claim(procs[n], c)
  }

  /** Rows in service and losses booked, against the allowances given. */
  function Stock(s: State, c: Uuid): nat {
    ActiveOn(s.db.tokens, c) + s.burned[c]
  }

  function Allowance(s: State, c: Uuid): nat {
    (if c in s.owner then 1 else 0) + s.lost[c]
  }

  /** On one chain: active rows and pending inserts, plus what was burned, are the one
      allowance the login gave, plus one for every revoke that matched nothing. */
  ghost predicate Balanced(s: State, c: Uuid) {
    Stock(s, c) + PendingOn(s.procs, c) == Allowance(s, c)
  }

  ghost predicate Conserved(s: State) {
    forall c: Uuid :: Balanced(s, c)
  }

  lemma {:induction false} RevokeBurns(tokens: seq<Token>, sel: Selector, now: Time, c: Uuid)
    ensures ActiveOn(Revoke(tokens, sel, now), c) + Matched(tokens, sel)[c] == ActiveOn(tokens, c)
  {
    if tokens != [] {
      var n := |tokens| - 1;
      var after := Revoke(tokens, sel, now);
      RevokeBurns(tokens[..n], sel, now, c);
      assert after[..n] == Revoke(tokens[..n], sel, now);
      assert ActiveOn(after, c)
          == ActiveOn(after[..n], c) + if after[n].Active() && after[n].chainId == c then 1 else 0;
    }
  }

  lemma {:induction false} DeleteBurns(tokens: seq<Token>, user: Uuid, c: Uuid)
    ensures ActiveOn(Surviving(tokens, user), c) + Matched(tokens, ByUser(user))[c] == ActiveOn(tokens, c)
  {
    if tokens != [] {
      var n := |tokens| - 1;
      DeleteBurns(tokens[..n], user, c);
      var rest := Surviving(tokens[..n], user);
      if tokens[n].userId == user {
        assert Surviving(tokens, user) == rest;
      } else {
        AppendActive(rest, tokens[n], c);
      }
    }
  }

  lemma {:induction false} MatchedById(tokens: seq<Token>, id: Uuid, chain: Uuid)
    requires TokensUnique(tokens)
    requires forall t | t in tokens && t.id == id :: t.chainId == chain
    ensures forall c :: Matched(tokens, ById(id))[c] == if c == chain && ActiveRow(tokens, id) then 1 else 0
  {
    if tokens != [] {
      var n := |tokens| - 1;
      MatchedById(tokens[..n], id, chain);
      assert tokens == tokens[..n] + [tokens[n]];
    }
  }

  lemma {:induction false} PendingUpdate(procs: seq<Pc>, i: nat, pc: Pc, c: Uuid)
    requires i < |procs|
    ensures PendingOn(procs[i := pc], c) + Claim(procs[i], c) == PendingOn(procs, c) + Claim(pc, c)
  {
    var n := |procs| - 1;
    if i == n {
      assert procs[i := pc][..n] == procs[..n];
    } else {
      PendingUpdate(procs[..n], i, pc, c);
      assert procs[i := pc][..n] == procs[..n][i := pc];
    }
  }

  lemma AppendActive(tokens: seq<Token>, t: Token, c: Uuid)
    ensures ActiveOn(tokens + [t], c) == ActiveOn(tokens, c) + if t.Active() && t.chainId == c then 1 else 0
  {
  }

  lemma AppendPending(procs: seq<Pc>, pc: Pc, c: Uuid)
    ensures PendingOn(procs + [pc], c) == PendingOn(procs, c) + Claim(pc, c)
  {
  }

  // ---------- the balance of one step ----------

  /** What a write lets its process claim, and what it costs it. */
  function Grant(w: Write, c: Uuid): nat {
    match w
    case Open(chain, _) => if chain == c then 1 else 0
    case Spend(read) => if read.chainId == c then 1 else 0
    case _ => 0
  }

  function Cost(w: Write, c: Uuid): nat {
    match w
    case Append(row) => if row.chainId == c then 1 else 0
    case Waste(chain) => if chain == c then 1 else 0
    case _ => 0
  }

  /** What a write must respect for the balance to hold. */
  ghost predicate Fair(s: State, w: Write) {
    match w
    case Open(chain, _) => chain !in s.owner
    case Spend(read) => forall t | t in s.db.tokens && t.id == read.id :: t.chainId == read.chainId
    case Append(row) => row.Active() && Insertable(s.db, row)
    case _ => true
  }

  lemma SpendStock(s: State, read: Token, c: Uuid)
    requires TokensUnique(s.db.tokens) && Fair(s, Spend(read))
    ensures
      var after := Apply(s, Spend(read));
      Stock(after, c) + Allowance(s, c) + Grant(Spend(read), c) == Stock(s, c) + Allowance(after, c)
  {
    var matched := Matched(s.db.tokens, ById(read.id))[c];
    RevokeBurns(s.db.tokens, ById(read.id), s.now, c);
    MatchedById(s.db.tokens, read.id, read.chainId);
    assert matched == if c == read.chainId && ActiveRow(s.db.tokens, read.id) then 1 else 0;
  }

  lemma WriteBalances(s: State, w: Write, c: Uuid)
    requires TokensUnique(s.db.tokens) && Fair(s, w)
    ensures
      var after := Apply(s, w);
      Stock(after, c) + Allowance(s, c) + Grant(w, c) == Stock(s, c) + Allowance(after, c) + Cost(w, c)
  {
    match w
    case Kill(sel) => RevokeBurns(s.db.tokens, sel, s.now, c);
    case Spend(read) => SpendStock(s, read, c);
    case Append(row) => AppendActive(s.db.tokens, row, c);
    case Cascade(user) => DeleteBurns(s.db.tokens, user, c);
    case _ =>
  }

  lemma EffectBalances(s: State, i: nat, e: Effect, c: Uuid)
    requires TokensUnique(s.db.tokens) && Balanced(s, c) && i < |s.procs| && Fair(s, e.write)
    requires Claim(e.pc, c) + Cost(e.write, c) == Claim(s.procs[i], c) + Grant(e.write, c)
    ensures Balanced(Perform(s, i, e), c)
  {
    WriteBalances(s, e.write, c);
    PendingUpdate(s.procs, i, e.pc, c);
  }

  lemma ClaimsAreGranted(cfg: Config, s: State, pc: Pc, pick: Pick, c: Uuid)
    ensures
      var e := Statement(cfg, s, pc, pick);
      Claim(e.pc, c) + Cost(e.write, c) == Claim(pc, c) + Grant(e.write, c)
  {
  }
}
