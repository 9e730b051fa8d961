/** Every run of whole calls, failing calls included, is a run of the session automaton. */
module Refinement {
  import opened Schema
  import opened Constraints
  import opened AuthSpec
  import opened Sessions
  import Base64Url
  import Jwt

  // ---------- each statement keeps the constraints ----------

  lemma RevokeKeepsInv(db: Store, sel: Selector, now: Time)
    requires Inv(db)
    ensures Inv(db.(tokens := Revoke(db.tokens, sel, now)))
  {
  }

  lemma {:induction false} SurvivingKeepsOrder(tokens: seq<Token>, user: Uuid)
    requires ChainsInOrder(tokens)
    ensures ChainsInOrder(Surviving(tokens, user))
  {
    if tokens != [] {
      var n := |tokens| - 1;
      var last := tokens[n];
      SurvivingKeepsOrder(tokens[..n], user);
      forall t | t in Surviving(tokens[..n], user)
        ensures t.chainId == last.chainId ==> t.userId == last.userId && !t.Active()
      {
        var i :| 0 <= i < n && tokens[i] == t;
      }
    }
  }

  lemma InsertKeepsInv(db: Store, t: Token)
    requires Inv(db)
    requires forall r | r in db.tokens && r.chainId == t.chainId :: r.userId == t.userId && !r.Active()
    ensures Inv(Insert(db, t))
  {
  }

  // ---------- one call ----------

  lemma InsertRefines(db: Store, t: Token, past: seq<Digest>)
    requires Inv(db) && t.userId in UserIds(db.users) && t.id !in TokenIds(db.tokens)
    requires forall r | r in db.tokens && r.chainId == t.chainId :: r.userId == t.userId && !r.Active()
    requires past == if t.chainId in Abs(db.tokens) then Abs(db.tokens)[t.chainId].history else []
    ensures Inv(Insert(db, t))
    ensures Insertable(db, t) <==> Holder(Abs(db.tokens), t.hash).None?
    ensures Insertable(db, t) ==>
              Abs(Insert(db, t).tokens)
              == Abs(db.tokens)[t.chainId := Session(t.userId, past + [t.hash], t.Active(), t.expiresAt)]
  {
    HolderIsChain(db.tokens, t.hash);
    InsertKeepsInv(db, t);
    AbsAppend(db.tokens, t);
  }

  lemma PairSpelledOut(cfg: Config, db: Store, user: Uuid, chain: Uuid, e: Issue, row: Token)
    requires NewDigest(cfg, e) == Some(row.hash)
    requires row == NewToken(e.rowId, user, row.hash, chain, e.preparedAt + cfg.refreshTTL, e.createdAt)
    ensures
      var (after, reply) := IssuePair(cfg, db, user, chain, e);
      && after == (if e.create.Dropped? then db else Insert(db, row))
      && reply == (if Insertable(db, row) && e.create.Applied? && e.signs
                   then Tokens(Jwt.Sign(cfg.signer, user, chain, e.signedAt),
                               Base64Url.GenerateRefreshToken(e.entropy).value)
                   else Failed)
  {
  }

  lemma MintSpelledOut(cfg: Config, m: Ledger, user: Uuid, chain: Uuid, past: seq<Digest>, e: Issue, h: Digest)
    requires NewDigest(cfg, e) == Some(h)
    ensures
      var (after, reply) := Mint(cfg, m, user, chain, past, e);
      var stored := !e.create.Dropped? && Holder(m, h).None?;
      && after == (if stored then m[chain := Session(user, past + [h], true, e.preparedAt + cfg.refreshTTL)] else m)
      && reply == (if stored && e.create.Applied? && e.signs
                   then Tokens(Jwt.Sign(cfg.signer, user, chain, e.signedAt),
                               Base64Url.GenerateRefreshToken(e.entropy).value)
                   else Failed)
  {
  }

  lemma IssueRefines(cfg: Config, db: Store, user: Uuid, chain: Uuid, past: seq<Digest>, e: Issue)
    requires Inv(db) && user in UserIds(db.users) && e.rowId !in TokenIds(db.tokens)
    requires forall r | r in db.tokens && r.chainId == chain :: r.userId == user && !r.Active()
    requires past == if chain in Abs(db.tokens) then Abs(db.tokens)[chain].history else []
    ensures Inv(IssuePair(cfg, db, user, chain, e).0)
    ensures
      var (after, reply) := IssuePair(cfg, db, user, chain, e);
      (Abs(after.tokens), reply) == Mint(cfg, Abs(db.tokens), user, chain, past, e)
  {
    var h := NewDigest(cfg, e);
    if h.Some? {
      var row := NewToken(e.rowId, user, h.value, chain, e.preparedAt + cfg.refreshTTL, e.createdAt);
      InsertRefines(db, row, past);
      PairSpelledOut(cfg, db, user, chain, e, row);
      MintSpelledOut(cfg, Abs(db.tokens), user, chain, past, e, h.value);
    }
  }

  lemma KillHolding(m: Ledger, c: Uuid, h: Digest)
    requires c in m && forall d | d in m && d != c :: h !in m[d].history
    ensures Kill(m, Holding(h)) == if m[c].Newest(h) then m[c := m[c].Killed()] else m
  {
  }

  /** The row with a given id is the row with its hash, before and after any revocation. */
  lemma RevokeByIdRefines(tokens: seq<Token>, row: Token, now: Time)
    requires TokensUnique(tokens) && row in tokens
    ensures
      var m := Abs(tokens);
      var c := row.chainId;
      c in m && Abs(Revoke(tokens, ById(row.id), now)) == if m[c].Newest(row.hash) then m[c := m[c].Killed()] else m
  {
    var m, c := Abs(tokens), row.chainId;
    AbsRevoke(tokens, ById(row.id), Holding(row.hash), now);
    AbsHistories(tokens);
    forall d | d in m && d != c ensures row.hash !in m[d].history {
    }
    KillHolding(m, c, row.hash);
  }

  lemma RevokeChainRefines(tokens: seq<Token>, chain: Uuid, now: Time)
    requires chain in Abs(tokens)
    ensures Abs(Revoke(tokens, ByChain(chain), now)) == Abs(tokens)[chain := Abs(tokens)[chain].Killed()]
  {
    AbsRevoke(tokens, ByChain(chain), Everything(chain), now);
  }

  lemma SpentChainIsQuiet(db: Store, row: Token, now: Time)
    requires Inv(db) && row in db.tokens && row.Active()
    ensures forall r | r in Revoke(db.tokens, ById(row.id), now) && r.chainId == row.chainId ::
              r.userId == row.userId && !r.Active()
  {
  }

  lemma RevokeKeepsIds(tokens: seq<Token>, sel: Selector, now: Time)
    ensures TokenIds(Revoke(tokens, sel, now)) == TokenIds(tokens)
  {
  }

  lemma RotationRefines(cfg: Config, db: Store, row: Token, e: Env)
    requires Inv(db) && e.issue.rowId !in TokenIds(db.tokens) && e.revoke.Applied?
    requires row in db.tokens && row.Active() && row.chainId in Abs(db.tokens)
    ensures
      var s := Abs(db.tokens)[row.chainId];
      var spent := RevokeStatement(db, ById(row.id), e.revoke, e.revokedAt);
      var (after, reply) := IssuePair(cfg, spent, row.userId, row.chainId, e.issue);
      && Inv(after)
      && (Abs(after.tokens), reply)
         == Mint(cfg, Abs(db.tokens)[row.chainId := s.Killed()], row.userId, row.chainId, s.history, e.issue)
  {
    AbsNewest(db.tokens, row);
    RevokeKeepsInv(db, ById(row.id), e.revokedAt);
    RevokeByIdRefines(db.tokens, row, e.revokedAt);
    SpentChainIsQuiet(db, row, e.revokedAt);
    RevokeKeepsIds(db.tokens, ById(row.id), e.revokedAt);
    var spent := RevokeStatement(db, ById(row.id), e.revoke, e.revokedAt);
    IssueRefines(cfg, spent, row.userId, row.chainId, Abs(db.tokens)[row.chainId].history, e.issue);
  }

  lemma ReplayRefines(cfg: Config, db: Store, presented: string, row: Token, e: Env)
    requires Inv(db) && e.readable && Lookup(db.tokens, cfg.digest(presented)) == Some(row) && !row.Active()
    ensures
      var (after, reply) := RefreshCall(cfg, db, presented, e);
      Inv(after) && (Abs(after.tokens), reply) == Present(cfg, Abs(db.tokens), cfg.digest(presented), e)
  {
    HolderIsChain(db.tokens, row.hash);
    AbsNewest(db.tokens, row);
    RevokeKeepsInv(db, ByChain(row.chainId), e.revokedAt);
    RevokeChainRefines(db.tokens, row.chainId, e.revokedAt);
  }

  lemma SpendRefines(cfg: Config, db: Store, presented: string, row: Token, e: Env)
    requires Inv(db) && e.issue.rowId !in TokenIds(db.tokens)
    requires e.readable && Lookup(db.tokens, cfg.digest(presented)) == Some(row)
    requires row.Active() && e.decidedAt <= row.expiresAt
    ensures
      var (after, reply) := RefreshCall(cfg, db, presented, e);
      Inv(after) && (Abs(after.tokens), reply) == Present(cfg, Abs(db.tokens), cfg.digest(presented), e)
  {
    HolderIsChain(db.tokens, row.hash);
    AbsNewest(db.tokens, row);
    if e.revoke.Applied? {
      RotationRefines(cfg, db, row, e);
    } else {
      RevokeKeepsInv(db, ById(row.id), e.revokedAt);
      RevokeByIdRefines(db.tokens, row, e.revokedAt);
    }
  }

  lemma RefreshRefines(cfg: Config, db: Store, presented: string, e: Env)
    requires Inv(db) && e.issue.rowId !in TokenIds(db.tokens)
    ensures Inv(RefreshCall(cfg, db, presented, e).0)
    ensures
      var (after, reply) := RefreshCall(cfg, db, presented, e);
      (Abs(after.tokens), reply) == Present(cfg, Abs(db.tokens), cfg.digest(presented), e)
  {
    var found := Lookup(db.tokens, cfg.digest(presented));
    HolderIsChain(db.tokens, cfg.digest(presented));
    if e.readable && found.Some? {
      var row := found.value;
      AbsNewest(db.tokens, row);
      if !row.Active() {
        ReplayRefines(cfg, db, presented, row, e);
      } else if e.decidedAt <= row.expiresAt {
        SpendRefines(cfg, db, presented, row, e);
      } else {
        assert RefreshCall(cfg, db, presented, e) == (db, Expired);
      }
    }
  }

  lemma LogoutRefines(cfg: Config, db: Store, presented: string, e: Env)
    requires Inv(db)
    ensures
      var (after, reply) := LogoutCall(cfg, db, presented, e);
      Inv(after) && (Abs(after.tokens), reply) == SignOut(Abs(db.tokens), cfg.digest(presented), e)
  {
    var h := cfg.digest(presented);
    HolderIsChain(db.tokens, h);
    if Lookup(db.tokens, h).Some? {
      var row := Lookup(db.tokens, h).value;
      RevokeKeepsInv(db, ById(row.id), e.revokedAt);
      RevokeByIdRefines(db.tokens, row, e.revokedAt);
    }
  }

  /** The commuting square: rows first or sessions first, the ledger and the reply agree. */
  lemma CallRefines(cfg: Config, db: Store, op: Op)
    requires Inv(db) && FreshIds(db, op)
    ensures Inv(Exec(cfg, db, op).0)
    ensures (Abs(Exec(cfg, db, op).0.tokens), Exec(cfg, db, op).1) == Play(cfg, db.users, Abs(db.tokens), op)
  {
    match op
    case Login(email, password, chain, e) =>
      var user := UserByEmail(db.users, email);
      AbsHistories(db.tokens);
      if user.Some? {
        assert user.value.id in UserIds(db.users);
        assert forall r | r in db.tokens :: r.chainId in Chains(db.tokens);
        IssueRefines(cfg, db, user.value.id, chain, [], e.issue);
      }
    case Refresh(presented, e) => RefreshRefines(cfg, db, presented, e);
    case Logout(presented, e) => LogoutRefines(cfg, db, presented, e);
    case LogoutAll(user, e) =>
      RevokeKeepsInv(db, ByUser(user), e.revokedAt);
      AbsRevoke(db.tokens, ByUser(user), Owned(user), e.revokedAt);
    case CreateUser(u) => CreateUserKeepsValid(db, u);
    case UpdateUser(id, patch, now) => UpdateUserKeepsValid(db, id, patch, now);
    case DeleteUser(id) =>
      DeleteUserKeepsValid(db, id);
      SurvivingKeepsOrder(db.tokens, id);
      AbsSurviving(db.tokens, id);
  }

  // ---------- runs ----------

  function Run(cfg: Config, db: Store, ops: seq<Op>): (r: (Store, seq<Reply>))
    ensures |r.1| == |ops|
    decreases |ops|
  {
    if ops == [] then (db, [])
    else
      var (next, reply) := Exec(cfg, db, ops[0]);
      var (end, replies) := Run(cfg, next, ops[1..]);
      (end, [reply] + replies)
  }

  ghost predicate FreshRun(cfg: Config, db: Store, ops: seq<Op>)
    decreases |ops|
  {
    ops == [] || (FreshIds(db, ops[0]) && FreshRun(cfg, Exec(cfg, db, ops[0]).0, ops[1..]))
  }

  /** What the automaton does over a whole run; the users are those the run has at that point. */
  ghost function PlayAll(cfg: Config, db: Store, m: Ledger, ops: seq<Op>): (r: (Ledger, seq<Reply>))
    ensures |r.1| == |ops|
    decreases |ops|
  {
    if ops == [] then (m, [])
    else
      var (next, reply) := Play(cfg, db.users, m, ops[0]);
      var (end, replies) := PlayAll(cfg, Exec(cfg, db, ops[0]).0, next, ops[1..]);
      (end, [reply] + replies)
  }

  /** From any state that meets the constraints (the empty tables do), a run of any calls with
      any failures keeps them, keeps every chain in order, and is a run of the automaton. */
  lemma {:induction false} RunRefines(cfg: Config, db: Store, ops: seq<Op>)
    requires Inv(db) && FreshRun(cfg, db, ops)
    ensures Inv(Run(cfg, db, ops).0)
    ensures (Abs(Run(cfg, db, ops).0.tokens), Run(cfg, db, ops).1) == PlayAll(cfg, db, Abs(db.tokens), ops)
    decreases |ops|
  {
    if ops != [] {
      CallRefines(cfg, db, ops[0]);
      RunRefines(cfg, Exec(cfg, db, ops[0]).0, ops[1..]);
    }
  }
}
