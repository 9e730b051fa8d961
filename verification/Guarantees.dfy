/** What the rotation scheme promises over whole runs, proved on the session automaton and
    carried to the stored rows by `Refinement`. */
module Guarantees {
  import opened Schema
  import opened AuthSpec
  import opened Sessions
  import opened Refinement
  import Base64Url
  import Jwt

  // ---------- how long a token can still be redeemed ----------

  /** `h` can be redeemed until `limit` at the latest; never, if there is no limit. */
  ghost predicate Limited(m: Ledger, h: Digest, limit: Option<Time>) {
    forall c | c in m && m[c].live && m[c].Newest(h) :: limit.Some? && m[c].expiresAt <= limit.value
  }

  predicate Presents(cfg: Config, op: Op, h: Digest) {
    op.Refresh? && cfg.digest(op.presented) == h
  }

  /** The call draws random bytes whose digest is `h`. */
  predicate Generates(cfg: Config, op: Op, h: Digest) {
    (op.Login? || op.Refresh?) && NewDigest(cfg, op.env.issue) == Some(h)
  }

  /** While a row has the digest, the UNIQUE constraint keeps it from being issued again. */
  ghost predicate NotReissued(cfg: Config, m: Ledger, op: Op, h: Digest) {
    Holder(m, h).Some? || !Generates(cfg, op, h)
  }

  lemma MintLimit(cfg: Config, m: Ledger, user: Uuid, chain: Uuid, past: seq<Digest>,
      e: Issue, h: Digest, limit: Option<Time>)
    requires Limited(m, h, limit) && (Holder(m, h).Some? || NewDigest(cfg, e) != Some(h))
    ensures Limited(Mint(cfg, m, user, chain, past, e).0, h, limit)
  {
  }

  lemma KilledLimit(m: Ledger, c: Uuid, h: Digest, limit: Option<Time>)
    requires c in m && Limited(m, h, limit)
    ensures Limited(m[c := m[c].Killed()], h, limit)
    ensures Holder(m[c := m[c].Killed()], h).Some? <==> Holder(m, h).Some?
  {
    var k := m[c := m[c].Killed()];
    assert forall d | d in m :: d in k && k[d].history == m[d].history;
  }

  /** No token belongs to two sessions. */
  ghost predicate Disjoint(m: Ledger) {
    forall c, d, h | c in m && d in m && h in m[c].history && h in m[d].history :: c == d
  }

  /** A successful redemption happens in time and uses the token up. */
  lemma PresentLimit(cfg: Config, m: Ledger, presented: Digest, e: Env, h: Digest, limit: Option<Time>)
    requires Limited(m, h, limit) && (Holder(m, h).Some? || NewDigest(cfg, e.issue) != Some(h))
    requires Disjoint(m)
    ensures Limited(Present(cfg, m, presented, e).0, h, limit)
    ensures presented == h && Present(cfg, m, presented, e).1.Tokens? ==>
              && limit.Some? && e.decidedAt <= limit.value
              && Limited(Present(cfg, m, presented, e).0, h, None)
  {
    var holder := Holder(m, presented);
    if e.readable && holder.Some? {
      var c := holder.value;
      KilledLimit(m, c, h, limit);
      var killed := m[c := m[c].Killed()];
      MintLimit(cfg, killed, m[c].user, c, m[c].history, e.issue, h, limit);
      if presented == h {
        assert Limited(killed, h, None);
        MintLimit(cfg, killed, m[c].user, c, m[c].history, e.issue, h, None);
      }
    }
  }

  lemma OneHolder(tokens: seq<Token>)
    requires TokensUnique(tokens)
    ensures Disjoint(Abs(tokens))
  {
    forall c, d, h | c in Abs(tokens) && d in Abs(tokens) && h in Abs(tokens)[c].history && h in Abs(tokens)[d].history
      ensures c == d
    {
      AbsHistories(tokens);
      var t :| t in tokens && t.chainId == c && t.hash == h;
      var u :| u in tokens && u.chainId == d && u.hash == h;
    }
  }

  lemma CallLimit(cfg: Config, db: Store, op: Op, h: Digest, limit: Option<Time>)
    requires Inv(db) && FreshIds(db, op)
    requires Limited(Abs(db.tokens), h, limit) && NotReissued(cfg, Abs(db.tokens), op, h)
    ensures
      var (after, reply) := Exec(cfg, db, op);
      && Limited(Abs(after.tokens), h, limit)
      && (Presents(cfg, op, h) && reply.Tokens? ==>
            limit.Some? && op.env.decidedAt <= limit.value && Limited(Abs(after.tokens), h, None))
  {
    var m := Abs(db.tokens);
    CallRefines(cfg, db, op);
    OneHolder(db.tokens);
    match op
    case Login(email, password, chain, e) =>
      if UserByEmail(db.users, email).Some? {
        MintLimit(cfg, m, UserByEmail(db.users, email).value.id, chain, [], e.issue, h, limit);
      }
    case Refresh(presented, e) => PresentLimit(cfg, m, cfg.digest(presented), e, h, limit);
    case Logout(presented, e) =>
      if Holder(m, cfg.digest(presented)).Some? {
        KilledLimit(m, Holder(m, cfg.digest(presented)).value, h, limit);
      }
    case _ =>
  }

  /** The digest does not come back as a new token: the random source does not repeat it, or it
      is on a row that stays (only deleting a user removes rows) and the UNIQUE constraint rejects it. */
  ghost predicate Unrepeated(cfg: Config, tokens: seq<Token>, ops: seq<Op>, h: Digest) {
    || (forall op | op in ops :: !Generates(cfg, op, h))
    || (Holder(Abs(tokens), h).Some? && forall op | op in ops :: !op.DeleteUser?)
  }

  lemma PlayKeepsHistory(cfg: Config, users: seq<User>, m: Ledger, op: Op, c: Uuid)
    requires c in m && !op.DeleteUser? && (op.Login? ==> op.chain != c)
    ensures
      var after := Play(cfg, users, m, op).0;
      c in after && m[c].history <= after[c].history
  {
  }

  lemma CallKeepsHolder(cfg: Config, db: Store, op: Op, h: Digest)
    requires Inv(db) && FreshIds(db, op) && Holder(Abs(db.tokens), h).Some? && !op.DeleteUser?
    ensures Holder(Abs(Exec(cfg, db, op).0.tokens), h).Some?
  {
    var m := Abs(db.tokens);
    var c := Holder(m, h).value;
    CallRefines(cfg, db, op);
    AbsHistories(db.tokens);
    PlayKeepsHistory(cfg, db.users, m, op, c);
    assert h in Play(cfg, db.users, m, op).0[c].history;
  }

  lemma StillUnrepeated(cfg: Config, db: Store, ops: seq<Op>, h: Digest)
    requires Inv(db) && ops != [] && FreshIds(db, ops[0]) && Unrepeated(cfg, db.tokens, ops, h)
    ensures NotReissued(cfg, Abs(db.tokens), ops[0], h)
    ensures Unrepeated(cfg, Exec(cfg, db, ops[0]).0.tokens, ops[1..], h)
  {
    assert ops[0] in ops;
    if Holder(Abs(db.tokens), h).Some? && !ops[0].DeleteUser? {
      CallKeepsHolder(cfg, db, ops[0], h);
    }
  }

  /** Every successful redemption of `h` is decided by the limit. */
  ghost predicate InTime(cfg: Config, ops: seq<Op>, replies: seq<Reply>, h: Digest, limit: Option<Time>)
    requires |ops| == |replies|
  {
    forall k | 0 <= k < |ops| && Presents(cfg, ops[k], h) && replies[k].Tokens? ::
      limit.Some? && ops[k].env.decidedAt <= limit.value
  }

  lemma InTimeFromFirst(cfg: Config, ops: seq<Op>, replies: seq<Reply>, h: Digest, limit: Option<Time>)
    requires |ops| == |replies| && ops != [] && InTime(cfg, ops[1..], replies[1..], h, limit)
    requires Presents(cfg, ops[0], h) && replies[0].Tokens? ==> limit.Some? && ops[0].env.decidedAt <= limit.value
    ensures InTime(cfg, ops, replies, h, limit)
  {
  }

  /** Over a run that never issues the digest again, every redemption of the token is in time. */
  lemma {:induction false} RunLimit(cfg: Config, db: Store, ops: seq<Op>, h: Digest, limit: Option<Time>)
    requires Inv(db) && FreshRun(cfg, db, ops) && Limited(Abs(db.tokens), h, limit)
    requires Unrepeated(cfg, db.tokens, ops, h)
    ensures Limited(Abs(Run(cfg, db, ops).0.tokens), h, limit)
    ensures InTime(cfg, ops, Run(cfg, db, ops).1, h, limit)
    decreases |ops|
  {
    if ops != [] {
      StillUnrepeated(cfg, db, ops, h);
      CallLimit(cfg, db, ops[0], h, limit);
      CallRefines(cfg, db, ops[0]);
      var next := Exec(cfg, db, ops[0]).0;
      RunLimit(cfg, next, ops[1..], h, limit);
      assert Run(cfg, db, ops).1[1..] == Run(cfg, next, ops[1..]).1;
      InTimeFromFirst(cfg, ops, Run(cfg, db, ops).1, h, limit);
    }
  }

  /** One call, and then a run. */
  ghost predicate CallThenRun(cfg: Config, db: Store, op: Op, rest: seq<Op>) {
    Inv(db) && FreshIds(db, op) && FreshRun(cfg, Exec(cfg, db, op).0, rest)
  }

  /** What a run answers to `k`-th of the calls that follow `op`. */
  function ReplyAfter(cfg: Config, db: Store, op: Op, rest: seq<Op>, k: nat): Reply
    requires k < |rest|
  {
    Run(cfg, Exec(cfg, db, op).0, rest).1[k]
  }

  lemma NeverAfter(cfg: Config, db: Store, op: Op, rest: seq<Op>, h: Digest)
    requires CallThenRun(cfg, db, op, rest) && Limited(Abs(Exec(cfg, db, op).0.tokens), h, None)
    requires Unrepeated(cfg, db.tokens, [op] + rest, h)
    ensures forall k | 0 <= k < |rest| && Presents(cfg, rest[k], h) :: !ReplyAfter(cfg, db, op, rest, k).Tokens?
  {
    CallRefines(cfg, db, op);
    assert forall o | o in rest :: o in [op] + rest;
    assert op in [op] + rest;
    if Holder(Abs(db.tokens), h).Some? && !op.DeleteUser? {
      CallKeepsHolder(cfg, db, op, h);
    }
    RunLimit(cfg, Exec(cfg, db, op).0, rest, h, None);
  }

  lemma PresentTokens(cfg: Config, m: Ledger, h: Digest, e: Env)
    requires Disjoint(m) && Present(cfg, m, h, e).1.Tokens?
    ensures Holder(m, h).Some? && Limited(m, h, Some(m[Holder(m, h).value].expiresAt))
  {
  }

  /** Each plaintext token is redeemed successfully at most once. */
  lemma RedeemedOnce(cfg: Config, db: Store, op: Op, rest: seq<Op>, h: Digest)
    requires CallThenRun(cfg, db, op, rest)
    requires Presents(cfg, op, h) && Exec(cfg, db, op).1.Tokens?
    requires Unrepeated(cfg, db.tokens, [op] + rest, h)
    ensures forall k | 0 <= k < |rest| && Presents(cfg, rest[k], h) :: !ReplyAfter(cfg, db, op, rest, k).Tokens?
  {
    var m := Abs(db.tokens);
    CallRefines(cfg, db, op);
    OneHolder(db.tokens);
    PresentTokens(cfg, m, h, op.env);
    CallLimit(cfg, db, op, h, Some(m[Holder(m, h).value].expiresAt));
    assert op in [op] + rest;
    NeverAfter(cfg, db, op, rest, h);
  }

  lemma TokenHolder(tokens: seq<Token>, t: Token)
    requires TokensUnique(tokens) && ChainsInOrder(tokens) && t in tokens
    ensures Holder(Abs(tokens), t.hash) == Some(t.chainId) && Abs(tokens)[t.chainId].user == t.userId
    ensures forall c | c in Abs(tokens) && Abs(tokens)[c].Newest(t.hash) :: c == t.chainId
  {
    HolderIsChain(tokens, t.hash);
    AbsNewest(tokens, t);
    OneHolder(tokens);
    forall c | c in Abs(tokens) && Abs(tokens)[c].Newest(t.hash) ensures c == t.chainId {
      assert t.hash in Abs(tokens)[c].history;
    }
  }

  /** LogoutAll is a clean cut: no token the user had before it is ever redeemed after it,
      by anyone, in any run of whole calls. */
  lemma LogoutAllIsCleanCut(cfg: Config, db: Store, user: Uuid, e: Env, rest: seq<Op>, t: Token)
    requires CallThenRun(cfg, db, LogoutAll(user, e), rest) && !e.revoke.Dropped?
    requires t in db.tokens && t.userId == user
    requires Unrepeated(cfg, db.tokens, [LogoutAll(user, e)] + rest, t.hash)
    ensures forall k | 0 <= k < |rest| && Presents(cfg, rest[k], t.hash) ::
              !ReplyAfter(cfg, db, LogoutAll(user, e), rest, k).Tokens?
  {
    CallRefines(cfg, db, LogoutAll(user, e));
    TokenHolder(db.tokens, t);
    assert Limited(Kill(Abs(db.tokens), Owned(user)), t.hash, None);
    NeverAfter(cfg, db, LogoutAll(user, e), rest, t.hash);
  }

  lemma PresentReuse(cfg: Config, m: Ledger, h: Digest, e: Env)
    requires Present(cfg, m, h, e).1.Reuse?
    ensures Holder(m, h).Some?
    ensures Present(cfg, m, h, e).0 == m[Holder(m, h).value := m[Holder(m, h).value].Killed()]
  {
  }

  /** Reuse detection: once a spent token has been reported, no token of its chain is ever
      redeemed again. */
  lemma ReuseKillsChain(cfg: Config, db: Store, presented: string, e: Env, rest: seq<Op>, t: Token)
    requires CallThenRun(cfg, db, Refresh(presented, e), rest)
    requires Exec(cfg, db, Refresh(presented, e)).1.Reuse?
    requires t in db.tokens && Holder(Abs(db.tokens), cfg.digest(presented)) == Some(t.chainId)
    requires Unrepeated(cfg, db.tokens, [Refresh(presented, e)] + rest, t.hash)
    ensures forall k | 0 <= k < |rest| && Presents(cfg, rest[k], t.hash) ::
              !ReplyAfter(cfg, db, Refresh(presented, e), rest, k).Tokens?
  {
    CallRefines(cfg, db, Refresh(presented, e));
    PresentReuse(cfg, Abs(db.tokens), cfg.digest(presented), e);
    TokenHolder(db.tokens, t);
    NeverAfter(cfg, db, Refresh(presented, e), rest, t.hash);
  }

  // ---------- calls on one session leave every other alone ----------

  /** The call refreshes with one of the session's tokens, logs out with its newest one, or is
      about its owner. */
  ghost predicate Touches(cfg: Config, op: Op, s: Session) {
    match op
    case Refresh(presented, _) => cfg.digest(presented) in s.history
    case Logout(presented, _) => s.Newest(cfg.digest(presented))
    case LogoutAll(user, _) => user == s.user
    case DeleteUser(user) => user == s.user
    case _ => false
  }

  lemma PlayLeavesOthers(cfg: Config, users: seq<User>, m: Ledger, op: Op, c: Uuid)
    requires c in m && !Touches(cfg, op, m[c]) && (op.Login? ==> op.chain != c)
    ensures
      var after := Play(cfg, users, m, op).0;
      c in after && after[c] == m[c]
  {
  }

  lemma CallLeavesOthers(cfg: Config, db: Store, op: Op, c: Uuid)
    requires Inv(db) && FreshIds(db, op)
    requires c in Abs(db.tokens) && !Touches(cfg, op, Abs(db.tokens)[c])
    ensures
      var after := Abs(Exec(cfg, db, op).0.tokens);
      c in after && after[c] == Abs(db.tokens)[c]
  {
    CallRefines(cfg, db, op);
    AbsHistories(db.tokens);
    PlayLeavesOthers(cfg, db.users, Abs(db.tokens), op, c);
  }

  lemma {:induction false} RunLeavesOthers(cfg: Config, db: Store, ops: seq<Op>, c: Uuid)
    requires Inv(db) && FreshRun(cfg, db, ops)
    requires c in Abs(db.tokens) && forall op | op in ops :: !Touches(cfg, op, Abs(db.tokens)[c])
    ensures Inv(Run(cfg, db, ops).0)
    ensures
      var after := Abs(Run(cfg, db, ops).0.tokens);
      c in after && after[c] == Abs(db.tokens)[c]
    decreases |ops|
  {
    if ops != [] {
      CallLeavesOthers(cfg, db, ops[0], c);
      CallRefines(cfg, db, ops[0]);
      RunLeavesOthers(cfg, Exec(cfg, db, ops[0]).0, ops[1..], c);
    }
  }

  /** Nothing fails on the way and the new token's digest is on no row. */
  ghost predicate Healthy(cfg: Config, db: Store, e: Env) {
    && e.readable && e.revoke.Applied? && e.issue.create.Applied? && e.issue.signs
    && e.issue.rowId !in TokenIds(db.tokens)
    && NewDigest(cfg, e.issue).Some? && NewDigest(cfg, e.issue).value !in Hashes(db.tokens)
  }

  lemma HealthyMint(cfg: Config, db: Store, e: Env)
    requires Inv(db) && Healthy(cfg, db, e)
    ensures Holder(Abs(db.tokens), NewDigest(cfg, e.issue).value).None?
  {
    HolderIsChain(db.tokens, NewDigest(cfg, e.issue).value);
  }

  lemma PresentVerdict(cfg: Config, m: Ledger, h: Digest, e: Env)
    requires Disjoint(m) && e.readable && e.revoke.Applied? && e.issue.create.Applied? && e.issue.signs
    requires NewDigest(cfg, e.issue).Some? && Holder(m, NewDigest(cfg, e.issue).value).None?
    ensures
      var reply := Present(cfg, m, h, e).1;
      match Holder(m, h)
      case None => reply.Unknown?
      case Some(c) =>
        if !(m[c].live && m[c].Newest(h)) then reply.Reuse?
        else if e.decidedAt > m[c].expiresAt then reply.Expired?
        else reply.Tokens?
  {
  }

  /** A session answers its newest token, and only that one, with a new pair. */
  lemma OnlyNewestRotates(cfg: Config, db: Store, presented: string, e: Env)
    requires Inv(db) && Healthy(cfg, db, e)
    ensures
      var m := Abs(db.tokens);
      var h := cfg.digest(presented);
      var reply := Exec(cfg, db, Refresh(presented, e)).1;
      && (reply.Tokens? <==> exists c :: c in m && m[c].live && m[c].Newest(h) && e.decidedAt <= m[c].expiresAt)
      && (reply.Expired? <==> exists c :: c in m && m[c].live && m[c].Newest(h) && e.decidedAt > m[c].expiresAt)
      && (reply.Unknown? <==> forall c | c in m :: h !in m[c].history)
      && (reply.Reuse? <==> exists c :: c in m && h in m[c].history && !(m[c].live && m[c].Newest(h)))
  {
    CallRefines(cfg, db, Refresh(presented, e));
    HealthyMint(cfg, db, e);
    OneHolder(db.tokens);
    var m, h := Abs(db.tokens), cfg.digest(presented);
    PresentVerdict(cfg, m, h, e);
    assert forall c | c in m && m[c].Newest(h) :: h in m[c].history;
  }

  lemma PlayOpensNothing(cfg: Config, users: seq<User>, m: Ledger, op: Op, c: Uuid)
    requires !op.Login? && c in Play(cfg, users, m, op).0 && Play(cfg, users, m, op).0[c].live
    ensures c in m && m[c].live
  {
  }

  /** No call but a login ever makes a session live. */
  lemma OnlyLoginOpens(cfg: Config, db: Store, op: Op, c: Uuid)
    requires Inv(db) && FreshIds(db, op) && !op.Login?
    requires c in Abs(Exec(cfg, db, op).0.tokens) && Abs(Exec(cfg, db, op).0.tokens)[c].live
    ensures c in Abs(db.tokens) && Abs(db.tokens)[c].live
  {
    CallRefines(cfg, db, op);
    PlayOpensNothing(cfg, db.users, Abs(db.tokens), op, c);
  }

  /** `after` has the row `i` of `before`; only a revocation of an active row of `chain` shows. */
  ghost predicate LocalWrite(before: seq<Token>, after: seq<Token>, i: nat, chain: Uuid)
    requires i < |before|
  {
    && i < |after|
    && after[i].(revokedAt := before[i].revokedAt, updatedAt := before[i].updatedAt) == before[i]
    && (!before[i].Active() || before[i].chainId != chain ==> after[i] == before[i])
  }

  lemma StatementIsLocal(db: Store, sel: Selector, fate: Fate, now: Time, i: nat, chain: Uuid)
    requires i < |db.tokens|
    requires sel == ByChain(chain) || (sel.ById? && (db.tokens[i].id == sel.id ==> db.tokens[i].chainId == chain))
    ensures LocalWrite(db.tokens, RevokeStatement(db, sel, fate, now).tokens, i, chain)
  {
  }

  lemma IssueIsLocal(cfg: Config, db: Store, user: Uuid, chain: Uuid, e: Issue, i: nat)
    requires i < |db.tokens|
    ensures
      var after := IssuePair(cfg, db, user, chain, e).0.tokens;
      i < |after| && after[i] == db.tokens[i]
  {
  }

  /** Refresh and Logout write only rows of the presented token's chain, and no call writes a
      row that is already revoked: `revoked_at` keeps its first value. */
  lemma CallIsLocal(cfg: Config, db: Store, op: Op, i: nat)
    requires Inv(db) && (op.Refresh? || op.Logout?) && i < |db.tokens|
    ensures
      match Lookup(db.tokens, cfg.digest(op.presented))
      case None => Exec(cfg, db, op).0 == db
      case Some(row) => LocalWrite(db.tokens, Exec(cfg, db, op).0.tokens, i, row.chainId)
  {
    var found := Lookup(db.tokens, cfg.digest(op.presented));
    if found.Some? {
      var row, e := found.value, op.env;
      var k :| 0 <= k < |db.tokens| && db.tokens[k] == row;
      assert i != k ==> db.tokens[i].id != row.id;
      StatementIsLocal(db, ByChain(row.chainId), e.revoke, e.revokedAt, i, row.chainId);
      StatementIsLocal(db, ById(row.id), e.revoke, e.revokedAt, i, row.chainId);
      if op.Refresh? {
        RefreshOutcomes(cfg, db, op.presented, e, row);
        var spent := RevokeStatement(db, ById(row.id), e.revoke, e.revokedAt);
        IssueIsLocal(cfg, spent, row.userId, row.chainId, e.issue, i);
      }
    }
  }

  // ---------- the client's view ----------

  /** A pair that is handed out agrees: the refresh token is the newest of a live session, its
      row is stored and active, and the access token names the row's user and chain and is accepted
      for its whole lifetime but the last second at most. */
  lemma PairAgrees(cfg: Config, db: Store, op: Op)
    requires Inv(db) && FreshIds(db, op) && Exec(cfg, db, op).1.Tokens?
    ensures
      var (after, reply) := Exec(cfg, db, op);
      var row := Lookup(after.tokens, cfg.digest(reply.refresh));
      && row.Some? && row.value.Active()
      && row.value.id == op.env.issue.rowId && row.value.createdAt == row.value.updatedAt == op.env.issue.createdAt
      && reply.access == Jwt.Sign(cfg.signer, row.value.userId, row.value.chainId, op.env.issue.signedAt)
      && row.value.chainId in Abs(after.tokens)
      && Abs(after.tokens)[row.value.chainId].live
      && Abs(after.tokens)[row.value.chainId].Newest(row.value.hash)
      && Abs(after.tokens)[row.value.chainId].expiresAt == op.env.issue.preparedAt + cfg.refreshTTL
    ensures GoodFor(cfg.signer, Exec(cfg, db, op).1.access, op.env.issue.signedAt)
  {
    var (after, reply) := Exec(cfg, db, op);
    CallRefines(cfg, db, op);
    var base, user, chain := IssuedBy(cfg, db, op);
    IssuedRow(cfg, base, user, chain, op.env.issue);
    SignedIsGood(cfg.signer, user, chain, op.env.issue.signedAt);
    var row := Lookup(after.tokens, cfg.digest(reply.refresh)).value;
    AbsNewest(after.tokens, row);
  }

  /** The matching verifier accepts the access token from its minting on, until one second before
      its lifetime ends or longer. */
  ghost predicate GoodFor(s: Jwt.Signer, access: Jwt.AccessToken, minted: Time) {
    forall now | minted <= now <= minted + s.accessTTL - 1_000_000_000 ::
      Jwt.Verify(Jwt.Verifier(s.secret, s.issuer), access, now).Accepted?
  }

  lemma SignedIsGood(s: Jwt.Signer, user: Uuid, chain: Uuid, minted: Time)
    ensures GoodFor(s, Jwt.Sign(s, user, chain, minted), minted)
  {
    forall now | minted <= now <= minted + s.accessTTL - 1_000_000_000
      ensures Jwt.Verify(Jwt.Verifier(s.secret, s.issuer), Jwt.Sign(s, user, chain, minted), now).Accepted?
    {
      Jwt.SignVerify(s, user, chain, minted, now);
    }
  }

  lemma IssuedRow(cfg: Config, db: Store, user: Uuid, chain: Uuid, e: Issue)
    requires IssuePair(cfg, db, user, chain, e).1.Tokens?
    ensures
      var (after, reply) := IssuePair(cfg, db, user, chain, e);
      var row := NewToken(e.rowId, user, cfg.digest(reply.refresh), chain, e.preparedAt + cfg.refreshTTL, e.createdAt);
      && row in after.tokens && NewDigest(cfg, e) == Some(row.hash)
      && reply.access == Jwt.Sign(cfg.signer, user, chain, e.signedAt)
  {
  }

  /** Where a reply that carries tokens comes from. */
  lemma IssuedBy(cfg: Config, db: Store, op: Op) returns (base: Store, user: Uuid, chain: Uuid)
    requires Exec(cfg, db, op).1.Tokens?
    ensures (op.Login? || op.Refresh?) && Exec(cfg, db, op) == IssuePair(cfg, base, user, chain, op.env.issue)
  {
    if op.Login? {
      base, user, chain := db, UserByEmail(db.users, op.email).value.id, op.chain;
    } else {
      var row := Lookup(db.tokens, cfg.digest(op.presented)).value;
      base := RevokeStatement(db, ById(row.id), op.env.revoke, op.env.revokedAt);
      user, chain := row.userId, row.chainId;
    }
  }

  /** A client that keeps presenting the last token it was given is told "reuse" or "unknown"
      only if someone touched its session in between; undisturbed, it gets its next pair, for
      the same user and chain, as long as it comes back within the refresh lifetime. */
  lemma HonestClient(cfg: Config, db: Store, op: Op, others: seq<Op>, e: Env)
    requires CallThenRun(cfg, db, op, others) && Exec(cfg, db, op).1.Tokens?
    requires
      var issued := Exec(cfg, db, op);
      var row := Lookup(issued.0.tokens, cfg.digest(issued.1.refresh));
      row.Some? && row.value.chainId in Abs(issued.0.tokens)
      && forall o | o in others :: !Touches(cfg, o, Abs(issued.0.tokens)[row.value.chainId])
    requires e.issue.rowId !in TokenIds(Run(cfg, Exec(cfg, db, op).0, others).0.tokens)
    ensures
      var issued := Exec(cfg, db, op);
      var access := issued.1.access;
      var later := Run(cfg, issued.0, others).0;
      var reply := Exec(cfg, later, Refresh(issued.1.refresh, e)).1;
      && !reply.Reuse? && !reply.Unknown?
      && (reply.Expired? ==> e.decidedAt > op.env.issue.preparedAt + cfg.refreshTTL)
      && (reply.Tokens? ==> e.decidedAt <= op.env.issue.preparedAt + cfg.refreshTTL)
      && (Healthy(cfg, later, e) && e.decidedAt <= op.env.issue.preparedAt + cfg.refreshTTL ==> reply.Tokens?)
      && (reply.Tokens? ==>
            (access.Signed? && reply.access.Signed?
             && reply.access.claims.userId == access.claims.userId
             && reply.access.claims.chainId == access.claims.chainId))
  {
    var issued := Exec(cfg, db, op);
    CallRefines(cfg, db, op);
    PairAgrees(cfg, db, op);
    var row := Lookup(issued.0.tokens, cfg.digest(issued.1.refresh)).value;
    var c := row.chainId;
    RunLeavesOthers(cfg, issued.0, others, c);
    var later := Run(cfg, issued.0, others).0;
    AbsNewest(issued.0.tokens, row);
    ResumeSession(cfg, later, issued.1.refresh, e, c);
  }

  /** The same, from the session's side. */
  lemma ResumeSession(cfg: Config, db: Store, presented: string, e: Env, c: Uuid)
    requires Inv(db) && e.issue.rowId !in TokenIds(db.tokens)
    requires c in Abs(db.tokens) && Abs(db.tokens)[c].live && Abs(db.tokens)[c].Newest(cfg.digest(presented))
    ensures
      var s := Abs(db.tokens)[c];
      var reply := Exec(cfg, db, Refresh(presented, e)).1;
      && !reply.Reuse? && !reply.Unknown?
      && (reply.Expired? ==> e.decidedAt > s.expiresAt)
      && (reply.Tokens? ==> e.decidedAt <= s.expiresAt)
      && (Healthy(cfg, db, e) && e.decidedAt <= s.expiresAt ==> reply.Tokens?)
      && (reply.Tokens? ==> reply.access == Jwt.Sign(cfg.signer, s.user, c, e.issue.signedAt))
  {
    var m, h := Abs(db.tokens), cfg.digest(presented);
    CallRefines(cfg, db, Refresh(presented, e));
    OneHolder(db.tokens);
    assert h in m[c].history;
    assert Holder(m, h) == Some(c);
    if Healthy(cfg, db, e) {
      OnlyNewestRotates(cfg, db, presented, e);
    }
  }

  // ---------- sliding expiry ----------

  /** Readings of a non-decreasing clock, in the order the steps of the call take them. */
  predicate TimedCall(op: Op, from: Time, to: Time) {
    match op
    case Login(_, _, _, e) => from <= e.issue.preparedAt <= e.issue.createdAt <= e.issue.signedAt <= to
    case Refresh(_, e) =>
      from <= e.decidedAt <= e.revokedAt <= e.issue.preparedAt <= e.issue.createdAt <= e.issue.signedAt <= to
    case Logout(_, e) => from <= e.revokedAt <= to
    case LogoutAll(_, e) => from <= e.revokedAt <= to
    case UpdateUser(_, _, now) => from <= now <= to
    case _ => from <= to
  }

  /** Rows in insertion order expire in that order, none later than one lifetime from now. */
  ghost predicate ExpiryOrdered(cfg: Config, tokens: seq<Token>, now: Time) {
    && (forall i, j | 0 <= i < j < |tokens| :: tokens[i].expiresAt <= tokens[j].expiresAt)
    && (forall t | t in tokens :: t.expiresAt <= now + cfg.refreshTTL)
  }

  lemma {:induction false} SurvivingOrdered(cfg: Config, tokens: seq<Token>, user: Uuid, now: Time)
    requires ExpiryOrdered(cfg, tokens, now)
    ensures ExpiryOrdered(cfg, Surviving(tokens, user), now)
  {
    if tokens != [] {
      var n := |tokens| - 1;
      SurvivingOrdered(cfg, tokens[..n], user, now);
      forall t | t in Surviving(tokens[..n], user) ensures t.expiresAt <= tokens[n].expiresAt {
        var i :| 0 <= i < n && tokens[i] == t;
      }
    }
  }

  lemma RevokeOrdered(cfg: Config, tokens: seq<Token>, sel: Selector, at: Time, now: Time)
    requires ExpiryOrdered(cfg, tokens, now)
    ensures ExpiryOrdered(cfg, Revoke(tokens, sel, at), now)
  {
  }

  lemma IssueOrdered(cfg: Config, db: Store, user: Uuid, chain: Uuid, e: Issue, from: Time, to: Time)
    requires ExpiryOrdered(cfg, db.tokens, from) && from <= e.preparedAt <= to
    ensures ExpiryOrdered(cfg, IssuePair(cfg, db, user, chain, e).0.tokens, to)
  {
  }

  lemma OrderedLater(cfg: Config, from: Time, to: Time)
    requires from <= to
    ensures forall tokens | ExpiryOrdered(cfg, tokens, from) :: ExpiryOrdered(cfg, tokens, to)
  {
  }

  lemma RefreshOutcomes(cfg: Config, db: Store, presented: string, e: Env, row: Token)
    requires Lookup(db.tokens, cfg.digest(presented)) == Some(row)
    ensures
      var after := RefreshCall(cfg, db, presented, e).0;
      var spent := RevokeStatement(db, ById(row.id), e.revoke, e.revokedAt);
      || after == db
      || after == RevokeStatement(db, ByChain(row.chainId), e.revoke, e.revokedAt)
      || after == spent
      || after == IssuePair(cfg, spent, row.userId, row.chainId, e.issue).0
  {
  }

  lemma RefreshOrdered(cfg: Config, db: Store, presented: string, e: Env, from: Time, to: Time)
    requires ExpiryOrdered(cfg, db.tokens, from) && TimedCall(Refresh(presented, e), from, to)
    ensures ExpiryOrdered(cfg, RefreshCall(cfg, db, presented, e).0.tokens, to)
  {
    var found := Lookup(db.tokens, cfg.digest(presented));
    if found.Some? {
      var row := found.value;
      var spent := RevokeStatement(db, ById(row.id), e.revoke, e.revokedAt);
      RevokeOrdered(cfg, db.tokens, ByChain(row.chainId), e.revokedAt, from);
      RevokeOrdered(cfg, db.tokens, ById(row.id), e.revokedAt, from);
      IssueOrdered(cfg, spent, row.userId, row.chainId, e.issue, from, to);
      OrderedLater(cfg, from, to);
      RefreshOutcomes(cfg, db, presented, e, row);
    }
  }

  lemma LoginOrdered(cfg: Config, db: Store, email: string, password: string, chain: Uuid, e: Env, from: Time, to: Time)
    requires ExpiryOrdered(cfg, db.tokens, from) && TimedCall(Login(email, password, chain, e), from, to)
    ensures ExpiryOrdered(cfg, LoginCall(cfg, db, email, password, chain, e).0.tokens, to)
  {
    OrderedLater(cfg, from, to);
    if UserByEmail(db.users, email).Some? {
      IssueOrdered(cfg, db, UserByEmail(db.users, email).value.id, chain, e.issue, from, to);
    }
  }

  lemma LogoutOrdered(cfg: Config, db: Store, presented: string, e: Env, now: Time)
    requires ExpiryOrdered(cfg, db.tokens, now)
    ensures ExpiryOrdered(cfg, LogoutCall(cfg, db, presented, e).0.tokens, now)
  {
    var found := Lookup(db.tokens, cfg.digest(presented));
    if found.Some? {
      RevokeOrdered(cfg, db.tokens, ById(found.value.id), e.revokedAt, now);
    }
  }

  lemma CallOrdered(cfg: Config, db: Store, op: Op, from: Time, to: Time)
    requires ExpiryOrdered(cfg, db.tokens, from) && TimedCall(op, from, to)
    ensures ExpiryOrdered(cfg, Exec(cfg, db, op).0.tokens, to)
  {
    OrderedLater(cfg, from, to);
    match op
    case Login(email, password, chain, e) => LoginOrdered(cfg, db, email, password, chain, e, from, to);
    case Refresh(presented, e) => RefreshOrdered(cfg, db, presented, e, from, to);
    case Logout(presented, e) => LogoutOrdered(cfg, db, presented, e, from);
    case LogoutAll(user, e) => RevokeOrdered(cfg, db.tokens, ByUser(user), e.revokedAt, from);
    case DeleteUser(id) => SurvivingOrdered(cfg, db.tokens, id, from);
    case _ =>
  }

  predicate TimedRun(ops: seq<Op>, clock: seq<Time>) {
    |clock| == |ops| + 1 && forall k | 0 <= k < |ops| :: TimedCall(ops[k], clock[k], clock[k + 1])
  }

  /** Over a run, `expires_at` never decreases along a chain (nor across chains), and no stored
      token outlives the last reading of the clock by more than the refresh lifetime. */
  lemma {:induction false} RunOrdered(cfg: Config, db: Store, ops: seq<Op>, clock: seq<Time>)
    requires TimedRun(ops, clock) && ExpiryOrdered(cfg, db.tokens, clock[0])
    ensures ExpiryOrdered(cfg, Run(cfg, db, ops).0.tokens, clock[|ops|])
    decreases |ops|
  {
    if ops != [] {
      CallOrdered(cfg, db, ops[0], clock[0], clock[1]);
      RunOrdered(cfg, Exec(cfg, db, ops[0]).0, ops[1..], clock[1..]);
    }
  }

  /** Consecutive rotations are at most one refresh lifetime apart, measured from the issue of a
      token to the expiry check that accepts it. */
  lemma RotationGap(cfg: Config, db: Store, op: Op, rest: seq<Op>, k: nat)
    requires CallThenRun(cfg, db, op, rest) && Exec(cfg, db, op).1.Tokens?
    requires k < |rest| && rest[k].Refresh? && rest[k].presented == Exec(cfg, db, op).1.refresh
    requires Unrepeated(cfg, Exec(cfg, db, op).0.tokens, rest, cfg.digest(rest[k].presented))
    requires ReplyAfter(cfg, db, op, rest, k).Tokens?
    ensures rest[k].env.decidedAt <= op.env.issue.preparedAt + cfg.refreshTTL
  {
    var after, h := Exec(cfg, db, op).0, cfg.digest(rest[k].presented);
    CallRefines(cfg, db, op);
    PairAgrees(cfg, db, op);
    TokenHolder(after.tokens, Lookup(after.tokens, h).value);
    RunLimit(cfg, after, rest, h, Some(op.env.issue.preparedAt + cfg.refreshTTL));
  }

  // ---------- idle chains ----------

  /** Chain `c` is as `idle` was, killed perhaps, or gone with its owner. */
  ghost predicate StillIdle(m: Ledger, c: Uuid, idle: Session) {
    c in m ==> m[c] == idle || m[c] == idle.Killed()
  }

  /** If the call presents a token of the session it comes too late, and it opens another chain
      if any. */
  predicate TooLate(cfg: Config, op: Op, c: Uuid, idle: Session) {
    && (op.Refresh? && cfg.digest(op.presented) in idle.history ==> op.env.decidedAt > idle.expiresAt)
    && (op.Login? ==> op.chain != c)
  }

  predicate Names(reply: Reply, c: Uuid) {
    reply.Tokens? && reply.access.Signed? && reply.access.claims.chainId == c
  }

  lemma PresentStaysIdle(cfg: Config, m: Ledger, h: Digest, e: Env, c: Uuid, idle: Session)
    requires StillIdle(m, c, idle) && (h in idle.history ==> e.decidedAt > idle.expiresAt)
    ensures StillIdle(Present(cfg, m, h, e).0, c, idle) && !Names(Present(cfg, m, h, e).1, c)
  {
  }

  lemma PlayStaysIdle(cfg: Config, users: seq<User>, m: Ledger, op: Op, c: Uuid, idle: Session)
    requires StillIdle(m, c, idle) && TooLate(cfg, op, c, idle)
    ensures StillIdle(Play(cfg, users, m, op).0, c, idle) && !Names(Play(cfg, users, m, op).1, c)
  {
    match op
    case Refresh(presented, e) => PresentStaysIdle(cfg, m, cfg.digest(presented), e, c, idle);
    case _ =>
  }

  /** A chain idle beyond its expiry never refreshes again: over a run that presents its
      tokens only later than that, it gets no new token, no pair that names it is handed out, and at most a
      kill of what is left of it shows. */
  lemma {:induction false} IdleChainIsOver(cfg: Config, db: Store, ops: seq<Op>, c: Uuid, idle: Session)
    requires Inv(db) && FreshRun(cfg, db, ops) && StillIdle(Abs(db.tokens), c, idle)
    requires forall op | op in ops :: TooLate(cfg, op, c, idle)
    ensures StillIdle(Abs(Run(cfg, db, ops).0.tokens), c, idle)
    ensures forall k | 0 <= k < |ops| :: !Names(Run(cfg, db, ops).1[k], c)
    decreases |ops|
  {
    if ops != [] {
      assert ops[0] in ops;
      CallRefines(cfg, db, ops[0]);
      PlayStaysIdle(cfg, db.users, Abs(db.tokens), ops[0], c, idle);
      IdleChainIsOver(cfg, Exec(cfg, db, ops[0]).0, ops[1..], c, idle);
    }
  }

  /** And none of its tokens is redeemed, wherever in a run that is tried. */
  lemma IdleTokenIsOver(cfg: Config, db: Store, rest: seq<Op>, t: Token, k: nat)
    requires Inv(db) && FreshRun(cfg, db, rest) && t in db.tokens && t.chainId in Abs(db.tokens)
    requires Unrepeated(cfg, db.tokens, rest, t.hash)
    requires k < |rest| && Presents(cfg, rest[k], t.hash)
    requires rest[k].env.decidedAt > Abs(db.tokens)[t.chainId].expiresAt
    ensures !Run(cfg, db, rest).1[k].Tokens?
  {
    TokenHolder(db.tokens, t);
    RunLimit(cfg, db, rest, t.hash, Some(Abs(db.tokens)[t.chainId].expiresAt));
  }
}
