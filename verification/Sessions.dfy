/** A session as its owner sees it: one chain of refresh tokens, of which at most the newest
    is good. Sessions know nothing of rows, `revoked_at` or WHERE clauses. */
module Sessions {
  import opened Schema
  import opened AuthSpec
  import Base64Url
  import Jwt

  datatype Session = Session(user: Uuid, history: seq<Digest>, live: bool, expiresAt: Time) {
    function Killed(): Session { this.(live := false) }

    ghost predicate Newest(h: Digest) { history != [] && history[|history| - 1] == h }
  }

  type Ledger = map<Uuid, Session>

  /** The chain that issued `h`. */
  ghost function Holder(m: Ledger, h: Digest): (r: Option<Uuid>)
    ensures r.None? <==> forall c | c in m :: h !in m[c].history
    ensures r.Some? ==> r.value in m && h in m[r.value].history
  {
    if c :| c in m && h in m[c].history then Some(c) else None
  }

  function NewDigest(cfg: Config, e: Issue): Option<Digest> {
    var p := Base64Url.GenerateRefreshToken(e.entropy);
    if p.None? then None else Some(cfg.digest(p.value))
  }

  /** A pair is issued into `chain`, whose earlier tokens are `past`. */
  ghost function Mint(cfg: Config, m: Ledger, user: Uuid, chain: Uuid, past: seq<Digest>, e: Issue): (Ledger, Reply) {
    var h := NewDigest(cfg, e);
    if h.None? || e.create.Dropped? || Holder(m, h.value).Some? then (m, Failed)
    else
      (m[chain := Session(user, past + [h.value], true, e.preparedAt + cfg.refreshTTL)],
       if e.create.Applied? && e.signs
       then Tokens(Jwt.Sign(cfg.signer, user, chain, e.signedAt), Base64Url.GenerateRefreshToken(e.entropy).value)
       else Failed)
  }

  /** A refresh token is presented: only the newest token of a live, unexpired session rotates
      it, and every other token of a session kills it, whether expired or not. */
  ghost function Present(cfg: Config, m: Ledger, h: Digest, e: Env): (Ledger, Reply) {
    var holder := Holder(m, h);
    if !e.readable then (m, Failed)
    else if holder.None? then (m, Unknown)
    else
      var c := holder.value;
      var s := m[c];
      var killed := if e.revoke.Dropped? then m else m[c := s.Killed()];
      if !(s.live && s.Newest(h)) then (killed, if e.revoke.Applied? then Reuse else Failed)
      else if e.decidedAt > s.expiresAt then (m, Expired)
      else if !e.revoke.Applied? then (killed, Failed)
      else Mint(cfg, killed, s.user, c, s.history, e.issue)
  }

  /** Only the newest token logs a session out; a spent one changes nothing. */
  ghost function SignOut(m: Ledger, h: Digest, e: Env): (Ledger, Reply) {
    var holder := Holder(m, h);
    if !e.readable then (m, Failed)
    else if holder.None? then (m, LoggedOut)
    else
      var s := m[holder.value];
      (if s.Newest(h) && !e.revoke.Dropped? then m[holder.value := s.Killed()] else m,
       if e.revoke.Applied? then LoggedOut else Failed)
  }

  /** What a revocation aims at, told by the sessions it kills and by the rows it picks. */
  datatype Target = Everything(chain: Uuid) | Owned(user: Uuid) | Holding(hash: Digest) {
    ghost predicate Hits(c: Uuid, s: Session) {
      match this
      case Everything(chain) => c == chain
      case Owned(user) => s.user == user
      case Holding(h) => s.Newest(h)
    }

    predicate Picks(t: Token) {
      match this
      case Everything(chain) => t.chainId == chain
      case Owned(user) => t.userId == user
      case Holding(h) => t.hash == h
    }
  }

  ghost function Kill(m: Ledger, target: Target): Ledger {
    map c | c in m :: if target.Hits(c, m[c]) then m[c].Killed() else m[c]
  }

  function Forget(m: Ledger, user: Uuid): Ledger {
    map c | c in m && m[c].user != user :: m[c]
  }

  /** The automaton: one step of the whole ledger. Users are read, never changed, by logins. */
  ghost function Play(cfg: Config, users: seq<User>, m: Ledger, op: Op): (Ledger, Reply) {
    match op
    case Login(email, password, chain, e) =>
      var user := UserByEmail(users, email);
      if !e.readable then (m, Failed)
      else if user.None? || !cfg.passwordMatches(user.value.passwordHash, password) then (m, InvalidCredentials)
      else Mint(cfg, m, user.value.id, chain, [], e.issue)
    case Refresh(presented, e) => Present(cfg, m, cfg.digest(presented), e)
    case Logout(presented, e) => SignOut(m, cfg.digest(presented), e)
    case LogoutAll(user, e) =>
      (if e.revoke.Dropped? then m else Kill(m, Owned(user)), if e.revoke.Applied? then LoggedOut else Failed)
    case CreateUser(_) => (m, Failed)
    case UpdateUser(_, _, _) => (m, Failed)
    case DeleteUser(id) => (Forget(m, id), Failed)
  }

  // ---------- the ledger the stored rows stand for ----------

  /** Rows in insertion order; the newest row of a chain says whether its session is live. */
  function Abs(tokens: seq<Token>): Ledger {
    if tokens == [] then map[]
    else
      var n := |tokens| - 1;
      AddRow(Abs(tokens[..n]), tokens[n])
  }

  function AddRow(m: Ledger, t: Token): Ledger {
    var past := if t.chainId in m then m[t.chainId].history else [];
    m[t.chainId := Session(t.userId, past + [t.hash], t.Active(), t.expiresAt)]
  }

  /** All rows of a chain have one owner, and only the newest one can be active. */
  ghost predicate ChainsInOrder(tokens: seq<Token>) {
    forall i, j | 0 <= i < j < |tokens| && tokens[i].chainId == tokens[j].chainId ::
      tokens[i].userId == tokens[j].userId && !tokens[i].Active()
  }

  ghost predicate Inv(db: Store) {
    Valid(db) && ChainsInOrder(db.tokens)
  }

  /** What is assumed of generated identifiers: a row id is not in the table, and a login's
      chain id is on no row. Nothing is assumed about token digests. */
  ghost predicate FreshIds(db: Store, op: Op) {
    match op
    case Login(_, _, chain, e) => e.issue.rowId !in TokenIds(db.tokens) && chain !in Chains(db.tokens)
    case Refresh(_, e) => e.issue.rowId !in TokenIds(db.tokens)
    case _ => true
  }

  lemma AbsAppend(tokens: seq<Token>, t: Token)
    ensures Abs(tokens + [t]) == AddRow(Abs(tokens), t)
  {
  }

  lemma {:induction false} AbsHistories(tokens: seq<Token>)
    ensures Abs(tokens).Keys == Chains(tokens)
    ensures forall c | c in Abs(tokens) :: Abs(tokens)[c].history != []
    ensures forall c, h | c in Abs(tokens) :: h in Abs(tokens)[c].history <==>
              exists t :: t in tokens && t.chainId == c && t.hash == h
  {
    if tokens != [] {
      var n := |tokens| - 1;
      AbsHistories(tokens[..n]);
      assert tokens == tokens[..n] + [tokens[n]];
    }
  }

  /** The holder of a digest is the chain of its row. */
  lemma HolderIsChain(tokens: seq<Token>, h: Digest)
    requires TokensUnique(tokens)
    ensures
      var row := Lookup(tokens, h);
      Holder(Abs(tokens), h) == if row.None? then None else Some(row.value.chainId)
  {
    AbsHistories(tokens);
    var row := Lookup(tokens, h);
    if row.Some? {
      assert h in Abs(tokens)[row.value.chainId].history;
      var c := Holder(Abs(tokens), h).value;
      var t :| t in tokens && t.chainId == c && t.hash == h;
      assert t == row.value;
    }
  }

  /** The newest row of each chain, found by its digest, is the state of its session. */
  lemma {:induction false} AbsNewest(tokens: seq<Token>, t: Token)
    requires TokensUnique(tokens) && ChainsInOrder(tokens) && t in tokens
    ensures t.chainId in Abs(tokens)
    ensures
      var s := Abs(tokens)[t.chainId];
      && s.user == t.userId
      && (t.Active() ==> s.live && s.Newest(t.hash))
      && (s.Newest(t.hash) ==> s.live == t.Active() && s.expiresAt == t.expiresAt)
  {
    var n := |tokens| - 1;
    var prefix, last := tokens[..n], tokens[n];
    assert tokens == prefix + [last];
    if t != last {
      AbsNewest(prefix, t);
    }
  }

  // ---------- the statements on the ledger ----------

  lemma KillAddRow(m: Ledger, t: Token, sel: Selector, target: Target, now: Time)
    requires sel.Picks(t) <==> target.Picks(t)
    ensures Kill(AddRow(m, t), target) == AddRow(Kill(m, target), RevokeRow(t, sel, now))
  {
    var left, right := Kill(AddRow(m, t), target), AddRow(Kill(m, target), RevokeRow(t, sel, now));
    var s := AddRow(m, t)[t.chainId];
    HitsNewest(s, t, target);
    assert left[t.chainId] == right[t.chainId];
    assert left.Keys == right.Keys;
  }

  /** A session is hit exactly when its newest row is picked. */
  lemma HitsNewest(s: Session, t: Token, target: Target)
    requires s.user == t.userId && s.Newest(t.hash)
    ensures target.Hits(t.chainId, s) <==> target.Picks(t)
  {
  }

  lemma {:induction false} AbsRevoke(tokens: seq<Token>, sel: Selector, target: Target, now: Time)
    requires forall t | t in tokens :: sel.Picks(t) <==> target.Picks(t)
    ensures Abs(Revoke(tokens, sel, now)) == Kill(Abs(tokens), target)
  {
    if tokens != [] {
      var n := |tokens| - 1;
      AbsRevoke(tokens[..n], sel, target, now);
      assert Revoke(tokens, sel, now)[..n] == Revoke(tokens[..n], sel, now);
      assert tokens[n] in tokens;
      KillAddRow(Abs(tokens[..n]), tokens[n], sel, target, now);
    }
  }

  lemma {:induction false} AbsSurviving(tokens: seq<Token>, user: Uuid)
    requires ChainsInOrder(tokens)
    ensures Abs(Surviving(tokens, user)) == Forget(Abs(tokens), user)
  {
    if tokens != [] {
      var n := |tokens| - 1;
      var prefix, last := tokens[..n], tokens[n];
      AbsSurviving(prefix, user);
      AbsOwner(prefix, last);
      ForgetAddRow(Abs(prefix), last, user);
      if last.userId != user {
        AbsAppend(Surviving(prefix, user), last);
      } else {
        assert Surviving(tokens, user) == Surviving(prefix, user);
      }
    }
  }

  lemma ForgetAddRow(m: Ledger, t: Token, user: Uuid)
    requires t.chainId in m ==> m[t.chainId].user == t.userId
    ensures Forget(AddRow(m, t), user) == if t.userId == user then Forget(m, user) else AddRow(Forget(m, user), t)
  {
  }

  lemma {:induction false} AbsOwner(prefix: seq<Token>, last: Token)
    requires forall t | t in prefix && t.chainId == last.chainId :: t.userId == last.userId
    ensures last.chainId in Abs(prefix) ==> Abs(prefix)[last.chainId].user == last.userId
  {
    if prefix != [] {
      var n := |prefix| - 1;
      AbsOwner(prefix[..n], last);
      assert prefix[n] in prefix;
    }
  }
}
