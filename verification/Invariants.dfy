/** What every state keeps that any interleaving of the processes can reach. */
module Invariants {
  import opened Schema
  import opened Constraints
  import opened Interleaving
  import Jwt

  // ---------- what never changes ----------

  /** `t` is row `origin`, revoked or not. */
  predicate SameRow(t: Token, origin: Token) {
    t.(revokedAt := origin.revokedAt, updatedAt := origin.updatedAt) == origin
  }

  /** Revocation is write-once: a row only goes from active to revoked, and then stays as it is. */
  predicate Later(t: Token, after: Token) {
    SameRow(after, t) && (!t.Active() ==> after == t)
  }

  ghost predicate HasLater(tokens: seq<Token>, after: Token) {
    exists t :: t in tokens && t.id == after.id && Later(t, after)
  }

  /** History only grows, and a row known before is as it was, or revoked, or gone for good. */
  ghost predicate Extends(s: State, after: State) {
    && s.now <= after.now
    && s.drawn <= after.drawn && s.userIds <= after.userIds && s.lost <= after.lost
    && (forall c | c in s.owner :: c in after.owner && after.owner[c] == s.owner[c])
    && (forall id | id in s.inserted :: id in after.inserted && after.inserted[id] == s.inserted[id])
    && (forall t | t in after.db.tokens && t.id in s.inserted :: HasLater(s.db.tokens, t))
    && (forall u | u in after.db.users && u.id in s.userIds :: u.id in UserIds(s.db.users))
  }

  lemma ExtendsTransitive(s: State, mid: State, after: State)
    requires Extends(s, mid) && Extends(mid, after)
    ensures Extends(s, after)
  {
  }

  // ---------- the invariant ----------

  ghost predicate Tables(s: State) {
    Valid(s.db) && UserIds(s.db.users) <= s.userIds
  }

  /** Every stored row is one that was inserted, and every inserted row belongs to the user its
      chain was opened for and expires at most one refresh lifetime from now. */
  ghost predicate History(cfg: Config, s: State) {
    && (forall t | t in s.db.tokens :: t.id in s.inserted && SameRow(t, s.inserted[t.id]))
    && (forall id | id in s.inserted :: InsertedWell(cfg, s, id, s.inserted[id]))
    && (forall a, b | a in s.inserted && b in s.inserted :: s.inserted[a].hash == s.inserted[b].hash ==> a == b)
    && (forall c | c in s.owner :: s.owner[c] in s.userIds)
  }

  ghost predicate InsertedWell(cfg: Config, s: State, id: Uuid, row: Token) {
    && row.id == id && row.Active() && row.hash in s.drawn
    && row.chainId in s.owner && s.owner[row.chainId] == row.userId
    && row.createdAt <= s.now && row.expiresAt <= s.now + cfg.refreshTTL
  }

  /** A snapshot a process holds is of a row that was inserted. */
  ghost predicate Known(s: State, read: Token) {
    read.id in s.inserted && SameRow(read, s.inserted[read.id])
  }

  ghost predicate OriginOk(s: State, chain: Uuid, o: Origin) {
    match o
    case Opened => true
    case Spent(id) => id in s.inserted && s.inserted[id].chainId == chain && !ActiveRow(s.db.tokens, id)
    case Missed(id) => id in s.inserted && s.inserted[id].chainId == chain && s.lost[chain] > 0
  }

  ghost predicate InFlight(s: State, user: Uuid, chain: Uuid, o: Origin) {
    chain in s.owner && s.owner[chain] == user && OriginOk(s, chain, o)
  }

  ghost predicate Written(s: State, id: Uuid, user: Uuid, chain: Uuid) {
    id in s.inserted && s.inserted[id].userId == user && s.inserted[id].chainId == chain
  }

  ghost predicate ProcOk(cfg: Config, s: State, pc: Pc) {
    match pc
    case RefreshDecide(read) => Known(s, read)
    case RefreshRevoke(read) => Known(s, read) && read.Active()
    case LogoutRevoke(read) => Known(s, read)
    case IssuePrepare(user, chain, o) => InFlight(s, user, chain, o)
    case IssueInsert(user, chain, o, hash, expiresAt) =>
      InFlight(s, user, chain, o) && hash in s.drawn && expiresAt <= s.now + cfg.refreshTTL
    case IssueSign(user, chain, o, row) => InFlight(s, user, chain, o) && Written(s, row, user, chain)
    case Done(Issued(user, chain, o, row, access)) =>
      && InFlight(s, user, chain, o) && Written(s, row, user, chain)
      && exists minted: Time :: minted <= s.now && access == Jwt.Sign(cfg.signer, user, chain, minted)
    case _ => true
  }

  function OriginOf(pc: Pc): Option<Origin> {
    match pc
    case IssuePrepare(_, _, o) => Some(o)
    case IssueInsert(_, _, o, _, _) => Some(o)
    case IssueSign(_, _, o, _) => Some(o)
    case Done(Issued(_, _, o, _, _)) => Some(o)
    case _ => None
  }

  /** Two processes never spend the same row, nor hold the same digest to insert. */
  ghost predicate Apart(p: Pc, q: Pc) {
    && (OriginOf(p).Some? && OriginOf(p).value.Spent? ==> OriginOf(q) != OriginOf(p))
    && (p.IssueInsert? && q.IssueInsert? ==> p.hash != q.hash)
  }

  ghost predicate AllApart(s: State) {
    && (forall i, j | 0 <= i < |s.procs| && 0 <= j < |s.procs| && i != j :: Apart(s.procs[i], s.procs[j]))
    && (forall i, id | 0 <= i < |s.procs| && s.procs[i].IssueInsert? && id in s.inserted ::
          s.inserted[id].hash != s.procs[i].hash)
  }

  ghost predicate Inv(cfg: Config, s: State) {
    && Tables(s)
    && History(cfg, s)
    && (forall i | 0 <= i < |s.procs| :: ProcOk(cfg, s, s.procs[i]))
    && AllApart(s)
    && Conserved(s)
  }

  lemma StartInv(cfg: Config)
    ensures Inv(cfg, START)
  {
  }

  // ---------- one write ----------

  /** What the invariant guarantees of every write. */
  ghost predicate Sound(cfg: Config, s: State, w: Write) {
    && Fair(s, w)
    && match w
       case Open(_, user) => user in s.userIds
       case Append(row) =>
         && row.id !in s.inserted && row.hash in s.drawn
         && (forall id | id in s.inserted :: s.inserted[id].hash != row.hash)
         && row.chainId in s.owner && s.owner[row.chainId] == row.userId
         && row.createdAt <= s.now && row.expiresAt <= s.now + cfg.refreshTTL
       case Create(u) => u.id !in s.userIds
       case _ => true
  }

  lemma RevokeExtends(s: State, sel: Selector, after: State)
    requires Tables(s) && (forall t | t in s.db.tokens :: t.id in s.inserted)
    requires after.db == s.db.(tokens := Revoke(s.db.tokens, sel, s.now)) && after.userIds == s.userIds
    ensures Tables(after)
    ensures forall t | t in after.db.tokens :: HasLater(s.db.tokens, t)
    ensures forall u | u in after.db.users && u.id in s.userIds :: u.id in UserIds(s.db.users)
  {
  }

  lemma SelfLater(tokens: seq<Token>)
    ensures forall t | t in tokens :: HasLater(tokens, t)
  {
  }

  lemma AppendKeeps(cfg: Config, s: State, row: Token)
    requires Tables(s) && History(cfg, s) && Sound(cfg, s, Append(row))
    ensures Tables(Apply(s, Append(row)))
    ensures forall t | t in Apply(s, Append(row)).db.tokens && t.id in s.inserted :: HasLater(s.db.tokens, t)
  {
  }

  lemma CascadeKeeps(s: State, user: Uuid)
    requires Tables(s)
    ensures Tables(Apply(s, Cascade(user)))
    ensures forall t | t in Apply(s, Cascade(user)).db.tokens :: HasLater(s.db.tokens, t)
  {
    SelfLater(s.db.tokens);
    DeleteUserKeepsValid(s.db, user);
  }

  lemma WriteExtends(cfg: Config, s: State, w: Write)
    requires Tables(s) && History(cfg, s) && Sound(cfg, s, w)
    ensures Tables(Apply(s, w)) && Extends(s, Apply(s, w))
  {
    match w
    case Kill(sel) => RevokeExtends(s, sel, Apply(s, w));
    case Spend(read) => RevokeExtends(s, ById(read.id), Apply(s, w));
    case Append(row) => AppendKeeps(cfg, s, row);
    case Create(u) => CreateUserKeepsValid(s.db, u); SelfLater(s.db.tokens);
    case Change(id, p) => UpdateUserKeepsValid(s.db, id, p, s.now); SelfLater(s.db.tokens);
    case Cascade(user) => CascadeKeeps(s, user);
    case _ => SelfLater(s.db.tokens);
  }

  lemma WriteKeepsHistory(cfg: Config, s: State, w: Write)
    requires Tables(s) && History(cfg, s) && Sound(cfg, s, w)
    ensures History(cfg, Apply(s, w))
  {
    var after := Apply(s, w);
    WriteExtends(cfg, s, w);
    forall t | t in after.db.tokens ensures t.id in after.inserted && SameRow(t, after.inserted[t.id]) {
      if t.id in s.inserted {
        assert HasLater(s.db.tokens, t);
      }
    }
    WriteKeepsInserted(cfg, s, w);
  }

  lemma WriteKeepsInserted(cfg: Config, s: State, w: Write)
    requires Tables(s) && History(cfg, s) && Sound(cfg, s, w)
    ensures
      var after := Apply(s, w);
      && (forall id | id in after.inserted :: InsertedWell(cfg, after, id, after.inserted[id]))
      && (forall a, b | a in after.inserted && b in after.inserted ::
            after.inserted[a].hash == after.inserted[b].hash ==> a == b)
  {
    var after := Apply(s, w);
    forall id | id in after.inserted ensures InsertedWell(cfg, after, id, after.inserted[id]) {
      assert id in s.inserted ==> InsertedWell(cfg, s, id, s.inserted[id]);
    }
  }

  lemma ProcOkExtends(cfg: Config, s: State, after: State, pc: Pc)
    requires Extends(s, after) && ProcOk(cfg, s, pc)
    ensures ProcOk(cfg, after, pc)
  {
  }

  // ---------- one step ----------

  lemma StatementSound(cfg: Config, s: State, i: nat, pick: Pick)
    requires Inv(cfg, s) && Enabled(s, Advance(i, pick))
    ensures Sound(cfg, s, Statement(cfg, s, s.procs[i], pick).write)
  {
  }

  lemma SpendSpends(s: State, read: Token)
    ensures !ActiveRow(Apply(s, Spend(read)).db.tokens, read.id)
  {
  }

  lemma RevokeProcOk(cfg: Config, s: State, i: nat, pick: Pick)
    requires Inv(cfg, s) && i < |s.procs| && s.procs[i].RefreshRevoke?
    ensures
      var e := Statement(cfg, s, s.procs[i], pick);
      ProcOk(cfg, Apply(s, e.write), e.pc)
  {
    assert ProcOk(cfg, s, s.procs[i]);
    SpendSpends(s, s.procs[i].read);
  }

  lemma IssueProcOk(cfg: Config, s: State, i: nat, pick: Pick)
    requires Inv(cfg, s) && Enabled(s, Advance(i, pick))
    requires s.procs[i].Pending()
    ensures
      var e := Statement(cfg, s, s.procs[i], pick);
      ProcOk(cfg, Apply(s, e.write), e.pc)
  {
    var e := Statement(cfg, s, s.procs[i], pick);
    StatementSound(cfg, s, i, pick);
    WriteExtends(cfg, s, e.write);
    ProcOkExtends(cfg, s, Apply(s, e.write), s.procs[i]);
  }

  lemma StatementProcOk(cfg: Config, s: State, i: nat, pick: Pick)
    requires Inv(cfg, s) && Enabled(s, Advance(i, pick))
    ensures
      var e := Statement(cfg, s, s.procs[i], pick);
      ProcOk(cfg, Apply(s, e.write), e.pc)
  {
    assert ProcOk(cfg, s, s.procs[i]);
    if s.procs[i].RefreshRevoke? {
      RevokeProcOk(cfg, s, i, pick);
    } else if s.procs[i].Pending() {
      IssueProcOk(cfg, s, i, pick);
    }
  }

  /** The new position of process `i` still shares nothing with any other process. */
  lemma StatementApart(cfg: Config, s: State, i: nat, pick: Pick, j: nat)
    requires Inv(cfg, s) && Enabled(s, Advance(i, pick)) && j < |s.procs| && j != i
    ensures Apart(Statement(cfg, s, s.procs[i], pick).pc, s.procs[j])
    ensures Apart(s.procs[j], Statement(cfg, s, s.procs[i], pick).pc)
  {
    assert Apart(s.procs[i], s.procs[j]) && Apart(s.procs[j], s.procs[i]);
    assert ProcOk(cfg, s, s.procs[j]);
  }

  lemma StatementFresh(cfg: Config, s: State, i: nat, pick: Pick, j: nat, id: Uuid)
    requires Inv(cfg, s) && Enabled(s, Advance(i, pick)) && j < |s.procs|
    requires
      var after := Perform(s, i, Statement(cfg, s, s.procs[i], pick));
      after.procs[j].IssueInsert? && id in after.inserted
    ensures
      var after := Perform(s, i, Statement(cfg, s, s.procs[i], pick));
      after.inserted[id].hash != after.procs[j].hash
  {
    assert j != i ==> Apart(s.procs[i], s.procs[j]);
    assert id in s.inserted ==> InsertedWell(cfg, s, id, s.inserted[id]);
  }

  /** Processes that stay where they are stay right; only the new position needs a look. */
  lemma ProcsStayOk(cfg: Config, s: State, after: State, moved: nat)
    requires Extends(s, after) && |s.procs| <= |after.procs|
    requires forall j | 0 <= j < |s.procs| :: ProcOk(cfg, s, s.procs[j])
    requires forall j | 0 <= j < |after.procs| && j != moved :: j < |s.procs| && after.procs[j] == s.procs[j]
    requires moved < |after.procs| ==> ProcOk(cfg, after, after.procs[moved])
    ensures forall j | 0 <= j < |after.procs| :: ProcOk(cfg, after, after.procs[j])
  {
  }

  /** `mid` is `s` after a write; process `i` then moves to `pc`. */
  lemma MoveProc(cfg: Config, s: State, mid: State, i: nat, pc: Pc)
    requires forall j | 0 <= j < |s.procs| :: ProcOk(cfg, s, s.procs[j])
    requires Tables(mid) && History(cfg, mid) && Extends(s, mid)
    requires i < |s.procs| && ProcOk(cfg, mid, pc)
    ensures
      var after := mid.(procs := s.procs[i := pc]);
      && Tables(after) && History(cfg, after) && Extends(s, after)
      && forall j | 0 <= j < |after.procs| :: ProcOk(cfg, after, after.procs[j])
  {
    var after := mid.(procs := s.procs[i := pc]);
    assert forall id | id in after.inserted :: InsertedWell(cfg, mid, id, after.inserted[id]);
    SelfLater(mid.db.tokens);
    ProcOkExtends(cfg, mid, after, pc);
    ProcsStayOk(cfg, s, after, i);
  }

  lemma EffectProcs(cfg: Config, s: State, i: nat, e: Effect)
    requires Tables(s) && History(cfg, s) && forall j | 0 <= j < |s.procs| :: ProcOk(cfg, s, s.procs[j])
    requires i < |s.procs| && Sound(cfg, s, e.write) && ProcOk(cfg, Apply(s, e.write), e.pc)
    ensures
      var after := Perform(s, i, e);
      && Tables(after) && History(cfg, after) && Extends(s, after)
      && forall j | 0 <= j < |after.procs| :: ProcOk(cfg, after, after.procs[j])
  {
    WriteExtends(cfg, s, e.write);
    WriteKeepsHistory(cfg, s, e.write);
    MoveProc(cfg, s, Apply(s, e.write), i, e.pc);
  }

  lemma AdvanceProcs(cfg: Config, s: State, i: nat, pick: Pick)
    requires Inv(cfg, s) && Enabled(s, Advance(i, pick))
    ensures
      var after := Perform(s, i, Statement(cfg, s, s.procs[i], pick));
      && Tables(after) && History(cfg, after) && Extends(s, after)
      && forall j | 0 <= j < |after.procs| :: ProcOk(cfg, after, after.procs[j])
  {
    StatementSound(cfg, s, i, pick);
    StatementProcOk(cfg, s, i, pick);
    EffectProcs(cfg, s, i, Statement(cfg, s, s.procs[i], pick));
  }

  lemma AdvanceApart(cfg: Config, s: State, i: nat, pick: Pick)
    requires Inv(cfg, s) && Enabled(s, Advance(i, pick))
    ensures AllApart(Perform(s, i, Statement(cfg, s, s.procs[i], pick)))
  {
    var after := Perform(s, i, Statement(cfg, s, s.procs[i], pick));
    forall j, k | 0 <= j < |after.procs| && 0 <= k < |after.procs| && j != k
      ensures Apart(after.procs[j], after.procs[k])
    {
      if j == i {
        StatementApart(cfg, s, i, pick, k);
      } else if k == i {
        StatementApart(cfg, s, i, pick, j);
      }
    }
    forall j, id | 0 <= j < |after.procs| && after.procs[j].IssueInsert? && id in after.inserted
      ensures after.inserted[id].hash != after.procs[j].hash
    {
      StatementFresh(cfg, s, i, pick, j, id);
    }
  }

  lemma AdvanceConserves(cfg: Config, s: State, i: nat, pick: Pick)
    requires Inv(cfg, s) && Enabled(s, Advance(i, pick))
    ensures Conserved(Perform(s, i, Statement(cfg, s, s.procs[i], pick)))
  {
    var e := Statement(cfg, s, s.procs[i], pick);
    StatementSound(cfg, s, i, pick);
    forall c: Uuid ensures Balanced(Perform(s, i, e), c) {
      assert Balanced(s, c);
      ClaimsAreGranted(cfg, s, s.procs[i], pick, c);
      EffectBalances(s, i, e, c);
    }
  }

  lemma AdvanceKeepsInv(cfg: Config, s: State, i: nat, pick: Pick)
    requires Inv(cfg, s) && Enabled(s, Advance(i, pick))
    ensures Inv(cfg, Next(cfg, s, Advance(i, pick)))
  {
    AdvanceProcs(cfg, s, i, pick);
    AdvanceApart(cfg, s, i, pick);
    AdvanceConserves(cfg, s, i, pick);
  }

  lemma WriteConserves(s: State, w: Write)
    requires TokensUnique(s.db.tokens) && Conserved(s) && Fair(s, w)
    requires forall c: Uuid :: Grant(w, c) == Cost(w, c) == 0
    ensures Conserved(Apply(s, w))
  {
    forall c: Uuid ensures Balanced(Apply(s, w), c) {
      assert Balanced(s, c);
      WriteBalances(s, w, c);
    }
  }

  /** A write by nobody's process. */
  lemma EnvironmentKeepsInv(cfg: Config, s: State, w: Write)
    requires Inv(cfg, s) && Sound(cfg, s, w) && !w.Append? && !w.Spend? && !w.Open? && !w.Waste?
    ensures Inv(cfg, Apply(s, w))
  {
    var after := Apply(s, w);
    WriteExtends(cfg, s, w);
    WriteKeepsHistory(cfg, s, w);
    ProcsStayOk(cfg, s, after, |s.procs|);
    WriteConserves(s, w);
  }

  lemma SpawnConserves(s: State, pc: Pc)
    requires Conserved(s) && pc.Initial()
    ensures Conserved(s.(procs := s.procs + [pc]))
  {
    forall c: Uuid ensures Balanced(s.(procs := s.procs + [pc]), c) {
      assert Balanced(s, c);
      AppendPending(s.procs, pc, c);
    }
  }

  lemma SpawnKeepsInv(cfg: Config, s: State, pc: Pc)
    requires Inv(cfg, s) && pc.Initial()
    ensures Inv(cfg, Next(cfg, s, Spawn(pc)))
  {
    SelfLater(s.db.tokens);
    ProcsStayOk(cfg, s, Next(cfg, s, Spawn(pc)), |s.procs|);
    SpawnConserves(s, pc);
  }

  lemma AbortConserves(s: State, i: nat)
    requires TokensUnique(s.db.tokens) && Conserved(s) && i < |s.procs|
    ensures Conserved(Perform(s, i, Stop(s.procs[i])))
  {
    forall c: Uuid ensures Balanced(Perform(s, i, Stop(s.procs[i])), c) {
      assert Balanced(s, c);
      EffectBalances(s, i, Stop(s.procs[i]), c);
    }
  }

  lemma AbortKeepsInv(cfg: Config, s: State, i: nat)
    requires Inv(cfg, s) && Enabled(s, Abort(i))
    ensures Inv(cfg, Next(cfg, s, Abort(i)))
  {
    EffectProcs(cfg, s, i, Stop(s.procs[i]));
    AbortConserves(s, i);
  }

  lemma StepKeepsInv(cfg: Config, s: State, a: Action)
    requires Inv(cfg, s) && Enabled(s, a)
    ensures Inv(cfg, Next(cfg, s, a))
  {
    match a
    case Tick(d) => EnvironmentKeepsInv(cfg, s, Wait(d));
    case Spawn(pc) => SpawnKeepsInv(cfg, s, pc);
    case Advance(i, pick) => AdvanceKeepsInv(cfg, s, i, pick);
    case Abort(i) => AbortKeepsInv(cfg, s, i);
    case AddUser(u) => EnvironmentKeepsInv(cfg, s, Create(u));
    case PatchUser(id, p) => EnvironmentKeepsInv(cfg, s, Change(id, p));
    case DropUser(id) => EnvironmentKeepsInv(cfg, s, Cascade(id));
  }

  lemma StepExtends(cfg: Config, s: State, a: Action)
    requires Inv(cfg, s) && Enabled(s, a)
    ensures Extends(s, Next(cfg, s, a))
  {
    match a
    case Tick(d) => WriteExtends(cfg, s, Wait(d));
    case Spawn(_) => WriteExtends(cfg, s, Nothing);
    case Advance(i, pick) =>
      StatementSound(cfg, s, i, pick);
      WriteExtends(cfg, s, Statement(cfg, s, s.procs[i], pick).write);
    case Abort(i) => WriteExtends(cfg, s, Stop(s.procs[i]).write);
    case AddUser(u) => WriteExtends(cfg, s, Create(u));
    case PatchUser(id, p) => WriteExtends(cfg, s, Change(id, p));
    case DropUser(id) => WriteExtends(cfg, s, Cascade(id));
  }

  /** Every interleaving keeps the invariant, and no row is ever reactivated, re-stamped or
      brought back. */
  lemma {:induction false} RunKeepsInv(cfg: Config, s: State, acts: seq<Action>)
    requires Inv(cfg, s) && Schedulable(cfg, s, acts)
    ensures Inv(cfg, Run(cfg, s, acts)) && Extends(s, Run(cfg, s, acts))
    decreases |acts|
  {
    if acts == [] {
      WriteExtends(cfg, s, Nothing);
    } else {
      var next := Next(cfg, s, acts[0]);
      StepKeepsInv(cfg, s, acts[0]);
      StepExtends(cfg, s, acts[0]);
      RunKeepsInv(cfg, next, acts[1..]);
      ExtendsTransitive(s, next, Run(cfg, s, acts));
    }
  }
}
