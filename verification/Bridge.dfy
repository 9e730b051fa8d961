/** A whole call is one schedule of the step model in which its process runs undisturbed, so
    what holds of every interleaving holds of runs of whole calls. */
module Bridge {
  import opened Schema
  import opened Interleaving
  import opened Invariants
  import opened Schedules
  import AuthSpec
  import Guarantees
  import Jwt
  import Refinement
  import Sessions

  function StepConfig(cfg: AuthSpec.Config): Config {
    Config(cfg.signer, cfg.refreshTTL)
  }

  // ---------- generated values ----------

  /** The values that may be drawn, and the time by which. */
  datatype Supply = Supply(users: set<Uuid>, chains: set<Uuid>, digests: set<Digest>, rows: set<Uuid>, until: Time)

  function DigestsOf(cfg: AuthSpec.Config, e: AuthSpec.Issue): set<Digest> {
    var h := Sessions.NewDigest(cfg, e);
    if h.Some? then {h.value} else {}
  }

  /** What a call draws. */
  function Draws(cfg: AuthSpec.Config, op: AuthSpec.Op, to: Time): Supply {
    match op
    case Login(_, _, chain, e) => Supply({}, {chain}, DigestsOf(cfg, e.issue), {e.issue.rowId}, to)
    case Refresh(_, e) => Supply({}, {}, DigestsOf(cfg, e.issue), {e.issue.rowId}, to)
    case CreateUser(u) => Supply({u.id}, {}, {}, {}, to)
    case _ => Supply({}, {}, {}, {}, to)
  }

  /** None of them has been drawn before. */
  ghost predicate Unused(s: State, supply: Supply) {
    && supply.users !! s.userIds && supply.chains !! s.owner.Keys
    && supply.digests !! s.drawn && supply.rows !! s.inserted.Keys
  }

  /** Nothing else is drawn between `s` and `end`. */
  ghost predicate DrawnFrom(s: State, end: State, supply: Supply) {
    && end.userIds <= s.userIds + supply.users && end.owner.Keys <= s.owner.Keys + supply.chains
    && end.drawn <= s.drawn + supply.digests && end.inserted.Keys <= s.inserted.Keys + supply.rows
    && s.now <= end.now <= supply.until
  }

  // ---------- one process at a time ----------

  /** Some schedule leads from `s` to `end` in which only process `i` moves and no race is lost. */
  ghost predicate Moves(cfg: Config, s: State, i: nat, end: State, supply: Supply) {
    && Leads(cfg, s, end) && Inv(cfg, end)
    && i < |s.procs| && |end.procs| == |s.procs| && end.procs == s.procs[i := end.procs[i]]
    && end.lost == s.lost && DrawnFrom(s, end, supply)
  }

  lemma MovesOn(cfg: Config, s: State, mid: State, i: nat, end: State, supply: Supply)
    requires Moves(cfg, s, i, mid, supply) && Moves(cfg, mid, i, end, supply)
    ensures Moves(cfg, s, i, end, supply)
  {
    LeadsOn(cfg, s, mid, end);
  }

  ghost predicate Allowed(s: State, w: Write, supply: Supply) {
    match w
    case Open(chain, _) => chain in supply.chains
    case Draw(hash) => hash in supply.digests
    case Append(row) => row.id in supply.rows
    case Spend(read) => ActiveRow(s.db.tokens, read.id)
    case Nothing => true
    case Kill(_) => true
    case Waste(_) => true
    case _ => false
  }

  /** At time `at` process `i` runs its statement, whose effect is `e`. */
  lemma Step(cfg: Config, s: State, i: nat, at: Time, pick: Pick, e: Effect, supply: Supply) returns (end: State)
    requires Inv(cfg, s) && s.now <= at <= supply.until && Enabled(s, Advance(i, pick))
    requires e == Statement(cfg, s.(now := at), s.procs[i], pick) && Allowed(s, e.write, supply)
    ensures Moves(cfg, s, i, end, supply) && end.procs[i] == e.pc && end.now == at
    ensures end.db == Apply(s.(now := at), e.write).db
    ensures !e.write.Append? ==> end.inserted == s.inserted
    ensures !e.write.Draw? ==> end.drawn == s.drawn
  {
    var later := WaitUntil(cfg, s, at);
    end := Moved(cfg, later, i, pick, e);
    LeadsOn(cfg, s, later, end);
  }

  /** A step that writes nothing. */
  lemma Look(cfg: Config, s: State, i: nat, at: Time, next: Pc, supply: Supply) returns (end: State)
    requires Inv(cfg, s) && s.now <= at <= supply.until && Enabled(s, Advance(i, NONE))
    requires Statement(cfg, s.(now := at), s.procs[i], NONE) == Effect(Nothing, next)
    ensures Moves(cfg, s, i, end, supply) && end.procs[i] == next && end.now == at
    ensures end.db == s.db && end.inserted == s.inserted && end.drawn == s.drawn
  {
    end := Step(cfg, s, i, at, NONE, Effect(Nothing, next), supply);
  }

  lemma GiveUp(cfg: Config, s: State, i: nat, supply: Supply) returns (end: State)
    requires Inv(cfg, s) && i < |s.procs| && !s.procs[i].Done? && s.now <= supply.until
    ensures Moves(cfg, s, i, end, supply) && end.db == s.db && end.procs[i] == Done(Failed)
  {
    end := OneStep(cfg, s, Abort(i));
  }

  /** What a reply says about the process that served the call. A caller that sees a failure may
      have had its UPDATE carried out, but never a pair issued. */
  ghost predicate Agrees(reply: AuthSpec.Reply, pc: Pc) {
    pc.Done? &&
    match reply
    case Tokens(access, _) => pc.outcome.Issued? && pc.outcome.access == access
    case Reuse => pc.outcome.Reuse?
    case Expired => pc.outcome.Expired?
    case Unknown => pc.outcome.Unknown?
    case LoggedOut => pc.outcome.LoggedOut?
    case InvalidCredentials => pc.outcome.Failed?
    case Failed => pc.outcome.Failed? || pc.outcome.Reuse? || pc.outcome.LoggedOut?
  }

  /** Process `i` runs to its end, and tables and reply are what the call says. */
  ghost predicate Serves(cfg: Config, s: State, i: nat, end: State, supply: Supply, result: (Store, AuthSpec.Reply)) {
    Moves(cfg, s, i, end, supply) && end.db == result.0 && Agrees(result.1, end.procs[i])
  }

  // ---------- issuing a pair ----------

  /** Readings of the clock while a pair is issued. */
  predicate Timed(s: State, e: AuthSpec.Issue, until: Time) {
    s.now <= e.preparedAt <= e.createdAt <= e.signedAt <= until
  }

  lemma SignAlone(cfg: AuthSpec.Config, s: State, i: nat, e: AuthSpec.Issue, signs: bool, supply: Supply)
      returns (end: State)
    requires Inv(StepConfig(cfg), s) && i < |s.procs| && s.procs[i].IssueSign? && s.now <= e.signedAt <= supply.until
    ensures Moves(StepConfig(cfg), s, i, end, supply) && end.db == s.db && end.procs[i].Done?
    ensures if !signs then end.procs[i] == Done(Failed) else
              && end.procs[i].outcome.Issued?
              && end.procs[i].outcome.access == Jwt.Sign(cfg.signer, s.procs[i].user, s.procs[i].chain, e.signedAt)
  {
    var c, pc := StepConfig(cfg), s.procs[i];
    if signs {
      var access := Jwt.Sign(cfg.signer, pc.user, pc.chain, e.signedAt);
      var issued := Issued(pc.user, pc.chain, pc.origin, pc.row, access);
      end := Step(c, s, i, e.signedAt, NONE, Effect(Nothing, Done(issued)), supply);
    } else {
      end := GiveUp(c, s, i, supply);
    }
  }

  lemma InsertAlone(cfg: AuthSpec.Config, s: State, i: nat, e: AuthSpec.Issue, row: Token, supply: Supply)
      returns (end: State)
    requires Inv(StepConfig(cfg), s) && i < |s.procs| && s.procs[i].IssueInsert? && !e.create.Dropped?
    requires e.rowId !in s.inserted && e.rowId in supply.rows && s.now <= e.createdAt <= e.signedAt <= supply.until
    requires
      var pc := s.procs[i];
      row == NewToken(e.rowId, pc.user, pc.hash, pc.chain, pc.expiresAt, e.createdAt)
    ensures Moves(StepConfig(cfg), s, i, end, supply) && end.db == Insert(s.db, row) && end.procs[i].Done?
    ensures if !(Insertable(s.db, row) && e.create.Applied? && e.signs) then end.procs[i] == Done(Failed) else
              && end.procs[i].outcome.Issued?
              && end.procs[i].outcome.access == Jwt.Sign(cfg.signer, row.userId, row.chainId, e.signedAt)
  {
    var c, pc, pick := StepConfig(cfg), s.procs[i], Pick(0, 0, 0, e.rowId);
    if Insertable(s.db, row) {
      var written := Effect(Append(row), IssueSign(pc.user, pc.chain, pc.origin, row.id));
      var mid := Step(c, s, i, e.createdAt, pick, written, supply);
      end := SignAlone(cfg, mid, i, e, e.create.Applied? && e.signs, supply);
      MovesOn(c, s, mid, i, end, supply);
    } else {
      end := Step(c, s, i, e.createdAt, pick, Effect(Waste(pc.chain), Done(Failed)), supply);
    }
  }

  /** What an issue does once its token is drawn. */
  lemma StoreAlone(cfg: AuthSpec.Config, s: State, i: nat, e: AuthSpec.Issue, row: Token, supply: Supply)
      returns (end: State)
    requires Inv(StepConfig(cfg), s) && i < |s.procs| && s.procs[i].IssueInsert?
    requires e.rowId !in s.inserted && e.rowId in supply.rows && s.now <= e.createdAt <= e.signedAt <= supply.until
    requires
      var pc := s.procs[i];
      row == NewToken(e.rowId, pc.user, pc.hash, pc.chain, pc.expiresAt, e.createdAt)
    ensures Moves(StepConfig(cfg), s, i, end, supply) && end.procs[i].Done?
    ensures end.db == if e.create.Dropped? then s.db else Insert(s.db, row)
    ensures if !(Insertable(s.db, row) && e.create.Applied? && e.signs) then end.procs[i] == Done(Failed) else
              && end.procs[i].outcome.Issued?
              && end.procs[i].outcome.access == Jwt.Sign(cfg.signer, row.userId, row.chainId, e.signedAt)
  {
    if e.create.Dropped? {
      end := GiveUp(StepConfig(cfg), s, i, supply);
    } else {
      end := InsertAlone(cfg, s, i, e, row, supply);
    }
  }

  lemma DrawAlone(cfg: Config, s: State, i: nat, at: Time, h: Digest, supply: Supply) returns (end: State)
    requires Inv(cfg, s) && i < |s.procs| && s.procs[i].IssuePrepare? && s.now <= at <= supply.until
    requires h in supply.digests && h !in s.drawn
    ensures Moves(cfg, s, i, end, supply) && end.db == s.db && end.inserted == s.inserted && end.now == at
    ensures
      var pc := s.procs[i];
      end.procs[i] == IssueInsert(pc.user, pc.chain, pc.origin, h, at + cfg.refreshTTL)
  {
    var pc := s.procs[i];
    var drawn := Effect(Draw(h), IssueInsert(pc.user, pc.chain, pc.origin, h, at + cfg.refreshTTL));
    end := Step(cfg, s, i, at, Pick(0, 0, h, 0), drawn, supply);
  }

  lemma IssueAlone(cfg: AuthSpec.Config, s: State, i: nat, e: AuthSpec.Issue, supply: Supply) returns (end: State)
    requires Inv(StepConfig(cfg), s) && i < |s.procs| && s.procs[i].IssuePrepare?
    requires DigestsOf(cfg, e) <= supply.digests && supply.digests !! s.drawn
    requires e.rowId !in s.inserted && e.rowId in supply.rows && Timed(s, e, supply.until)
    ensures Serves(StepConfig(cfg), s, i, end, supply,
                   AuthSpec.IssuePair(cfg, s.db, s.procs[i].user, s.procs[i].chain, e))
  {
    var c, pc, h := StepConfig(cfg), s.procs[i], Sessions.NewDigest(cfg, e);
    if h.None? {
      end := GiveUp(c, s, i, supply);
    } else {
      var row := NewToken(e.rowId, pc.user, h.value, pc.chain, e.preparedAt + cfg.refreshTTL, e.createdAt);
      var mid := DrawAlone(c, s, i, e.preparedAt, h.value, supply);
      end := StoreAlone(cfg, mid, i, e, row, supply);
      MovesOn(c, s, mid, i, end, supply);
      Refinement.PairSpelledOut(cfg, s.db, pc.user, pc.chain, e, row);
    }
  }

  // ---------- the four calls ----------

  /** A last UPDATE: it may fail before or after it took effect. */
  lemma KillAlone(cfg: Config, s: State, i: nat, sel: Selector, fate: Fate, at: Time, o: Outcome,
      reply: AuthSpec.Reply, supply: Supply)
      returns (end: State)
    requires Inv(cfg, s) && i < |s.procs| && !s.procs[i].Done? && s.now <= at <= supply.until
    requires Enabled(s, Advance(i, NONE))
    requires Statement(cfg, s.(now := at), s.procs[i], NONE) == Effect(Kill(sel), Done(o))
    requires Agrees(reply, Done(o)) && (o.Reuse? || o.LoggedOut?)
    ensures Serves(cfg, s, i, end, supply,
                   (AuthSpec.RevokeStatement(s.db, sel, fate, at), if fate.Applied? then reply else AuthSpec.Failed))
  {
    if fate.Dropped? {
      end := GiveUp(cfg, s, i, supply);
    } else {
      end := Step(cfg, s, i, at, NONE, Effect(Kill(sel), Done(o)), supply);
    }
  }

  /** The revoke of a rotation, while the row is still active. */
  lemma SpendAlone(cfg: Config, s: State, i: nat, row: Token, at: Time, supply: Supply) returns (end: State)
    requires Inv(cfg, s) && i < |s.procs| && s.procs[i] == RefreshRevoke(row) && s.now <= at <= supply.until
    requires row in s.db.tokens && row.Active()
    ensures Moves(cfg, s, i, end, supply) && end.now == at && end.inserted == s.inserted && end.drawn == s.drawn
    ensures end.db == s.db.(tokens := Revoke(s.db.tokens, ById(row.id), at))
    ensures end.procs[i] == IssuePrepare(row.userId, row.chainId, Spent(row.id))
  {
    assert ActiveRow(s.db.tokens, row.id);
    end := Step(cfg, s, i, at, NONE, Effect(Spend(row), IssuePrepare(row.userId, row.chainId, Spent(row.id))), supply);
  }

  /** A rotation from its revoke on. */
  function Rotation(cfg: AuthSpec.Config, db: Store, row: Token, e: AuthSpec.Env): (Store, AuthSpec.Reply) {
    var spent := AuthSpec.RevokeStatement(db, ById(row.id), e.revoke, e.revokedAt);
    if e.revoke.Applied? then AuthSpec.IssuePair(cfg, spent, row.userId, row.chainId, e.issue)
    else (spent, AuthSpec.Failed)
  }

  lemma RotateAlone(cfg: AuthSpec.Config, s: State, i: nat, row: Token, e: AuthSpec.Env, supply: Supply)
      returns (end: State)
    requires Inv(StepConfig(cfg), s) && i < |s.procs| && s.procs[i] == RefreshRevoke(row)
    requires row in s.db.tokens && row.Active() && s.now <= e.revokedAt
    requires DigestsOf(cfg, e.issue) <= supply.digests && supply.digests !! s.drawn
    requires e.issue.rowId !in s.inserted && e.issue.rowId in supply.rows
    requires Timed(s.(now := e.revokedAt), e.issue, supply.until)
    ensures Serves(StepConfig(cfg), s, i, end, supply, Rotation(cfg, s.db, row, e))
  {
    var c := StepConfig(cfg);
    if e.revoke.Dropped? {
      end := GiveUp(c, s, i, supply);
    } else {
      var mid := SpendAlone(c, s, i, row, e.revokedAt, supply);
      if e.revoke.Applied? {
        end := IssueAlone(cfg, mid, i, e.issue, supply);
      } else {
        end := GiveUp(c, mid, i, supply);
      }
      MovesOn(c, s, mid, i, end, supply);
    }
  }

  ghost predicate CanRefresh(cfg: AuthSpec.Config, s: State, e: AuthSpec.Env, supply: Supply) {
    && DigestsOf(cfg, e.issue) <= supply.digests && supply.digests !! s.drawn
    && e.issue.rowId !in s.inserted && e.issue.rowId in supply.rows
    && s.now <= e.decidedAt <= e.revokedAt && Timed(s.(now := e.revokedAt), e.issue, supply.until)
  }

  lemma RefreshSpelledOut(cfg: AuthSpec.Config, db: Store, presented: string, e: AuthSpec.Env, row: Token)
    requires e.readable && Lookup(db.tokens, cfg.digest(presented)) == Some(row)
    ensures AuthSpec.RefreshCall(cfg, db, presented, e) ==
            if !row.Active() then
              (AuthSpec.RevokeStatement(db, ByChain(row.chainId), e.revoke, e.revokedAt),
               if e.revoke.Applied? then AuthSpec.Reuse else AuthSpec.Failed)
            else if e.decidedAt > row.expiresAt then (db, AuthSpec.Expired)
            else Rotation(cfg, db, row, e)
  {
  }

  /** A refresh from its decision on. */
  lemma DecideAlone(cfg: AuthSpec.Config, s: State, i: nat, presented: string, row: Token, e: AuthSpec.Env,
      supply: Supply)
      returns (end: State)
    requires Inv(StepConfig(cfg), s) && i < |s.procs| && s.procs[i] == RefreshDecide(row)
    requires e.readable && Lookup(s.db.tokens, cfg.digest(presented)) == Some(row) && CanRefresh(cfg, s, e, supply)
    ensures Serves(StepConfig(cfg), s, i, end, supply, AuthSpec.RefreshCall(cfg, s.db, presented, e))
  {
    var c := StepConfig(cfg);
    RefreshSpelledOut(cfg, s.db, presented, e, row);
    if !row.Active() {
      var mid := Look(c, s, i, e.decidedAt, RefreshKill(row.chainId), supply);
      end := KillAlone(c, mid, i, ByChain(row.chainId), e.revoke, e.revokedAt,
                       Reuse(row.chainId), AuthSpec.Reuse, supply);
      MovesOn(c, s, mid, i, end, supply);
    } else if e.decidedAt > row.expiresAt {
      end := Look(c, s, i, e.decidedAt, Done(Expired), supply);
    } else {
      var mid := Look(c, s, i, e.decidedAt, RefreshRevoke(row), supply);
      end := RotateAlone(cfg, mid, i, row, e, supply);
      MovesOn(c, s, mid, i, end, supply);
    }
  }

  lemma RefreshAlone(cfg: AuthSpec.Config, s: State, i: nat, presented: string, e: AuthSpec.Env, supply: Supply)
      returns (end: State)
    requires Inv(StepConfig(cfg), s) && i < |s.procs| && s.procs[i] == RefreshLookup(cfg.digest(presented))
    requires CanRefresh(cfg, s, e, supply)
    ensures Serves(StepConfig(cfg), s, i, end, supply, AuthSpec.RefreshCall(cfg, s.db, presented, e))
  {
    var c, found := StepConfig(cfg), Lookup(s.db.tokens, cfg.digest(presented));
    if !e.readable {
      end := GiveUp(c, s, i, supply);
    } else if found.None? {
      end := Look(c, s, i, s.now, Done(Unknown), supply);
    } else {
      var mid := Look(c, s, i, s.now, RefreshDecide(found.value), supply);
      end := DecideAlone(cfg, mid, i, presented, found.value, e, supply);
      MovesOn(c, s, mid, i, end, supply);
    }
  }

  lemma LoginAlone(cfg: AuthSpec.Config, s: State, i: nat, email: string, password: string, chain: Uuid,
      e: AuthSpec.Env, supply: Supply)
      returns (end: State)
    requires Inv(StepConfig(cfg), s) && i < |s.procs| && s.procs[i] == LoginLookup
    requires chain !in s.owner && chain in supply.chains
    requires DigestsOf(cfg, e.issue) <= supply.digests && supply.digests !! s.drawn
    requires e.issue.rowId !in s.inserted && e.issue.rowId in supply.rows && Timed(s, e.issue, supply.until)
    ensures Serves(StepConfig(cfg), s, i, end, supply, AuthSpec.LoginCall(cfg, s.db, email, password, chain, e))
  {
    var c, user := StepConfig(cfg), UserByEmail(s.db.users, email);
    if !e.readable || user.None? || !cfg.passwordMatches(user.value.passwordHash, password) {
      end := GiveUp(c, s, i, supply);
    } else {
      var opening := Effect(Open(chain, user.value.id), IssuePrepare(user.value.id, chain, Opened));
      var mid := Step(c, s, i, s.now, Pick(user.value.id, chain, 0, 0), opening, supply);
      end := IssueAlone(cfg, mid, i, e.issue, supply);
      MovesOn(c, s, mid, i, end, supply);
    }
  }

  lemma LogoutAlone(cfg: AuthSpec.Config, s: State, i: nat, presented: string, e: AuthSpec.Env, supply: Supply)
      returns (end: State)
    requires Inv(StepConfig(cfg), s) && i < |s.procs| && s.procs[i] == LogoutLookup(cfg.digest(presented))
    requires s.now <= e.revokedAt <= supply.until
    ensures Serves(StepConfig(cfg), s, i, end, supply, AuthSpec.LogoutCall(cfg, s.db, presented, e))
  {
    var c, found := StepConfig(cfg), Lookup(s.db.tokens, cfg.digest(presented));
    if !e.readable {
      end := GiveUp(c, s, i, supply);
    } else if found.None? {
      end := Look(c, s, i, s.now, Done(LoggedOut), supply);
    } else {
      var mid := Look(c, s, i, s.now, LogoutRevoke(found.value), supply);
      end := KillAlone(c, mid, i, ById(found.value.id), e.revoke, e.revokedAt, LoggedOut, AuthSpec.LoggedOut, supply);
      MovesOn(c, s, mid, i, end, supply);
    }
  }

  // ---------- whole calls and whole runs ----------

  /** What a schedule does that carries out the whole call `op`. */
  ghost predicate CarriesOut(cfg: AuthSpec.Config, s: State, op: AuthSpec.Op, end: State, to: Time) {
    && Leads(StepConfig(cfg), s, end) && Inv(StepConfig(cfg), end)
    && end.db == AuthSpec.Exec(cfg, s.db, op).0
    && end.lost == s.lost && DrawnFrom(s, end, Draws(cfg, op, to))
  }

  /** The client that sent `op` got the answer of a process started for it. */
  ghost predicate Answered(s: State, end: State, reply: AuthSpec.Reply) {
    && |end.procs| == |s.procs| + 1 && end.procs[..|s.procs|] == s.procs
    && Agrees(reply, end.procs[|s.procs|])
  }

  lemma AuthCallIsSchedule(cfg: AuthSpec.Config, s: State, op: AuthSpec.Op, to: Time) returns (end: State)
    requires Inv(StepConfig(cfg), s) && Unused(s, Draws(cfg, op, to)) && Guarantees.TimedCall(op, s.now, to)
    requires IsAuth(op)
    ensures CarriesOut(cfg, s, op, end, to) && Answered(s, end, AuthSpec.Exec(cfg, s.db, op).1)
  {
    var c, i, supply := StepConfig(cfg), |s.procs|, Draws(cfg, op, to);
    var spawned: State;
    match op {
    case Login(email, password, chain, e) =>
      spawned := Start(c, s, LoginLookup);
      end := LoginAlone(cfg, spawned, i, email, password, chain, e, supply);
    case Refresh(presented, e) =>
      spawned := Start(c, s, RefreshLookup(cfg.digest(presented)));
      end := RefreshAlone(cfg, spawned, i, presented, e, supply);
    case Logout(presented, e) =>
      spawned := Start(c, s, LogoutLookup(cfg.digest(presented)));
      end := LogoutAlone(cfg, spawned, i, presented, e, supply);
    case LogoutAll(user, e) =>
      spawned := Start(c, s, LogoutAllRevoke(user));
      end := KillAlone(c, spawned, i, ByUser(user), e.revoke, e.revokedAt, LoggedOut, AuthSpec.LoggedOut, supply);
    }
    LeadsOn(c, s, spawned, end);
  }

  lemma UpdateIsSchedule(cfg: AuthSpec.Config, s: State, id: Uuid, patch: Patch, now: Time, to: Time)
      returns (end: State)
    requires Inv(StepConfig(cfg), s) && s.now <= now <= to
    ensures CarriesOut(cfg, s, AuthSpec.UpdateUser(id, patch, now), end, to) && end.procs == s.procs
  {
    var later := WaitUntil(StepConfig(cfg), s, now);
    end := OneStep(StepConfig(cfg), later, PatchUser(id, patch));
    LeadsOn(StepConfig(cfg), s, later, end);
  }

  /** The calls that a process serves; the others change users. */
  predicate IsAuth(op: AuthSpec.Op) { op.Login? || op.Refresh? || op.Logout? || op.LogoutAll? }

  /** Every whole call, with whatever failures, is a schedule of the step model that loses no
      race: same tables, same answer, and no process of its own for a change of users. */
  lemma CallIsSchedule(cfg: AuthSpec.Config, s: State, op: AuthSpec.Op, to: Time) returns (end: State)
    requires Inv(StepConfig(cfg), s) && Unused(s, Draws(cfg, op, to)) && Guarantees.TimedCall(op, s.now, to)
    ensures CarriesOut(cfg, s, op, end, to)
    ensures if IsAuth(op) then Answered(s, end, AuthSpec.Exec(cfg, s.db, op).1) else end.procs == s.procs
  {
    var c := StepConfig(cfg);
    match op
    case CreateUser(u) => end := OneStep(c, s, AddUser(u));
    case UpdateUser(id, patch, now) => end := UpdateIsSchedule(cfg, s, id, patch, now, to);
    case DeleteUser(id) => end := OneStep(c, s, DropUser(id));
    case _ => end := AuthCallIsSchedule(cfg, s, op, to);
  }

  function Join(a: Supply, b: Supply): Supply {
    Supply(a.users + b.users, a.chains + b.chains, a.digests + b.digests, a.rows + b.rows, b.until)
  }

  /** Along a run nothing is drawn twice; `used` has been drawn before it. */
  ghost predicate AllFresh(cfg: AuthSpec.Config, ops: seq<AuthSpec.Op>, used: Supply)
    decreases |ops|
  {
    ops == [] ||
    var draws := Draws(cfg, ops[0], 0);
    && draws.users !! used.users && draws.chains !! used.chains
    && draws.digests !! used.digests && draws.rows !! used.rows
    && AllFresh(cfg, ops[1..], Join(used, draws))
  }

  /** `used` covers everything drawn so far. */
  ghost predicate Covers(s: State, used: Supply) {
    s.userIds <= used.users && s.owner.Keys <= used.chains && s.drawn <= used.digests && s.inserted.Keys <= used.rows
  }

  function Served(ops: seq<AuthSpec.Op>): nat {
    if ops == [] then 0 else (if IsAuth(ops[0]) then 1 else 0) + Served(ops[1..])
  }

  /** The processes from `first` on serve the calls of a run one after another, and each answers
      what the run answers to its call. */
  ghost predicate AllAnswered(procs: seq<Pc>, first: nat, ops: seq<AuthSpec.Op>, replies: seq<AuthSpec.Reply>)
    requires |replies| == |ops|
  {
    forall k | 0 <= k < |ops| && IsAuth(ops[k]) ::
      AnsweredAt(procs, first + Served(ops[..k]), replies[k])
  }

  ghost predicate AnsweredAt(procs: seq<Pc>, i: nat, reply: AuthSpec.Reply) {
    i < |procs| && Agrees(reply, procs[i])
  }

  lemma AnsweredFromFirst(procs: seq<Pc>, first: nat, ops: seq<AuthSpec.Op>, replies: seq<AuthSpec.Reply>)
    requires |replies| == |ops| && ops != []
    requires IsAuth(ops[0]) ==> AnsweredAt(procs, first, replies[0])
    requires AllAnswered(procs, first + (if IsAuth(ops[0]) then 1 else 0), ops[1..], replies[1..])
    ensures AllAnswered(procs, first, ops, replies)
  {
    forall k | 0 <= k < |ops| && IsAuth(ops[k]) ensures AnsweredAt(procs, first + Served(ops[..k]), replies[k]) {
      if k > 0 {
        assert ops[1..][k - 1] == ops[k] && replies[1..][k - 1] == replies[k];
        assert ops[..k][1..] == ops[1..][..k - 1];
      }
    }
  }

  lemma RunFromFirst(cfg: AuthSpec.Config, db: Store, ops: seq<AuthSpec.Op>)
    requires ops != []
    ensures
      var (next, reply) := AuthSpec.Exec(cfg, db, ops[0]);
      var rest := Refinement.Run(cfg, next, ops[1..]);
      Refinement.Run(cfg, db, ops).0 == rest.0
      && Refinement.Run(cfg, db, ops).1[0] == reply && Refinement.Run(cfg, db, ops).1[1..] == rest.1
  {
  }

  /** `before` are the processes in front of the first call, `mid` those after it. */
  lemma OneMoreAnswered(before: seq<Pc>, mid: seq<Pc>, end: seq<Pc>,
      ops: seq<AuthSpec.Op>, replies: seq<AuthSpec.Reply>)
    requires |replies| == |ops| && ops != []
    requires |mid| == |before| + (if IsAuth(ops[0]) then 1 else 0) && mid[..|before|] == before
    requires IsAuth(ops[0]) ==> Agrees(replies[0], mid[|before|])
    requires |end| == |mid| + Served(ops[1..]) && end[..|mid|] == mid
    requires AllAnswered(end, |mid|, ops[1..], replies[1..])
    ensures |end| == |before| + Served(ops) && end[..|before|] == before
    ensures AllAnswered(end, |before|, ops, replies)
  {
    assert end[..|before|] == end[..|mid|][..|before|];
    assert IsAuth(ops[0]) ==> end[|before|] == end[..|mid|][|before|];
    AnsweredFromFirst(end, |before|, ops, replies);
  }

  /** And so is every run of whole calls: it ends with the same tables, and every call is answered
      by the process that was started for it. */
  lemma {:induction false} RunIsSchedule(cfg: AuthSpec.Config, s: State, ops: seq<AuthSpec.Op>, clock: seq<Time>,
      used: Supply)
      returns (end: State)
    requires Inv(StepConfig(cfg), s) && Covers(s, used) && AllFresh(cfg, ops, used)
    requires Guarantees.TimedRun(ops, clock) && s.now <= clock[0]
    ensures Leads(StepConfig(cfg), s, end) && Inv(StepConfig(cfg), end)
    ensures end.db == Refinement.Run(cfg, s.db, ops).0 && end.lost == s.lost
    ensures |end.procs| == |s.procs| + Served(ops) && end.procs[..|s.procs|] == s.procs
    ensures AllAnswered(end.procs, |s.procs|, ops, Refinement.Run(cfg, s.db, ops).1)
    decreases |ops|
  {
    if ops == [] {
      end := s;
      Stay(StepConfig(cfg), s);
    } else {
      var mid := CallIsSchedule(cfg, s, ops[0], clock[1]);
      end := RunIsSchedule(cfg, mid, ops[1..], clock[1..], Join(used, Draws(cfg, ops[0], 0)));
      LeadsOn(StepConfig(cfg), s, mid, end);
      RunFromFirst(cfg, s.db, ops);
      OneMoreAnswered(s.procs, mid.procs, end.procs, ops, Refinement.Run(cfg, s.db, ops).1);
    }
  }
}
