/** When a chain can still come to have two active rows, told from the present state alone. */
module Doubling {
  import opened Schema
  import opened Interleaving
  import opened Invariants
  import opened Concurrency
  import opened Endings
  import opened Schedules
  import Race

  // ---------- the exact condition ----------

  /** The process can still write a row of the chain that is good for a refresh. */
  ghost predicate LiveIssuer(s: State, pc: Pc, c: Uuid) {
    CanIssue(s, pc, c) && (pc.IssueInsert? ==> s.now <= pc.expiresAt)
  }

  /** The chain can be refreshed, now or once a process in flight is done. */
  ghost predicate Alive(s: State, c: Uuid) {
    || (exists t :: t in s.db.tokens && Redeemable(s, t, c))
    || (exists i :: 0 <= i < |s.procs| && LiveIssuer(s, s.procs[i], c))
  }

  function Inserting(pc: Pc, c: Uuid): nat {
    if pc.IssueInsert? && pc.chain == c then 1 else 0
  }

  function InsertsOn(procs: seq<Pc>, c: Uuid): nat {
    if procs == [] then 0
    else
      var n := |procs| - 1;
      InsertsOn(procs[..n], c) + Inserting(procs[n], c)
  }

  ghost predicate OwnerThere(s: State, c: Uuid) {
    c in s.owner && s.owner[c] in UserIds(s.db.users)
  }

  /** Rows that are prepared and can be inserted. */
  ghost function Prepared(s: State, c: Uuid): nat {
    if OwnerThere(s, c) then InsertsOn(s.procs, c) else 0
  }

  /** Two active rows, counting prepared ones, or a chain that can be refreshed: a stalled insert
      whose row has expired meanwhile counts for itself but cannot be refreshed. */
  ghost predicate CanDouble(s: State, c: Uuid) {
    Alive(s, c) || ActiveOn(s.db.tokens, c) + Prepared(s, c) >= 2
  }

  ghost predicate Doubles(cfg: Config, s: State, c: Uuid) {
    exists end :: Leads(cfg, s, end) && ActiveOn(end.db.tokens, c) >= 2
  }

  // ---------- a chain that cannot double stays so ----------

  lemma {:induction false} InsertsUpdate(procs: seq<Pc>, i: nat, pc: Pc, c: Uuid)
    requires i < |procs|
    ensures InsertsOn(procs[i := pc], c) + Inserting(procs[i], c) == InsertsOn(procs, c) + Inserting(pc, c)
  {
    var n := |procs| - 1;
    if i == n {
      assert procs[i := pc][..n] == procs[..n];
    } else {
      InsertsUpdate(procs[..n], i, pc, c);
      assert procs[i := pc][..n] == procs[..n][i := pc];
    }
  }

  lemma InsertsAppend(procs: seq<Pc>, pc: Pc, c: Uuid)
    ensures InsertsOn(procs + [pc], c) == InsertsOn(procs, c) + Inserting(pc, c)
  {
    assert (procs + [pc])[..|procs|] == procs;
  }

  /** Only an insert adds an active row. */
  lemma WriteActive(s: State, w: Write, c: Uuid)
    requires TokensUnique(s.db.tokens) && Fair(s, w)
    ensures ActiveOn(Apply(s, w).db.tokens, c)
         <= ActiveOn(s.db.tokens, c) + if w.Append? && w.row.chainId == c then 1 else 0
  {
    match w
    case Kill(sel) => RevokeBurns(s.db.tokens, sel, s.now, c);
    case Spend(read) => RevokeBurns(s.db.tokens, ById(read.id), s.now, c);
    case Append(row) => AppendActive(s.db.tokens, row, c);
    case Cascade(user) => DeleteBurns(s.db.tokens, user, c);
    case _ =>
  }

  lemma StaysNoIssuer(cfg: Config, s: State, after: State, pc: Pc, c: Uuid)
    requires Tables(s) && History(cfg, s) && ProcOk(cfg, s, pc) && Extends(s, after) && !LiveIssuer(s, pc, c)
    ensures !LiveIssuer(after, pc, c)
  {
    assert pc.RefreshDecide? || pc.RefreshRevoke? ==> InsertedWell(cfg, s, pc.read.id, s.inserted[pc.read.id]);
  }

  lemma StaysNotAlive(cfg: Config, s: State, after: State, moved: nat, c: Uuid)
    requires Inv(cfg, s) && Extends(s, after) && !Alive(s, c)
    requires forall t | t in after.db.tokens && t.id !in s.inserted :: !Redeemable(after, t, c)
    requires forall j | 0 <= j < |after.procs| && j != moved :: j < |s.procs| && after.procs[j] == s.procs[j]
    requires moved < |after.procs| ==> !LiveIssuer(after, after.procs[moved], c)
    ensures !Alive(after, c)
  {
    forall t | t in after.db.tokens ensures !Redeemable(after, t, c) {
      if t.id in s.inserted {
        assert HasLater(s.db.tokens, t);
      }
    }
    forall j | 0 <= j < |after.procs| ensures !LiveIssuer(after, after.procs[j], c) {
      if j != moved {
        var pc := after.procs[j];
        assert pc == s.procs[j];
        StaysNoIssuer(cfg, s, after, pc, c);
      }
    }
  }

  lemma StatementIsNotLive(cfg: Config, s: State, i: nat, pick: Pick, c: Uuid)
    requires Inv(cfg, s) && Enabled(s, Advance(i, pick)) && c in s.owner && !Alive(s, c)
    ensures
      var e := Statement(cfg, s, s.procs[i], pick);
      !LiveIssuer(s, e.pc, c) && (e.write.Append? ==> !Redeemable(s, e.write.row, c))
  {
    assert !LiveIssuer(s, s.procs[i], c);
  }

  /** A row is inserted only by the process that prepared it, and none is prepared. */
  lemma StatementIsCounted(cfg: Config, s: State, i: nat, pick: Pick, c: Uuid)
    requires Inv(cfg, s) && Enabled(s, Advance(i, pick)) && c in s.owner && !Alive(s, c)
    ensures
      var e := Statement(cfg, s, s.procs[i], pick);
      && (OwnerThere(s, c) ==> Inserting(e.pc, c) == 0)
      && (e.write.Append? && e.write.row.chainId == c ==> OwnerThere(s, c) && Inserting(s.procs[i], c) == 1)
  {
    assert !LiveIssuer(s, s.procs[i], c) && ProcOk(cfg, s, s.procs[i]);
  }

  /** What a step must not raise while the chain is not alive. */
  ghost function Count(s: State, c: Uuid): nat {
    ActiveOn(s.db.tokens, c) + Prepared(s, c)
  }

  lemma AdvanceCounts(cfg: Config, s: State, i: nat, pick: Pick, c: Uuid)
    requires Inv(cfg, s) && Enabled(s, Advance(i, pick)) && c in s.owner && !Alive(s, c)
    ensures Count(Next(cfg, s, Advance(i, pick)), c) <= Count(s, c)
  {
    var e := Statement(cfg, s, s.procs[i], pick);
    StatementSound(cfg, s, i, pick);
    StatementIsCounted(cfg, s, i, pick, c);
    WriteActive(s, e.write, c);
    InsertsUpdate(s.procs, i, e.pc, c);
    UsersUntouched(cfg, s, s.procs[i], pick);
    StepExtends(cfg, s, Advance(i, pick));
  }

  lemma AdvanceStaysNotAlive(cfg: Config, s: State, i: nat, pick: Pick, c: Uuid)
    requires Inv(cfg, s) && Enabled(s, Advance(i, pick)) && c in s.owner && !Alive(s, c)
    ensures !Alive(Next(cfg, s, Advance(i, pick)), c)
  {
    var e := Statement(cfg, s, s.procs[i], pick);
    var after := Perform(s, i, e);
    AdvanceProcs(cfg, s, i, pick);
    StatementIsNotLive(cfg, s, i, pick, c);
    UsersUntouched(cfg, s, s.procs[i], pick);
    assert CanIssue(after, e.pc, c) == CanIssue(s, e.pc, c) by {
      SameUsersSameAbility(s, after, e.pc, c);
    }
    assert History(cfg, Apply(s, e.write)) by {
      StatementSound(cfg, s, i, pick);
      WriteKeepsHistory(cfg, s, e.write);
    }
    OnlyAppended(cfg, s, e.write);
    StaysNotAlive(cfg, s, after, i, c);
  }

  lemma OnlyAppended(cfg: Config, s: State, w: Write)
    requires History(cfg, s) && History(cfg, Apply(s, w))
    ensures forall t | t in Apply(s, w).db.tokens && t.id !in s.inserted :: w == Append(t)
  {
  }

  /** A step that changes no process. */
  lemma WriteCounts(cfg: Config, s: State, w: Write, c: Uuid)
    requires Inv(cfg, s) && Sound(cfg, s, w) && c in s.owner && !w.Append? && !w.Open?
    ensures Count(Apply(s, w), c) <= Count(s, c)
  {
    WriteExtends(cfg, s, w);
    WriteActive(s, w, c);
  }

  lemma AbortCounts(cfg: Config, s: State, i: nat, c: Uuid)
    requires Inv(cfg, s) && i < |s.procs| && c in s.owner
    ensures Count(Next(cfg, s, Abort(i)), c) <= Count(s, c)
  {
    InsertsUpdate(s.procs, i, Done(Failed), c);
  }

  lemma OtherStepCounts(cfg: Config, s: State, a: Action, c: Uuid)
    requires Inv(cfg, s) && Enabled(s, a) && !a.Advance? && c in s.owner
    ensures Count(Next(cfg, s, a), c) <= Count(s, c)
  {
    match a
    case Tick(d) => WriteCounts(cfg, s, Wait(d), c);
    case Spawn(pc) => InsertsAppend(s.procs, pc, c);
    case Abort(i) => AbortCounts(cfg, s, i, c);
    case AddUser(u) => WriteCounts(cfg, s, Create(u), c);
    case PatchUser(id, p) => WriteCounts(cfg, s, Change(id, p), c);
    case DropUser(id) => WriteCounts(cfg, s, Cascade(id), c);
  }

  lemma OtherStepStaysNotAlive(cfg: Config, s: State, a: Action, c: Uuid)
    requires Inv(cfg, s) && Enabled(s, a) && !a.Advance? && c in s.owner && !Alive(s, c)
    ensures !Alive(Next(cfg, s, a), c)
  {
    StepExtends(cfg, s, a);
    StepKeepsInv(cfg, s, a);
    OnlyProcessesInsert(cfg, s, a);
    StaysNotAlive(cfg, s, Next(cfg, s, a), if a.Abort? then a.j else |s.procs|, c);
  }

  lemma {:induction false} RunCannotDouble(cfg: Config, s: State, acts: seq<Action>, c: Uuid)
    requires Inv(cfg, s) && Schedulable(cfg, s, acts) && c in s.owner && !CanDouble(s, c)
    ensures ActiveOn(Run(cfg, s, acts).db.tokens, c) < 2
    decreases |acts|
  {
    if acts != [] {
      var a := acts[0];
      StepKeepsInv(cfg, s, a);
      StepExtends(cfg, s, a);
      if a.Advance? {
        AdvanceCounts(cfg, s, a.i, a.pick, c);
        AdvanceStaysNotAlive(cfg, s, a.i, a.pick, c);
      } else {
        OtherStepCounts(cfg, s, a, c);
        OtherStepStaysNotAlive(cfg, s, a, c);
      }
      RunCannotDouble(cfg, Next(cfg, s, a), acts[1..], c);
    }
  }

  // ---------- and one that can, does ----------

  lemma RowIsActive(tokens: seq<Token>, t: Token, c: Uuid)
    requires t in tokens && t.Active() && t.chainId == c
    ensures ActiveOn(tokens, c) >= 1
  {
    var k :| 0 <= k < |tokens| && tokens[k] == t;
    OneRowCounts(tokens, c, k);
  }

  /** A live issuer, left alone, writes a row that can be redeemed. */
  lemma {:induction false} Land(cfg: Config, s: State, i: nat, c: Uuid) returns (end: State, t: Token)
    requires Inv(cfg, s) && i < |s.procs| && LiveIssuer(s, s.procs[i], c) && cfg.refreshTTL >= 0
    ensures Leads(cfg, s, end) && Inv(cfg, end) && t in end.db.tokens && Redeemable(end, t, c)
    decreases StepsLeft(s.procs[i])
  {
    var pc := s.procs[i];
    match pc
    case IssueInsert(_, _, _, _, _) => end, t := Race.InsertRow(cfg, s, i);
    case IssuePrepare(_, _, _) => end, t := Race.Deliver(cfg, s, i, c);
    case RefreshRevoke(read) =>
      var mid := Race.RevokeOnce(cfg, s, i, read);
      end, t := Land(cfg, mid, i, c);
      LeadsOn(cfg, s, mid, end);
    case RefreshDecide(read) =>
      var mid := Moved(cfg, s, i, NONE, Effect(Nothing, RefreshRevoke(read)));
      end, t := Land(cfg, mid, i, c);
      LeadsOn(cfg, s, mid, end);
  }

  lemma AliveDoubles(cfg: Config, s: State, c: Uuid)
    requires Inv(cfg, s) && Alive(s, c) && cfg.refreshTTL >= 0
    ensures Doubles(cfg, s, c)
  {
    var mid: State, t: Token;
    if u :| u in s.db.tokens && Redeemable(s, u, c) {
      mid, t := s, u;
      Stay(cfg, s);
    } else {
      var i :| 0 <= i < |s.procs| && LiveIssuer(s, s.procs[i], c);
      mid, t := Land(cfg, s, i, c);
    }
    RowIsActive(mid.db.tokens, t, c);
    var end := Race.RaceFrom(cfg, mid, t);
    LeadsOn(cfg, s, mid, end);
  }

  lemma {:induction false} SomeInsert(procs: seq<Pc>, c: Uuid) returns (i: nat)
    requires InsertsOn(procs, c) > 0
    ensures i < |procs| && procs[i].IssueInsert? && procs[i].chain == c
  {
    i := |procs| - 1;
    if Inserting(procs[i], c) == 0 {
      i := SomeInsert(procs[..i], c);
    }
  }

  /** Prepared rows are inserted, expired or not. */
  lemma {:induction false} PreparedDoubles(cfg: Config, s: State, c: Uuid)
    requires Inv(cfg, s) && Count(s, c) >= 2
    ensures Doubles(cfg, s, c)
    decreases Prepared(s, c)
  {
    if ActiveOn(s.db.tokens, c) >= 2 {
      Stay(cfg, s);
    } else {
      var i := SomeInsert(s.procs, c);
      assert ProcOk(cfg, s, s.procs[i]);
      var mid, row := Race.InsertRow(cfg, s, i);
      AppendActive(s.db.tokens, row, c);
      InsertsUpdate(s.procs, i, mid.procs[i], c);
      assert mid.procs == s.procs[i := mid.procs[i]];
      PreparedDoubles(cfg, mid, c);
      var end :| Leads(cfg, mid, end) && ActiveOn(end.db.tokens, c) >= 2;
      LeadsOn(cfg, s, mid, end);
    }
  }

  /** From a state that any schedule can have led to, some schedule gives an opened chain two
      active rows if and only if it has a row that can be redeemed, or a process in flight that can
      write one, or two active rows counting the prepared ones. */
  lemma TwoActiveRowsExactly(cfg: Config, s: State, c: Uuid)
    requires Inv(cfg, s) && c in s.owner && cfg.refreshTTL >= 0
    ensures CanDouble(s, c) <==> Doubles(cfg, s, c)
  {
    if Alive(s, c) {
      AliveDoubles(cfg, s, c);
    } else if CanDouble(s, c) {
      PreparedDoubles(cfg, s, c);
    } else {
      forall end | Leads(cfg, s, end) ensures ActiveOn(end.db.tokens, c) < 2 {
        var acts :| Schedulable(cfg, s, acts) && Run(cfg, s, acts) == end;
        RunCannotDouble(cfg, s, acts, c);
      }
    }
  }

  // ---------- without a lifetime there is no rotation ----------

  ghost predicate NoRotation(s: State) {
    s.lost == multiset{} && forall i | 0 <= i < |s.procs| :: !s.procs[i].RefreshRevoke?
  }

  /** Every row has expired when it is read. */
  lemma StepHasNoRotation(cfg: Config, s: State, a: Action)
    requires Inv(cfg, s) && Enabled(s, a) && NoRotation(s) && cfg.refreshTTL < 0
    ensures NoRotation(Next(cfg, s, a))
  {
    if a.Advance? {
      var pc := s.procs[a.i];
      assert ProcOk(cfg, s, pc);
      assert pc.RefreshDecide? ==> InsertedWell(cfg, s, pc.read.id, s.inserted[pc.read.id]);
    }
  }

  lemma {:induction false} RunHasNoRotation(cfg: Config, s: State, acts: seq<Action>)
    requires Inv(cfg, s) && Schedulable(cfg, s, acts) && NoRotation(s) && cfg.refreshTTL < 0
    ensures NoRotation(Run(cfg, s, acts))
    decreases |acts|
  {
    if acts != [] {
      StepKeepsInv(cfg, s, acts[0]);
      StepHasNoRotation(cfg, s, acts[0]);
      RunHasNoRotation(cfg, Next(cfg, s, acts[0]), acts[1..]);
    }
  }

  /** From empty tables a chain can come to have two active rows whenever refresh tokens live at
      all: exactly if the configured lifetime is not negative. */
  lemma ReachableExactly(cfg: Config)
    ensures cfg.refreshTTL >= 0 <==> exists c :: Doubles(cfg, START, c)
  {
    if cfg.refreshTTL >= 0 {
      var end, c := Race.TwoActiveRowsReachable(cfg);
      assert Doubles(cfg, START, c);
    } else {
      forall c, end | Leads(cfg, START, end) ensures ActiveOn(end.db.tokens, c) < 2 {
        var acts :| Schedulable(cfg, START, acts) && Run(cfg, START, acts) == end;
        StartInv(cfg);
        RunHasNoRotation(cfg, START, acts);
        ActiveRowsBounded(cfg, acts, c);
      }
    }
  }
}
