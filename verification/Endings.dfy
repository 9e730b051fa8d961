/** When a chain is over for good, exactly, whatever else is still running. */
module Endings {
  import opened Schema
  import opened Interleaving
  import opened Invariants
  import Jwt

  // ---------- the exact condition ----------

  ghost predicate Redeemable(s: State, t: Token, c: Uuid) {
    t.chainId == c && t.Active() && s.now <= t.expiresAt
  }

  /** The process holds what it takes to write another row of chain `c`: it read one of the
      chain's rows as active and in time, or got further. Whether that row has been revoked
      since does not matter, because a revoke that matches nothing counts as done. */
  ghost predicate CanIssue(s: State, pc: Pc, c: Uuid) {
    match pc
    case RefreshDecide(read) => Redeemable(s, read, c) && read.userId in UserIds(s.db.users)
    case RefreshRevoke(read) => read.chainId == c && read.userId in UserIds(s.db.users)
    case IssuePrepare(user, chain, _) => chain == c && user in UserIds(s.db.users)
    case IssueInsert(user, chain, _, _, _) => chain == c && user in UserIds(s.db.users)
    case _ => false
  }

  ghost predicate NoneInFlight(s: State, c: Uuid) {
    forall i | 0 <= i < |s.procs| :: !CanIssue(s, s.procs[i], c)
  }

  /** No row of the chain can be redeemed and no process in flight can extend it. */
  ghost predicate Barren(s: State, c: Uuid) {
    (forall t | t in s.db.tokens :: !Redeemable(s, t, c)) && NoneInFlight(s, c)
  }

  /** A run that starts in `s` gives chain `c` another row. */
  ghost predicate Grows(s: State, after: State, c: Uuid) {
    exists id :: id in after.inserted && id !in s.inserted && after.inserted[id].chainId == c
  }

  /** Whatever is scheduled from here, chain `c` never gets another row. */
  ghost predicate NeverGrows(cfg: Config, s: State, c: Uuid) {
    forall acts | Schedulable(cfg, s, acts) :: !Grows(s, Run(cfg, s, acts), c)
  }

  // ---------- barren chains stay barren ----------

  /** One process moves (or none, or a new one starts), the others stay where they are. */
  lemma StaysBarren(cfg: Config, s: State, after: State, moved: nat, c: Uuid)
    requires Inv(cfg, s) && Extends(s, after) && Barren(s, c)
    requires !Grows(s, after, c)
    requires forall t | t in after.db.tokens :: t.id in after.inserted && SameRow(t, after.inserted[t.id])
    requires forall j | 0 <= j < |after.procs| && j != moved :: j < |s.procs| && after.procs[j] == s.procs[j]
    requires moved < |after.procs| ==> !CanIssue(after, after.procs[moved], c)
    ensures Barren(after, c)
  {
  }

  lemma StatementStaysUnable(cfg: Config, s: State, i: nat, pick: Pick, c: Uuid)
    requires Inv(cfg, s) && Enabled(s, Advance(i, pick)) && c in s.owner && Barren(s, c)
    ensures
      var e := Statement(cfg, s, s.procs[i], pick);
      !CanIssue(s, e.pc, c) && (e.write.Append? ==> e.write.row.chainId != c)
  {
    assert !CanIssue(s, s.procs[i], c);
  }

  lemma AdvanceStaysBarren(cfg: Config, s: State, i: nat, pick: Pick, c: Uuid)
    requires Inv(cfg, s) && Enabled(s, Advance(i, pick)) && c in s.owner && Barren(s, c)
    ensures
      var after := Next(cfg, s, Advance(i, pick));
      Barren(after, c) && !Grows(s, after, c)
  {
    var e := Statement(cfg, s, s.procs[i], pick);
    var after := Perform(s, i, e);
    AdvanceProcs(cfg, s, i, pick);
    StatementStaysUnable(cfg, s, i, pick, c);
    UsersUntouched(cfg, s, s.procs[i], pick);
    SameUsersSameAbility(s, after, e.pc, c);
    StaysBarren(cfg, s, after, i, c);
  }

  lemma SameUsersSameAbility(s: State, after: State, pc: Pc, c: Uuid)
    requires after.db.users == s.db.users && after.now == s.now
    ensures CanIssue(after, pc, c) == CanIssue(s, pc, c)
  {
  }

  lemma UsersUntouched(cfg: Config, s: State, pc: Pc, pick: Pick)
    ensures
      var after := Apply(s, Statement(cfg, s, pc, pick).write);
      after.db.users == s.db.users && after.now == s.now
  {
  }

  lemma StepStaysBarren(cfg: Config, s: State, a: Action, c: Uuid)
    requires Inv(cfg, s) && Enabled(s, a) && c in s.owner && Barren(s, c)
    ensures Barren(Next(cfg, s, a), c) && !Grows(s, Next(cfg, s, a), c)
  {
    if a.Advance? {
      AdvanceStaysBarren(cfg, s, a.i, a.pick, c);
    } else {
      StepExtends(cfg, s, a);
      StepKeepsInv(cfg, s, a);
      OnlyProcessesInsert(cfg, s, a);
      StaysBarren(cfg, s, Next(cfg, s, a), if a.Abort? then a.j else |s.procs|, c);
    }
  }

  lemma OnlyProcessesInsert(cfg: Config, s: State, a: Action)
    requires Enabled(s, a) && !a.Advance?
    ensures Next(cfg, s, a).inserted == s.inserted
  {
  }

  lemma {:induction false} RunStaysBarren(cfg: Config, s: State, acts: seq<Action>, c: Uuid)
    requires Inv(cfg, s) && Schedulable(cfg, s, acts) && c in s.owner && Barren(s, c)
    ensures Barren(Run(cfg, s, acts), c) && !Grows(s, Run(cfg, s, acts), c)
    decreases |acts|
  {
    if acts != [] {
      var next := Next(cfg, s, acts[0]);
      StepStaysBarren(cfg, s, acts[0], c);
      StepKeepsInv(cfg, s, acts[0]);
      StepExtends(cfg, s, acts[0]);
      RunStaysBarren(cfg, next, acts[1..], c);
      RunKeepsInv(cfg, next, acts[1..]);
    }
  }

  // ---------- and every other chain can still grow ----------

  lemma FreshNumber(taken: set<nat>) returns (n: nat)
    ensures n !in taken
  {
    if taken == {} {
      n := 0;
    } else {
      var top := Largest(taken);
      n := top + 1;
    }
  }

  lemma {:induction false} Largest(taken: set<nat>) returns (top: nat)
    requires taken != {}
    ensures top in taken && forall x | x in taken :: x <= top
  {
    var first :| first in taken;
    top := first;
    if taken != {first} {
      var other := Largest(taken - {first});
      top := if other > first then other else first;
      assert forall x | x in taken :: x == first || x in taken - {first};
    }
  }

  lemma Prepend(cfg: Config, s: State, a: Action, rest: seq<Action>, c: Uuid)
    requires Inv(cfg, s) && Enabled(s, a)
    requires Schedulable(cfg, Next(cfg, s, a), rest) && Grows(Next(cfg, s, a), Run(cfg, Next(cfg, s, a), rest), c)
    ensures Schedulable(cfg, s, [a] + rest) && Grows(s, Run(cfg, s, [a] + rest), c)
  {
    assert ([a] + rest)[1..] == rest;
    StepExtends(cfg, s, a);
  }

  function StepsLeft(pc: Pc): nat {
    match pc
    case RefreshDecide(_) => 3
    case RefreshRevoke(_) => 2
    case IssuePrepare(_, _, _) => 1
    case _ => 0
  }

  /** The UNIQUE and PRIMARY KEY constraints never reject a pending insert: its digest was drawn
      once. Only a deleted owner can. */
  lemma PendingIsInsertable(cfg: Config, s: State, i: nat, row: Token)
    requires Inv(cfg, s) && i < |s.procs| && s.procs[i].IssueInsert?
    requires row.hash == s.procs[i].hash && row.userId == s.procs[i].user && row.id !in s.inserted
    ensures Insertable(s.db, row) <==> s.procs[i].user in UserIds(s.db.users)
  {
  }

  /** Left alone, a process that can issue does. */
  lemma {:induction false} Finish(cfg: Config, s: State, i: nat, c: Uuid) returns (acts: seq<Action>)
    requires Inv(cfg, s) && i < |s.procs| && CanIssue(s, s.procs[i], c)
    ensures Schedulable(cfg, s, acts) && Grows(s, Run(cfg, s, acts), c)
    decreases StepsLeft(s.procs[i])
  {
    var id := FreshNumber(s.inserted.Keys);
    var hash := FreshNumber(s.drawn);
    var a := Advance(i, Pick(0, 0, hash, id));
    var next := Next(cfg, s, a);
    StepKeepsInv(cfg, s, a);
    UsersUntouched(cfg, s, s.procs[i], a.pick);
    if s.procs[i].IssueInsert? {
      var pc := s.procs[i];
      PendingIsInsertable(cfg, s, i, NewToken(id, pc.user, pc.hash, pc.chain, pc.expiresAt, s.now));
      assert next.inserted[id].chainId == c;
      acts := [a];
      assert Run(cfg, s, acts) == next;
    } else {
      var rest := Finish(cfg, next, i, c);
      Prepend(cfg, s, a, rest, c);
      acts := [a] + rest;
    }
  }

  /** A row that can be redeemed is redeemed by a refresh that runs undisturbed. */
  lemma Redeem(cfg: Config, s: State, t: Token, c: Uuid) returns (acts: seq<Action>)
    requires Inv(cfg, s) && t in s.db.tokens && Redeemable(s, t, c)
    ensures Schedulable(cfg, s, acts) && Grows(s, Run(cfg, s, acts), c)
  {
    var i := |s.procs|;
    var spawn, look := Spawn(RefreshLookup(t.hash)), Advance(i, Pick(0, 0, 0, 0));
    var spawned := Next(cfg, s, spawn);
    var found := Next(cfg, spawned, look);
    StepKeepsInv(cfg, s, spawn);
    StepKeepsInv(cfg, spawned, look);
    assert Lookup(s.db.tokens, t.hash) == Some(t);
    assert found.procs[i] == RefreshDecide(t);
    var rest := Finish(cfg, found, i, c);
    Prepend(cfg, spawned, look, rest, c);
    Prepend(cfg, s, spawn, [look] + rest, c);
    acts := [spawn] + ([look] + rest);
  }

  lemma Extend(cfg: Config, s: State, c: Uuid) returns (acts: seq<Action>)
    requires Inv(cfg, s) && !Barren(s, c)
    ensures Schedulable(cfg, s, acts) && Grows(s, Run(cfg, s, acts), c)
  {
    if t :| t in s.db.tokens && Redeemable(s, t, c) {
      acts := Redeem(cfg, s, t, c);
    } else {
      var i :| 0 <= i < |s.procs| && CanIssue(s, s.procs[i], c);
      acts := Finish(cfg, s, i, c);
    }
  }

  /** The exact condition: a chain that was opened never gets another row, whatever is scheduled,
      if and only if no row of it can be redeemed and no process in flight can extend it. */
  lemma BarrenExactly(cfg: Config, s: State, c: Uuid)
    requires Inv(cfg, s) && c in s.owner
    ensures Barren(s, c) <==> NeverGrows(cfg, s, c)
  {
    if Barren(s, c) {
      forall acts | Schedulable(cfg, s, acts) ensures !Grows(s, Run(cfg, s, acts), c) {
        RunStaysBarren(cfg, s, acts, c);
      }
    } else {
      var acts := Extend(cfg, s, c);
    }
  }

  // ---------- what this says about the protocol ----------

  /** A chain with every row revoked, or expired, and no process in flight that can write another
      is dead: it never has a redeemable row again and never gets a new one. (A process that had
      written its row before may still hand out its pair; `ResidualLifetime` is about those.) */
  lemma DeadForGood(cfg: Config, s: State, acts: seq<Action>, c: Uuid)
    requires Inv(cfg, s) && Schedulable(cfg, s, acts) && c in s.owner && NoneInFlight(s, c)
    requires forall t | t in s.db.tokens && t.chainId == c :: !t.Active() || t.expiresAt < s.now
    ensures
      var end := Run(cfg, s, acts);
      && (forall t | t in end.db.tokens && t.chainId == c :: !t.Active() || t.expiresAt < end.now)
      && NoneInFlight(end, c)
      && !Grows(s, end, c)
  {
    RunStaysBarren(cfg, s, acts, c);
    forall t | t in Run(cfg, s, acts).db.tokens && t.chainId == c
      ensures !t.Active() || t.expiresAt < Run(cfg, s, acts).now
    {
      assert !Redeemable(Run(cfg, s, acts), t, c);
    }
  }

  /** The UPDATE of LogoutAll, or of reuse detection, ends a chain for good exactly when no
      refresh that read one of its rows as active is in flight: such a refresh writes a new,
      active row after the UPDATE. */
  lemma KillIsCleanExactly(cfg: Config, s: State, i: nat, pick: Pick, c: Uuid)
    requires Inv(cfg, s) && Enabled(s, Advance(i, pick)) && c in s.owner
    requires s.procs[i] == LogoutAllRevoke(s.owner[c]) || s.procs[i] == RefreshKill(c)
    ensures
      var after := Next(cfg, s, Advance(i, pick));
      NoneInFlight(s, c) <==> NeverGrows(cfg, after, c)
  {
    var after := Next(cfg, s, Advance(i, pick));
    StepKeepsInv(cfg, s, Advance(i, pick));
    UsersUntouched(cfg, s, s.procs[i], pick);
    KillLeavesNothing(cfg, s, i, pick, c);
    BarrenExactly(cfg, after, c);
    if NoneInFlight(after, c) {
      forall j | 0 <= j < |s.procs| ensures !CanIssue(s, s.procs[j], c) {
        assert !CanIssue(after, after.procs[j], c);
      }
    }
    if NoneInFlight(s, c) {
      forall j | 0 <= j < |s.procs| ensures !CanIssue(after, after.procs[j], c) {
        assert !CanIssue(s, s.procs[j], c);
      }
    }
  }

  lemma KillLeavesNothing(cfg: Config, s: State, i: nat, pick: Pick, c: Uuid)
    requires Inv(cfg, s) && Enabled(s, Advance(i, pick)) && c in s.owner
    requires s.procs[i] == LogoutAllRevoke(s.owner[c]) || s.procs[i] == RefreshKill(c)
    ensures forall t | t in Next(cfg, s, Advance(i, pick)).db.tokens && t.chainId == c :: !t.Active()
  {
    var after := Next(cfg, s, Advance(i, pick)).db.tokens;
    forall t | t in after && t.chainId == c ensures !t.Active() {
      var k :| 0 <= k < |after| && after[k] == t;
      var before := s.db.tokens[k];
      assert before in s.db.tokens;
      assert SameRow(before, s.inserted[before.id]) && InsertedWell(cfg, s, before.id, s.inserted[before.id]);
    }
  }

  // ---------- access tokens outlive their chain by one access lifetime at most ----------

  ghost predicate MintedBy(cfg: Config, pc: Pc, c: Uuid, deadline: Time) {
    pc.Done? && pc.outcome.Issued? && pc.outcome.chain == c ==>
      exists minted: Time :: minted <= deadline
        && pc.outcome.access == Jwt.Sign(cfg.signer, pc.outcome.user, c, minted)
  }

  /** The chain is over and no process is about to sign an access token for it. */
  ghost predicate Settled(cfg: Config, s: State, c: Uuid, deadline: Time) {
    && Barren(s, c)
    && forall i | 0 <= i < |s.procs| ::
         !(s.procs[i].IssueSign? && s.procs[i].chain == c) && MintedBy(cfg, s.procs[i], c, deadline)
  }

  lemma StepStaysSettled(cfg: Config, s: State, a: Action, c: Uuid, deadline: Time)
    requires Inv(cfg, s) && Enabled(s, a) && c in s.owner && Settled(cfg, s, c, deadline)
    ensures Settled(cfg, Next(cfg, s, a), c, deadline)
  {
    var after := Next(cfg, s, a);
    StepStaysBarren(cfg, s, a, c);
    forall j | 0 <= j < |after.procs|
      ensures !(after.procs[j].IssueSign? && after.procs[j].chain == c) && MintedBy(cfg, after.procs[j], c, deadline)
    {
      if j < |s.procs| {
        assert !CanIssue(s, s.procs[j], c) && MintedBy(cfg, s.procs[j], c, deadline);
      }
    }
  }

  lemma {:induction false} RunStaysSettled(cfg: Config, s: State, acts: seq<Action>, c: Uuid, deadline: Time)
    requires Inv(cfg, s) && Schedulable(cfg, s, acts) && c in s.owner && Settled(cfg, s, c, deadline)
    ensures Settled(cfg, Run(cfg, s, acts), c, deadline)
    decreases |acts|
  {
    if acts != [] {
      StepStaysSettled(cfg, s, acts[0], c, deadline);
      StepKeepsInv(cfg, s, acts[0]);
      StepExtends(cfg, s, acts[0]);
      RunStaysSettled(cfg, Next(cfg, s, acts[0]), acts[1..], c, deadline);
    }
  }

  /** Residual lifetime: when a chain is over, with nothing of it in flight, then no access token
      that names it, handed out before or after, is accepted one access lifetime later. */
  lemma ResidualLifetime(cfg: Config, s: State, acts: seq<Action>, c: Uuid, i: nat, v: Jwt.Verifier, at: Time)
    requires Inv(cfg, s) && Schedulable(cfg, s, acts) && c in s.owner && Barren(s, c)
    requires forall j | 0 <= j < |s.procs| :: !(s.procs[j].IssueSign? && s.procs[j].chain == c)
    requires
      var end := Run(cfg, s, acts);
      i < |end.procs| && end.procs[i].Done? && end.procs[i].outcome.Issued? && end.procs[i].outcome.chain == c
    requires at >= s.now + cfg.signer.accessTTL
    ensures !Jwt.Verify(v, Run(cfg, s, acts).procs[i].outcome.access, at).Accepted?
  {
    forall j | 0 <= j < |s.procs| ensures MintedBy(cfg, s.procs[j], c, s.now) {
      assert ProcOk(cfg, s, s.procs[j]);
    }
    RunStaysSettled(cfg, s, acts, c, s.now);
    var o := Run(cfg, s, acts).procs[i].outcome;
    assert MintedBy(cfg, Run(cfg, s, acts).procs[i], c, s.now);
    var minted: Time :| minted <= s.now && o.access == Jwt.Sign(cfg.signer, o.user, c, minted);
    Jwt.DeadAfterTTL(cfg.signer, o.user, c, minted, v, at);
  }
}
