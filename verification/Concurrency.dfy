/** What the interleaving model promises about one chain, one token, one user at a time. */
module Concurrency {
  import opened Schema
  import opened Interleaving
  import opened Invariants

  lemma Reachable(cfg: Config, acts: seq<Action>)
    requires Schedulable(cfg, START, acts)
    ensures Inv(cfg, Run(cfg, START, acts))
  {
    StartInv(cfg);
    RunKeepsInv(cfg, START, acts);
  }

  // ---------- how many active rows a chain can have ----------

  lemma {:induction false} NoRowsNoCount(tokens: seq<Token>, c: Uuid)
    requires forall t | t in tokens && t.Active() :: t.chainId != c
    ensures ActiveOn(tokens, c) == 0
  {
    if tokens != [] {
      NoRowsNoCount(tokens[..|tokens| - 1], c);
    }
  }

  lemma {:induction false} TwoRowsCount(tokens: seq<Token>, c: Uuid, i: nat, j: nat)
    requires i < j < |tokens| && tokens[i].Active() && tokens[j].Active()
    requires tokens[i].chainId == tokens[j].chainId == c
    ensures ActiveOn(tokens, c) >= 2
  {
    var n := |tokens| - 1;
    if j < n {
      TwoRowsCount(tokens[..n], c, i, j);
    } else {
      OneRowCounts(tokens[..n], c, i);
    }
  }

  lemma {:induction false} OneRowCounts(tokens: seq<Token>, c: Uuid, i: nat)
    requires i < |tokens| && tokens[i].Active() && tokens[i].chainId == c
    ensures ActiveOn(tokens, c) >= 1
  {
    var n := |tokens| - 1;
    if i < n {
      OneRowCounts(tokens[..n], c, i);
    }
  }

  /** Whatever the schedule: active rows plus refreshes between their revoke and their insert
      stay within one plus the revokes that matched no row, and a chain has two active rows
      exactly when its lost races outnumber its pending inserts and burned allowances. */
  lemma ActiveRowsBounded(cfg: Config, acts: seq<Action>, c: Uuid)
    requires Schedulable(cfg, START, acts)
    ensures
      var s := Run(cfg, START, acts);
      && ActiveOn(s.db.tokens, c) + PendingOn(s.procs, c) <= 1 + s.lost[c]
      && (ActiveOn(s.db.tokens, c) >= 2 <==> c in s.owner && s.lost[c] > PendingOn(s.procs, c) + s.burned[c])
  {
    var s := Run(cfg, START, acts);
    Reachable(cfg, acts);
    assert Balanced(s, c);
    if c !in s.owner {
      NoRowsNoCount(s.db.tokens, c);
    }
  }

  /** Without a lost race no chain ever has two active rows. */
  lemma OneActiveRow(cfg: Config, acts: seq<Action>, i: nat, j: nat)
    requires Schedulable(cfg, START, acts)
    requires
      var s := Run(cfg, START, acts);
      && i < j < |s.db.tokens| && s.db.tokens[i].chainId == s.db.tokens[j].chainId
      && s.lost[s.db.tokens[i].chainId] == 0
    ensures
      var s := Run(cfg, START, acts);
      !(s.db.tokens[i].Active() && s.db.tokens[j].Active())
  {
    var s := Run(cfg, START, acts);
    var c := s.db.tokens[i].chainId;
    ActiveRowsBounded(cfg, acts, c);
    if s.db.tokens[i].Active() && s.db.tokens[j].Active() {
      TwoRowsCount(s.db.tokens, c, i, j);
    }
  }

  // ---------- one token ----------

  /** The process got past the revoke of row `id`, matched or not. */
  predicate Redeems(pc: Pc, id: Uuid) {
    OriginOf(pc) == Some(Spent(id)) || OriginOf(pc) == Some(Missed(id))
  }

  /** Among all refresh calls ever made with one token, at most one spends the row; if two get
      a new pair, a revoke of that chain matched nothing. */
  lemma RedeemedOnceOrLost(cfg: Config, acts: seq<Action>, i: nat, j: nat, id: Uuid)
    requires Schedulable(cfg, START, acts)
    requires
      var s := Run(cfg, START, acts);
      i < |s.procs| && j < |s.procs| && i != j && Redeems(s.procs[i], id) && Redeems(s.procs[j], id)
    ensures
      var s := Run(cfg, START, acts);
      && !(OriginOf(s.procs[i]) == Some(Spent(id)) && OriginOf(s.procs[j]) == Some(Spent(id)))
      && id in s.inserted && s.lost[s.inserted[id].chainId] > 0
  {
    var s := Run(cfg, START, acts);
    Reachable(cfg, acts);
    assert Apart(s.procs[i], s.procs[j]);
    assert ProcOk(cfg, s, s.procs[i]) && ProcOk(cfg, s, s.procs[j]);
  }

  /** Every pair agrees with the stored row: the user its chain was opened for, the chain, and
      an access token that names both. */
  lemma IssuedPairAgrees(cfg: Config, acts: seq<Action>, i: nat)
    requires Schedulable(cfg, START, acts)
    requires
      var s := Run(cfg, START, acts);
      i < |s.procs| && s.procs[i].Done? && s.procs[i].outcome.Issued?
    ensures
      var s := Run(cfg, START, acts);
      var o := s.procs[i].outcome;
      && o.chain in s.owner && s.owner[o.chain] == o.user
      && (forall t | t in s.db.tokens && t.id == o.row :: t.userId == o.user && t.chainId == o.chain)
      && o.access.Signed? && o.access.claims.userId == o.user && o.access.claims.chainId == o.chain
  {
    var s := Run(cfg, START, acts);
    Reachable(cfg, acts);
    assert ProcOk(cfg, s, s.procs[i]);
    forall t | t in s.db.tokens && t.id == s.procs[i].outcome.row
      ensures t.userId == s.procs[i].outcome.user && t.chainId == s.procs[i].outcome.chain
    {
      assert SameRow(t, s.inserted[t.id]);
    }
  }

  // ---------- rows and users over time ----------

  /** `revoked_at` never goes back to NULL and keeps its first value; nothing else of a row but
      `updated_at` ever changes. */
  lemma RevokedIsWriteOnce(cfg: Config, s: State, acts: seq<Action>, t: Token, after: Token)
    requires Inv(cfg, s) && Schedulable(cfg, s, acts)
    requires t in s.db.tokens && after in Run(cfg, s, acts).db.tokens && after.id == t.id
    ensures SameRow(after, t) && (!t.Active() ==> after == t)
  {
    RunKeepsInv(cfg, s, acts);
    assert HasLater(s.db.tokens, after);
    var before :| before in s.db.tokens && before.id == after.id && Later(before, after);
    SameIdSameRow(s.db.tokens, before, t);
  }

  lemma SameIdSameRow(tokens: seq<Token>, t: Token, u: Token)
    requires TokensUnique(tokens) && t in tokens && u in tokens && t.id == u.id
    ensures t == u
  {
  }

  /** All rows a chain has now or at any later time belong to one user. */
  lemma OneOwnerPerChain(cfg: Config, s: State, acts: seq<Action>, t: Token, u: Token)
    requires Inv(cfg, s) && Schedulable(cfg, s, acts)
    requires t in s.db.tokens && u in Run(cfg, s, acts).db.tokens && t.chainId == u.chainId
    ensures t.userId == u.userId
  {
    var end := Run(cfg, s, acts);
    RunKeepsInv(cfg, s, acts);
    assert InsertedWell(cfg, s, t.id, s.inserted[t.id]) && SameRow(t, s.inserted[t.id]);
    assert InsertedWell(cfg, end, u.id, end.inserted[u.id]) && SameRow(u, end.inserted[u.id]);
  }

  /** The DELETE takes the user and every row of theirs out at once. */
  lemma DropTakesEffect(cfg: Config, s: State, user: Uuid)
    requires Inv(cfg, s)
    ensures
      var after := Next(cfg, s, DropUser(user));
      && user !in UserIds(after.db.users)
      && (forall u | u in s.db.users && u.id != user :: u in after.db.users)
      && (forall t :: t in after.db.tokens <==> t in s.db.tokens && t.userId != user)
  {
  }

  /** A deleted user stays deleted: no later state has a row of theirs, and every token they
      were ever given is looked up in vain. */
  lemma DeletedForGood(cfg: Config, s: State, acts: seq<Action>, user: Uuid, id: Uuid)
    requires Inv(cfg, s) && Schedulable(cfg, s, acts)
    requires user in s.userIds && user !in UserIds(s.db.users)
    ensures
      var end := Run(cfg, s, acts);
      && user !in UserIds(end.db.users)
      && (forall t | t in end.db.tokens :: t.userId != user)
      && (id in end.inserted && end.inserted[id].userId == user ==>
            Lookup(end.db.tokens, end.inserted[id].hash).None?)
  {
    var end := Run(cfg, s, acts);
    RunKeepsInv(cfg, s, acts);
    if id in end.inserted && end.inserted[id].userId == user {
      forall t | t in end.db.tokens ensures t.hash != end.inserted[id].hash {
        assert SameRow(t, end.inserted[t.id]);
      }
    }
  }
}
