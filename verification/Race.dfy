/** The lost race is real: two refreshes of one token that both read it before either revokes it
    both get a pair, and the chain ends up with two active rows. */
module Race {
  import opened Schema
  import opened Interleaving
  import opened Invariants
  import opened Endings
  import opened Schedules

  lemma Prepare(cfg: Config, s: State, i: nat) returns (end: State)
    requires Inv(cfg, s) && i < |s.procs| && s.procs[i].IssuePrepare?
    ensures Leads(cfg, s, end) && Inv(cfg, end)
    ensures end == s.(procs := end.procs, drawn := end.drawn)
    ensures |end.procs| == |s.procs| && forall j | 0 <= j < |s.procs| && j != i :: end.procs[j] == s.procs[j]
    ensures
      var pc := end.procs[i];
      && pc.IssueInsert? && pc.user == s.procs[i].user && pc.chain == s.procs[i].chain
      && pc.expiresAt == s.now + cfg.refreshTTL
  {
    var hash := FreshNumber(s.drawn);
    end := OneStep(cfg, s, Advance(i, Pick(0, 0, hash, 0)));
  }

  lemma InsertRow(cfg: Config, s: State, i: nat) returns (end: State, row: Token)
    requires Inv(cfg, s) && i < |s.procs| && s.procs[i].IssueInsert? && s.procs[i].user in UserIds(s.db.users)
    ensures Leads(cfg, s, end) && Inv(cfg, end)
    ensures row.chainId == s.procs[i].chain && row.Active() && row.expiresAt == s.procs[i].expiresAt
    ensures end.db == s.db.(tokens := s.db.tokens + [row])
    ensures |end.procs| == |s.procs| && forall j | 0 <= j < |s.procs| && j != i :: end.procs[j] == s.procs[j]
    ensures end.now == s.now && end.lost == s.lost && end.owner == s.owner && end.procs[i].IssueSign?
  {
    var id := FreshNumber(s.inserted.Keys);
    var pc := s.procs[i];
    row := NewToken(id, pc.user, pc.hash, pc.chain, pc.expiresAt, s.now);
    PendingIsInsertable(cfg, s, i, row);
    end := OneStep(cfg, s, Advance(i, Pick(0, 0, 0, id)));
  }

  /** The issue of process `i` runs to its new row; everything else stays. */
  lemma Deliver(cfg: Config, s: State, i: nat, c: Uuid) returns (end: State, row: Token)
    requires Inv(cfg, s) && i < |s.procs| && s.procs[i].IssuePrepare? && s.procs[i].chain == c
    requires s.procs[i].user in UserIds(s.db.users)
    ensures Leads(cfg, s, end) && Inv(cfg, end)
    ensures |end.procs| == |s.procs| && forall j | 0 <= j < |s.procs| && j != i :: end.procs[j] == s.procs[j]
    ensures end.db.users == s.db.users && end.now == s.now && end.lost == s.lost
    ensures end.db.tokens == s.db.tokens + [row]
    ensures row.chainId == c && row.Active() && row.expiresAt == s.now + cfg.refreshTTL
    ensures ActiveOn(end.db.tokens, c) == ActiveOn(s.db.tokens, c) + 1
  {
    var mid := Prepare(cfg, s, i);
    end, row := InsertRow(cfg, mid, i);
    LeadsOn(cfg, s, mid, end);
    AppendActive(s.db.tokens, row, c);
  }

  lemma Read(cfg: Config, s: State, t: Token) returns (end: State)
    requires Inv(cfg, s) && t in s.db.tokens
    ensures Leads(cfg, s, end) && Inv(cfg, end)
    ensures end == s.(procs := s.procs + [RefreshDecide(t)])
  {
    var i := |s.procs|;
    var spawned := Start(cfg, s, RefreshLookup(t.hash));
    assert Lookup(s.db.tokens, t.hash) == Some(t);
    end := Moved(cfg, spawned, i, NONE, Effect(Nothing, RefreshDecide(t)));
    assert spawned.procs[i := RefreshDecide(t)] == s.procs + [RefreshDecide(t)];
    LeadsOn(cfg, s, spawned, end);
  }

  /** A refresh reads `t` and decides to go ahead. */
  lemma StartRefresh(cfg: Config, s: State, t: Token) returns (end: State)
    requires Inv(cfg, s) && t in s.db.tokens && Redeemable(s, t, t.chainId)
    ensures Leads(cfg, s, end) && Inv(cfg, end)
    ensures end == s.(procs := s.procs + [RefreshRevoke(t)])
  {
    var i := |s.procs|;
    var found := Read(cfg, s, t);
    end := Moved(cfg, found, i, NONE, Effect(Nothing, RefreshRevoke(t)));
    assert found.procs[i := RefreshRevoke(t)] == s.procs + [RefreshRevoke(t)];
    LeadsOn(cfg, s, found, end);
  }

  /** One revoke of the row: the first takes it out of service, a second one only loses. */
  lemma RevokeOnce(cfg: Config, s: State, i: nat, t: Token) returns (end: State)
    requires Inv(cfg, s) && i < |s.procs| && s.procs[i] == RefreshRevoke(t)
    ensures Leads(cfg, s, end) && Inv(cfg, end)
    ensures |end.procs| == |s.procs| && forall j | 0 <= j < |s.procs| && j != i :: end.procs[j] == s.procs[j]
    ensures end.procs[i].IssuePrepare? && end.procs[i].user == t.userId && end.procs[i].chain == t.chainId
    ensures end.db.users == s.db.users && end.now == s.now && !ActiveRow(end.db.tokens, t.id)
    ensures ActiveOn(end.db.tokens, t.chainId) + (if ActiveRow(s.db.tokens, t.id) then 1 else 0)
         == ActiveOn(s.db.tokens, t.chainId)
    ensures end.lost == if ActiveRow(s.db.tokens, t.id) then s.lost else s.lost + multiset{t.chainId}
    ensures end.db.tokens == Revoke(s.db.tokens, ById(t.id), s.now)
  {
    var origin := if ActiveRow(s.db.tokens, t.id) then Spent(t.id) else Missed(t.id);
    end := Moved(cfg, s, i, NONE, Effect(Spend(t), IssuePrepare(t.userId, t.chainId, origin)));
    assert ProcOk(cfg, s, s.procs[i]);
    SpendSpends(s, t);
    SpendWeight(cfg, s, t);
  }

  lemma SpendWeight(cfg: Config, s: State, read: Token)
    requires Inv(cfg, s) && Known(s, read)
    ensures ActiveOn(Apply(s, Spend(read)).db.tokens, read.chainId)
            + (if ActiveRow(s.db.tokens, read.id) then 1 else 0) == ActiveOn(s.db.tokens, read.chainId)
  {
    forall t | t in s.db.tokens && t.id == read.id ensures t.chainId == read.chainId {
      assert SameRow(t, s.inserted[t.id]);
    }
    var matched := Matched(s.db.tokens, ById(read.id))[read.chainId];
    RevokeBurns(s.db.tokens, ById(read.id), s.now, read.chainId);
    MatchedById(s.db.tokens, read.id, read.chainId);
    assert matched == if ActiveRow(s.db.tokens, read.id) then 1 else 0;
  }

  /** In every state with a redeemable row, two interleaved refreshes of that row lose a race
      and leave one active row more than before. */
  lemma RaceFrom(cfg: Config, s: State, t: Token) returns (end: State)
    requires Inv(cfg, s) && t in s.db.tokens && Redeemable(s, t, t.chainId)
    ensures Leads(cfg, s, end) && Inv(cfg, end)
    ensures ActiveOn(end.db.tokens, t.chainId) == ActiveOn(s.db.tokens, t.chainId) + 1
    ensures end.lost == s.lost + multiset{t.chainId}
  {
    var i, j := |s.procs|, |s.procs| + 1;
    var s1 := StartRefresh(cfg, s, t);
    var s2 := StartRefresh(cfg, s1, t);
    LeadsOn(cfg, s, s1, s2);
    var s3 := RevokeOnce(cfg, s2, i, t);
    LeadsOn(cfg, s, s2, s3);
    var s4 := RevokeOnce(cfg, s3, j, t);
    LeadsOn(cfg, s, s3, s4);
    var s5, first := Deliver(cfg, s4, i, t.chainId);
    LeadsOn(cfg, s, s4, s5);
    var second;
    end, second := Deliver(cfg, s5, j, t.chainId);
    LeadsOn(cfg, s, s5, end);
  }

  lemma FirstUser(cfg: Config) returns (end: State)
    ensures Inv(cfg, end) && Leads(cfg, START, end)
    ensures end == START.(db := end.db, userIds := {0}) && 0 in UserIds(end.db.users) && end.db.tokens == []
  {
    var user := User(0, "", "", "", 0, 0);
    StartInv(cfg);
    end := OneStep(cfg, START, AddUser(user));
    assert end.db.users == [user] && user in end.db.users;
  }

  lemma FirstLogin(cfg: Config) returns (end: State)
    ensures Inv(cfg, end) && Leads(cfg, START, end)
    ensures |end.procs| == 1 && end.procs[0] == IssuePrepare(0, 0, Opened)
    ensures 0 in UserIds(end.db.users) && end.db.tokens == [] && end.now == 0 && end.lost == multiset{}
  {
    var s1 := FirstUser(cfg);
    var s2 := Start(cfg, s1, LoginLookup);
    end := OneStep(cfg, s2, Advance(0, NONE));
    LeadsOn(cfg, START, s1, s2);
    LeadsOn(cfg, START, s2, end);
  }

  /** One login, and its row. */
  lemma LoggedIn(cfg: Config) returns (end: State, t: Token)
    requires cfg.refreshTTL >= 0
    ensures Leads(cfg, START, end) && Inv(cfg, end) && t in end.db.tokens && Redeemable(end, t, t.chainId)
    ensures ActiveOn(end.db.tokens, t.chainId) == 1 && end.lost == multiset{}
  {
    var opening := FirstLogin(cfg);
    end, t := Deliver(cfg, opening, 0, 0);
    LeadsOn(cfg, START, opening, end);
  }

  /** So "at most one active row per chain" is false of the service as a whole: from empty tables
      one login and one lost race reach a chain with two. */
  lemma TwoActiveRowsReachable(cfg: Config) returns (end: State, c: Uuid)
    requires cfg.refreshTTL >= 0
    ensures Leads(cfg, START, end) && ActiveOn(end.db.tokens, c) == 2 && end.lost[c] == 1
  {
    var start, t := LoggedIn(cfg);
    c := t.chainId;
    end := RaceFrom(cfg, start, t);
    LeadsOn(cfg, START, start, end);
  }

  // ---------- an UPDATE that does not end the session ----------

  lemma RowIsOwned(cfg: Config, s: State, t: Token)
    requires Inv(cfg, s) && t in s.db.tokens
    ensures t.chainId in s.owner && s.owner[t.chainId] == t.userId && t.userId in UserIds(s.db.users)
  {
    assert SameRow(t, s.inserted[t.id]) && InsertedWell(cfg, s, t.id, s.inserted[t.id]);
  }

  /** A kill of the chain is next, and a refresh has read its row `t` as good. */
  lemma KillIsUnclean(cfg: Config, s: State, i: nat, j: nat, t: Token)
    requires Inv(cfg, s) && t in s.db.tokens && i < |s.procs| && j < |s.procs| && s.procs[j] == RefreshRevoke(t)
    requires t.chainId in s.owner ==>
               s.procs[i] == LogoutAllRevoke(s.owner[t.chainId]) || s.procs[i] == RefreshKill(t.chainId)
    ensures t.chainId in s.owner && !NoneInFlight(s, t.chainId)
    ensures !NeverGrows(cfg, Next(cfg, s, Advance(i, NONE)), t.chainId)
  {
    RowIsOwned(cfg, s, t);
    assert CanIssue(s, s.procs[j], t.chainId);
    KillIsCleanExactly(cfg, s, i, NONE, t.chainId);
  }

  /** From empty tables: one login, one refresh that has read the row, and the UPDATE of a
      LogoutAll for its owner after which the chain still gets another row. */
  lemma UncleanLogoutAllReachable(cfg: Config) returns (s: State, i: nat, c: Uuid)
    requires cfg.refreshTTL >= 0
    ensures Leads(cfg, START, s) && Inv(cfg, s) && c in s.owner
    ensures i < |s.procs| && s.procs[i] == LogoutAllRevoke(s.owner[c]) && !NoneInFlight(s, c)
    ensures !NeverGrows(cfg, Next(cfg, s, Advance(i, NONE)), c)
  {
    var start, t := LoggedIn(cfg);
    c := t.chainId;
    i := |start.procs| + 1;
    RowIsOwned(cfg, start, t);
    var reading := StartRefresh(cfg, start, t);
    LeadsOn(cfg, START, start, reading);
    s := Start(cfg, reading, LogoutAllRevoke(start.owner[c]));
    LeadsOn(cfg, START, reading, s);
    KillIsUnclean(cfg, s, i, i - 1, t);
  }

  /** A rotation: the row is revoked, and a new one can be redeemed. */
  lemma Rotate(cfg: Config, s: State, t: Token) returns (end: State, spent: Token, newest: Token)
    requires Inv(cfg, s) && t in s.db.tokens && Redeemable(s, t, t.chainId) && cfg.refreshTTL >= 0
    ensures Leads(cfg, s, end) && Inv(cfg, end)
    ensures spent in end.db.tokens && !spent.Active() && spent.chainId == t.chainId
    ensures newest in end.db.tokens && Redeemable(end, newest, t.chainId)
  {
    var i := |s.procs|;
    var k :| 0 <= k < |s.db.tokens| && s.db.tokens[k] == t;
    RowIsOwned(cfg, s, t);
    var reading := StartRefresh(cfg, s, t);
    var revoked := RevokeOnce(cfg, reading, i, t);
    LeadsOn(cfg, s, reading, revoked);
    spent := revoked.db.tokens[k];
    end, newest := Deliver(cfg, revoked, i, t.chainId);
    LeadsOn(cfg, s, revoked, end);
  }

  /** A replay of the spent row has been found out. */
  lemma StartReplay(cfg: Config, s: State, t: Token) returns (end: State)
    requires Inv(cfg, s) && t in s.db.tokens && !t.Active()
    ensures Leads(cfg, s, end) && Inv(cfg, end)
    ensures end == s.(procs := s.procs + [RefreshKill(t.chainId)])
  {
    var i := |s.procs|;
    var found := Read(cfg, s, t);
    end := Moved(cfg, found, i, NONE, Effect(Nothing, RefreshKill(t.chainId)));
    assert found.procs[i := RefreshKill(t.chainId)] == s.procs + [RefreshKill(t.chainId)];
    LeadsOn(cfg, s, found, end);
  }

  /** The same for reuse detection: login, one rotation, one refresh that has read the new row,
      and the old token replayed. */
  lemma UncleanReuseReachable(cfg: Config) returns (s: State, i: nat, c: Uuid)
    requires cfg.refreshTTL >= 0
    ensures Leads(cfg, START, s) && Inv(cfg, s) && c in s.owner
    ensures i < |s.procs| && s.procs[i] == RefreshKill(c) && !NoneInFlight(s, c)
    ensures !NeverGrows(cfg, Next(cfg, s, Advance(i, NONE)), c)
  {
    var start, t := LoggedIn(cfg);
    var rotated, spent, newest := Rotate(cfg, start, t);
    LeadsOn(cfg, START, start, rotated);
    c := t.chainId;
    i := |rotated.procs| + 1;
    var reading := StartRefresh(cfg, rotated, newest);
    LeadsOn(cfg, START, rotated, reading);
    s := StartReplay(cfg, reading, spent);
    LeadsOn(cfg, START, reading, s);
    KillIsUnclean(cfg, s, i, i - 1, newest);
  }
}
