/** The auth service, statement by statement over the refresh-token repository. */
module AuthService {
  import opened Schema
  import opened AuthSpec
  import opened Queries
  import opened Refinement
  import opened Sessions
  import Base64Url
  import Jwt

  /** The call is a step of the session automaton: the rows it leaves stand for the ledger the
      automaton moves to, and the answer is the automaton's. */
  ghost predicate IsPlay(cfg: Config, before: Store, op: Op, after: Store, reply: Reply) {
    Inv(before) && FreshIds(before, op) ==>
      Inv(after) && (Abs(after.tokens), reply) == Play(cfg, before.users, Abs(before.tokens), op)
  }

  lemma ExecIsPlay(cfg: Config, before: Store, op: Op)
    ensures IsPlay(cfg, before, op, Exec(cfg, before, op).0, Exec(cfg, before, op).1)
  {
    if Inv(before) && FreshIds(before, op) {
      CallRefines(cfg, before, op);
    }
  }

  class RefreshTokenRepository {
    const q: Database

    constructor (q: Database)
      ensures this.q == q
    {
      this.q := q;
    }

    /** Revoking a row that is revoked already, or missing, is a success. */
    method Revoke(id: Uuid, fate: Fate, now: Time) returns (failed: bool)
      modifies q`tokens
      ensures q.Contents() == RevokeStatement(old(q.Contents()), ById(id), fate, now)
      ensures failed <==> !fate.Applied?
    {
      var a := q.RevokeRefreshToken(id, fate, now);
      failed := a.Error?;
    }
  }

  class Service {
    const repo: RefreshTokenRepository
    const cfg: Config

    constructor (repo: RefreshTokenRepository, cfg: Config)
      ensures this.repo == repo && this.cfg == cfg
    {
      this.repo, this.cfg := repo, cfg;
    }

    method IssueRefreshAndAccess(user: Uuid, chain: Uuid, e: Issue) returns (reply: Reply)
      modifies repo.q`tokens
      ensures (repo.q.Contents(), reply) == IssuePair(cfg, old(repo.q.Contents()), user, chain, e)
    {
      var plaintext := Base64Url.GenerateRefreshToken(e.entropy);
      if plaintext.None? {
        return Failed;
      }
      var created := repo.q.CreateRefreshToken(
        user, cfg.digest(plaintext.value), chain, e.preparedAt + cfg.refreshTTL, e.create, e.rowId, e.createdAt);
      if !created.Row? {
        return Failed;
      }
      if !e.signs {
        return Failed;
      }
      reply := Tokens(Jwt.Sign(cfg.signer, user, chain, e.signedAt), plaintext.value);
    }

    method Login(email: string, password: string, chain: Uuid, e: Env) returns (reply: Reply)
      modifies repo.q`tokens
      ensures (repo.q.Contents(), reply) == Exec(cfg, old(repo.q.Contents()), Op.Login(email, password, chain, e))
      ensures IsPlay(cfg, old(repo.q.Contents()), Op.Login(email, password, chain, e), repo.q.Contents(), reply)
    {
      ExecIsPlay(cfg, repo.q.Contents(), Op.Login(email, password, chain, e));
      var user := repo.q.GetUserByEmail(email, e.readable);
      if user.NoRows? {
        return InvalidCredentials;
      }
      if user.Error? {
        return Failed;
      }
      if !cfg.passwordMatches(user.value.passwordHash, password) {
        return InvalidCredentials;
      }
      reply := IssueRefreshAndAccess(user.value.id, chain, e.issue);
    }

    method Refresh(presented: string, e: Env) returns (reply: Reply)
      modifies repo.q`tokens
      ensures (repo.q.Contents(), reply) == Exec(cfg, old(repo.q.Contents()), Op.Refresh(presented, e))
      ensures IsPlay(cfg, old(repo.q.Contents()), Op.Refresh(presented, e), repo.q.Contents(), reply)
    {
      ExecIsPlay(cfg, repo.q.Contents(), Op.Refresh(presented, e));
      var found := repo.q.GetRefreshTokenByHash(cfg.digest(presented), e.readable);
      if found.NoRows? {
        return Unknown;
      }
      if found.Error? {
        return Failed;
      }
      var row := found.value;
      if row.revokedAt.Some? {
        var failed := repo.q.RevokeChain(row.chainId, e.revoke, e.revokedAt);
        return if failed then Failed else Reuse;
      }
      if e.decidedAt > row.expiresAt {
        return Expired;
      }
      var failed := repo.Revoke(row.id, e.revoke, e.revokedAt);
      if failed {
        return Failed;
      }
      reply := IssueRefreshAndAccess(row.userId, row.chainId, e.issue);
    }

    method Logout(presented: string, e: Env) returns (reply: Reply)
      modifies repo.q`tokens
      ensures (repo.q.Contents(), reply) == Exec(cfg, old(repo.q.Contents()), Op.Logout(presented, e))
      ensures IsPlay(cfg, old(repo.q.Contents()), Op.Logout(presented, e), repo.q.Contents(), reply)
    {
      ExecIsPlay(cfg, repo.q.Contents(), Op.Logout(presented, e));
      var found := repo.q.GetRefreshTokenByHash(cfg.digest(presented), e.readable);
      if found.NoRows? {
        return LoggedOut;
      }
      if found.Error? {
        return Failed;
      }
      var failed := repo.Revoke(found.value.id, e.revoke, e.revokedAt);
      reply := if failed then Failed else LoggedOut;
    }

    method LogoutAll(user: Uuid, e: Env) returns (reply: Reply)
      modifies repo.q`tokens
      ensures (repo.q.Contents(), reply) == Exec(cfg, old(repo.q.Contents()), Op.LogoutAll(user, e))
      ensures IsPlay(cfg, old(repo.q.Contents()), Op.LogoutAll(user, e), repo.q.Contents(), reply)
    {
      ExecIsPlay(cfg, repo.q.Contents(), Op.LogoutAll(user, e));
      var failed := repo.q.RevokeAllForUser(user, e.revoke, e.revokedAt);
      reply := if failed then Failed else LoggedOut;
    }
  }
}
