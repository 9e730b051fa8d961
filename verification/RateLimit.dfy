/** The per-address rate limiter: a map of limiters, each created when its address is first seen. */
module RateLimit {
  import opened TokenBucket

  class Limiter {
    const cfg: Config
    var bucket: Bucket

    constructor (cfg: Config)
      ensures this.cfg == cfg && bucket == Full(cfg)
    {
      this.cfg, bucket := cfg, Full(cfg);
    }

    method Allow(now: real) returns (ok: bool)
      modifies this
      ensures (bucket, ok) == TokenBucket.Allow(cfg, old(bucket), now)
    {
      var tokens := Available(cfg, bucket, now);
      ok := tokens >= 1.0;
      if ok {
        bucket := Bucket(tokens - 1.0, now);
      }
    }
  }

  class RateLimiter {
    const cfg: Config
    var limiters: map<string, Limiter>

    /** No two addresses share a limiter. */
    ghost predicate Valid()
      reads this, limiters.Values
    {
      && (forall k | k in limiters :: limiters[k].cfg == cfg)
      && (forall k, l | k in limiters && l in limiters && k != l :: limiters[k] != limiters[l])
    }

    ghost function Buckets(): map<string, Bucket>
      reads this, limiters.Values
    {
      map k | k in limiters :: limiters[k].bucket
    }

    constructor (cfg: Config)
      ensures Valid() && this.cfg == cfg && Buckets() == map[]
    {
      this.cfg, limiters := cfg, map[];
    }

    /** A limiter, once inserted, is never replaced. */
    method Get(key: string) returns (l: Limiter)
      requires Valid()
      modifies this`limiters
      ensures Valid() && key in limiters && limiters[key] == l
      ensures key in old(limiters) ==> limiters == old(limiters)
      ensures key !in old(limiters) ==> fresh(l) && limiters == old(limiters)[key := l]
      ensures Buckets() == if key in old(limiters) then old(Buckets()) else old(Buckets())[key := Full(cfg)]
    {
      if key in limiters {
        return limiters[key];
      }
      l := new Limiter(cfg);
      limiters := limiters[key := l];
    }

    /** One token from the limiter of `key`; no other bucket changes. */
    method Take(key: string, now: real) returns (passed: bool)
      requires Valid() && key in limiters
      modifies limiters[key]
      ensures Valid()
      ensures
        var (bucket, ok) := TokenBucket.Allow(cfg, old(Buckets())[key], now);
        passed == ok && Buckets() == old(Buckets())[key := bucket]
    {
      passed := limiters[key].Allow(now);
    }

    /** The bucket that a request from `remoteAddr` finds. */
    ghost function BucketFor(remoteAddr: string): Bucket
      reads this, limiters.Values
    {
      BucketOf(cfg, Buckets(), remoteAddr)
    }

    /** The middleware: the handler behind it runs exactly when this returns true. The bucket of the
        request's address decides and is charged, and that of no other address changes. */
    method Handle(remoteAddr: string, now: real) returns (passed: bool)
      requires Valid()
      modifies this`limiters, limiters.Values
      ensures Valid()
      ensures forall k | k in old(limiters) :: k in limiters && limiters[k] == old(limiters)[k]
      ensures (BucketFor(remoteAddr), passed) == TokenBucket.Allow(cfg, old(BucketFor(remoteAddr)), now)
      ensures forall other | !Shares(other, remoteAddr) :: BucketFor(other) == old(BucketFor(other))
      ensures Serve(cfg, old(Buckets()), Request(remoteAddr, now)) == [(remoteAddr, passed)]
    {
      var key := remoteAddr;
      if key == "" {
        key := "unknown";
      }
      OneRequest(cfg, Buckets(), remoteAddr, now);
      ghost var start := Buckets();
      var _ := Get(key);
      passed := Take(key, now);
      assert Buckets() == start[key := TokenBucket.Allow(cfg, BucketOf(cfg, start, remoteAddr), now).0];
      forall other | !Shares(other, remoteAddr) ensures BucketFor(other) == BucketOf(cfg, start, other) {
        KeysTellApart(other, remoteAddr);
      }
    }
  }
}
