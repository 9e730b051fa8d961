/** Token buckets, and what one bucket per remote address guarantees over whole streams. */
module TokenBucket {

  /** Requests per second, and the size of a bucket. */
  datatype Config = Config(rps: real, burst: int) {
    function Rate(): real { if rps > 0.0 then rps else 0.0 }
  }

  /** The tokens left at the last request that was allowed. */
  datatype Bucket = Bucket(tokens: real, last: real)

  function Full(cfg: Config): Bucket { Bucket(cfg.burst as real, 0.0) }

  /** What accrues between two readings of the clock; nothing if it went back. */
  function Gain(cfg: Config, from: real, to: real): real {
    if from <= to then (to - from) * cfg.Rate() else 0.0
  }

  /** What has accrued by `now`, up to the size of the bucket. */
  function Available(cfg: Config, b: Bucket, now: real): real {
    var tokens := b.tokens + Gain(cfg, b.last, now);
    if tokens > cfg.burst as real then cfg.burst as real else tokens
  }

  function Allow(cfg: Config, b: Bucket, now: real): (Bucket, bool) {
    var tokens := Available(cfg, b, now);
    if tokens >= 1.0 then (Bucket(tokens - 1.0, now), true) else (b, false)
  }

  // ---------- one bucket ----------

  function Decide(cfg: Config, b: Bucket, times: seq<real>): (r: seq<bool>)
    ensures |r| == |times|
    decreases |times|
  {
    if times == [] then []
    else
      var (next, ok) := Allow(cfg, b, times[0]);
      [ok] + Decide(cfg, next, times[1..])
  }

  function After(cfg: Config, b: Bucket, times: seq<real>): Bucket
    decreases |times|
  {
    if times == [] then b else After(cfg, Allow(cfg, b, times[0]).0, times[1..])
  }

  function Passed(decisions: seq<bool>): nat {
    if decisions == [] then 0 else (if decisions[0] then 1 else 0) + Passed(decisions[1..])
  }

  predicate InOrder(times: seq<real>) {
    forall i, j | 0 <= i < j < |times| :: times[i] <= times[j]
  }

  /** Between nothing and full. */
  predicate Sane(cfg: Config, b: Bucket) {
    0.0 <= b.tokens <= cfg.burst as real
  }

  lemma {:induction false} DecideAppends(cfg: Config, b: Bucket, first: seq<real>, rest: seq<real>)
    ensures Decide(cfg, b, first + rest) == Decide(cfg, b, first) + Decide(cfg, After(cfg, b, first), rest)
    decreases |first|
  {
    if first == [] {
      assert first + rest == rest;
    } else {
      assert (first + rest)[1..] == first[1..] + rest;
      DecideAppends(cfg, Allow(cfg, b, first[0]).0, first[1..], rest);
    }
  }

  /** The size of a full bucket, as a number of requests. */
  function Burst(cfg: Config): nat { if cfg.burst < 0 then 0 else cfg.burst }

  /** What accrues from one reading to the next, over a sequence of readings in any order. */
  function Accrued(cfg: Config, times: seq<real>): real {
    if |times| < 2 then 0.0 else Gain(cfg, times[0], times[1]) + Accrued(cfg, times[1..])
  }

  lemma GainFacts(cfg: Config, a: real, b: real, c: real)
    ensures Gain(cfg, a, b) >= 0.0
    ensures Gain(cfg, a, c) <= Gain(cfg, a, b) + Gain(cfg, b, c)
    ensures a <= b <= c ==> Gain(cfg, a, c) == Gain(cfg, a, b) + Gain(cfg, b, c)
  {
    Spread(b - a, c - b, cfg.Rate());
    Positive(b - a, cfg.Rate());
    Positive(c - b, cfg.Rate());
  }

  lemma Positive(x: real, rate: real)
    requires rate >= 0.0
    ensures x >= 0.0 ==> x * rate >= 0.0
    ensures x <= 0.0 ==> x * rate <= 0.0
  {
  }

  lemma Spread(x: real, y: real, rate: real)
    ensures (x + y) * rate == x * rate + y * rate
  {
  }

  lemma AvailableIsSane(cfg: Config, b: Bucket, now: real)
    requires Sane(cfg, b)
    ensures b.tokens <= Available(cfg, b, now) <= cfg.burst as real
    ensures Sane(cfg, Allow(cfg, b, now).0)
  {
    GainFacts(cfg, b.last, now, now);
  }

  /** Whatever the clock does, tokens accrue no faster than the rate while it goes forward. */
  lemma AccruesAtRate(cfg: Config, b: Bucket, now: real, later: real)
    requires Sane(cfg, b)
    ensures Available(cfg, b, later) <= Available(cfg, b, now) + Gain(cfg, now, later)
  {
    GainFacts(cfg, b.last, now, later);
    GainFacts(cfg, now, later, later);
  }

  /** One decision costs what it lets pass. */
  lemma DecisionIsPaid(cfg: Config, b: Bucket, now: real, later: real)
    requires Sane(cfg, b)
    ensures
      var (next, ok) := Allow(cfg, b, now);
      (if ok then 1.0 else 0.0) + Available(cfg, next, later)
      <= Available(cfg, b, now) + Gain(cfg, now, later)
  {
    AvailableIsSane(cfg, b, now);
    AccruesAtRate(cfg, b, now, later);
  }

  /** Potential argument: what passes is paid for by what was available and what accrued. */
  lemma {:induction false} PassedIsPaid(cfg: Config, b: Bucket, times: seq<real>)
    requires times != [] && Sane(cfg, b)
    ensures Passed(Decide(cfg, b, times)) as real <= Available(cfg, b, times[0]) + Accrued(cfg, times)
    decreases |times|
  {
    var (next, ok) := Allow(cfg, b, times[0]);
    var rest := times[1..];
    AvailableIsSane(cfg, b, times[0]);
    assert Decide(cfg, b, times)[1..] == Decide(cfg, next, rest);
    if rest == [] {
      assert Passed(Decide(cfg, next, rest)) == 0;
    } else {
      PassedIsPaid(cfg, next, rest);
      DecisionIsPaid(cfg, b, times[0], rest[0]);
    }
  }

  lemma {:induction false} EmptyBucketPassesNothing(cfg: Config, b: Bucket, times: seq<real>)
    requires cfg.burst < 1
    ensures Passed(Decide(cfg, b, times)) == 0
    decreases |times|
  {
    if times != [] {
      EmptyBucketPassesNothing(cfg, b, times[1..]);
      assert Allow(cfg, b, times[0]) == (b, false);
    }
  }

  lemma {:induction false} AfterStaysSane(cfg: Config, b: Bucket, times: seq<real>)
    requires Sane(cfg, b)
    ensures Sane(cfg, After(cfg, b, times))
    decreases |times|
  {
    if times != [] {
      AvailableIsSane(cfg, b, times[0]);
      AfterStaysSane(cfg, Allow(cfg, b, times[0]).0, times[1..]);
    }
  }

  lemma {:induction false} AccruedIsNotNegative(cfg: Config, times: seq<real>)
    ensures Accrued(cfg, times) >= 0.0
  {
    if |times| >= 2 {
      GainFacts(cfg, times[0], times[1], times[1]);
      AccruedIsNotNegative(cfg, times[1..]);
    }
  }

  /** The bound for every stream and every window of it, whatever readings of the clock the
      requests come with: burst, and what accrued while the clock went forward. */
  lemma AnyWindowBound(cfg: Config, before: seq<real>, window: seq<real>, after: seq<real>)
    ensures
      var decisions := Decide(cfg, Full(cfg), before + window + after);
      Passed(decisions[|before|..|before| + |window|]) as real <= Burst(cfg) as real + Accrued(cfg, window)
  {
    var decisions := Decide(cfg, Full(cfg), before + window + after);
    var b := After(cfg, Full(cfg), before);
    assert before + window + after == before + (window + after);
    DecideAppends(cfg, Full(cfg), before, window + after);
    DecideAppends(cfg, b, window, after);
    assert decisions[|before|..|before| + |window|] == Decide(cfg, b, window);
    AccruedIsNotNegative(cfg, window);
    if cfg.burst < 1 {
      EmptyBucketPassesNothing(cfg, b, window);
    } else if window != [] {
      AfterStaysSane(cfg, Full(cfg), before);
      AvailableIsSane(cfg, b, window[0]);
      PassedIsPaid(cfg, b, window);
    }
  }

  /** With readings in order, that is rate times the length of the window. */
  lemma {:induction false} AccruedInOrder(cfg: Config, times: seq<real>)
    requires times != [] && InOrder(times)
    ensures Accrued(cfg, times) == Gain(cfg, times[0], times[|times| - 1])
  {
    if |times| >= 2 {
      OrderFromSecond(times);
      AccruedInOrder(cfg, times[1..]);
      GainFacts(cfg, times[0], times[1], times[|times| - 1]);
    }
  }

  lemma OrderFromSecond(times: seq<real>)
    requires |times| >= 2
    ensures InOrder(times) <==> times[0] <= times[1] && InOrder(times[1..])
  {
    if times[0] <= times[1] && InOrder(times[1..]) {
      forall i, j | 0 <= i < j < |times| ensures times[i] <= times[j] {
        assert times[j] == times[1..][j - 1] && times[1] == times[1..][0];
        if i > 0 {
          assert times[i] == times[1..][i - 1];
        }
      }
    }
    if InOrder(times) {
      assert forall i | 0 <= i < |times[1..]| :: times[1..][i] == times[i + 1];
    }
  }

  /** In a window whose requests come in the order of their clock readings at most burst plus
      rate times the length of the window pass, whatever came before and after. */
  lemma WindowBound(cfg: Config, before: seq<real>, window: seq<real>, after: seq<real>)
    requires window != [] && InOrder(window)
    ensures
      var decisions := Decide(cfg, Full(cfg), before + window + after);
      Passed(decisions[|before|..|before| + |window|]) as real
      <= Burst(cfg) as real + Gain(cfg, window[0], window[|window| - 1])
  {
    AnyWindowBound(cfg, before, window, after);
    AccruedInOrder(cfg, window);
  }

  // ---------- and no bound is better ----------

  /** Requests that the bucket can pay for, without ever being too full to take more. */
  lemma {:induction false} PaidRequestsPass(cfg: Config, b: Bucket, times: seq<real>)
    requires b.tokens >= |times| as real - 1.0
    requires |times| as real <= b.tokens + Accrued(cfg, [b.last] + times) <= cfg.burst as real
    ensures Passed(Decide(cfg, b, times)) == |times|
    decreases |times|
  {
    if times != [] {
      var now, rest := times[0], times[1..];
      assert ([b.last] + times)[1..] == times && [now] + rest == times;
      AccruedIsNotNegative(cfg, times);
      GainFacts(cfg, b.last, now, now);
      assert rest == [] ==> Accrued(cfg, times) == 0.0;
      var (next, ok) := Allow(cfg, b, now);
      PaidRequestsPass(cfg, next, rest);
      assert Decide(cfg, b, times)[1..] == Decide(cfg, next, rest);
    }
  }

  /** How far the clock goes forward in all, not counting the steps back. */
  function Forward(times: seq<real>): real {
    if |times| < 2 then 0.0
    else (if times[0] <= times[1] then times[1] - times[0] else 0.0) + Forward(times[1..])
  }

  lemma {:induction false} AccruedIsForward(cfg: Config, times: seq<real>)
    ensures Accrued(cfg, times) == Forward(times) * cfg.Rate()
  {
    if |times| >= 2 {
      AccruedIsForward(cfg, times[1..]);
      var step := if times[0] <= times[1] then times[1] - times[0] else 0.0;
      assert (step + Forward(times[1..])) * cfg.Rate() == step * cfg.Rate() + Forward(times[1..]) * cfg.Rate();
    }
  }

  /** It goes forward by the length of the window exactly if the window is in order. */
  lemma {:induction false} ForwardInOrder(times: seq<real>)
    requires times != []
    ensures Forward(times) >= times[|times| - 1] - times[0]
    ensures Forward(times) == times[|times| - 1] - times[0] <==> InOrder(times)
    ensures Forward(times) >= 0.0
  {
    if |times| >= 2 {
      ForwardInOrder(times[1..]);
      OrderFromSecond(times);
    }
  }

  /** The limits under which a fresh bucket lets every request of the window through. */
  function Tightest(window: seq<real>): Config {
    if Forward(window) > 0.0 then Config(1.0 / Forward(window), |window| - 1) else Config(1.0, |window|)
  }

  lemma TightestAccrues(window: seq<real>)
    requires window != []
    ensures
      var cfg := Tightest(window);
      && cfg.rps > 0.0 && cfg.burst >= 1
      && Accrued(cfg, window) == (if Forward(window) > 0.0 then 1.0 else 0.0) == (|window| - cfg.burst) as real
  {
    var f := Forward(window);
    ForwardInOrder(window);
    AccruedIsForward(Tightest(window), window);
    if f > 0.0 {
      assert 1.0 / f > 0.0 && f * (1.0 / f) == 1.0;
    }
  }

  /** The bound is attained, for every sequence of readings. */
  lemma BoundIsTight(window: seq<real>)
    requires window != []
    ensures
      var cfg := Tightest(window);
      && cfg.rps > 0.0 && cfg.burst >= 1
      && Passed(Decide(cfg, Full(cfg), window)) as real == Burst(cfg) as real + Accrued(cfg, window)
  {
    var cfg := Tightest(window);
    TightestAccrues(window);
    FullBucketPasses(cfg, window);
  }

  lemma FullBucketPasses(cfg: Config, window: seq<real>)
    requires window != [] && |window| >= cfg.burst >= 1
    requires |window| as real == cfg.burst as real + Accrued(cfg, window) && Accrued(cfg, window) <= 1.0
    ensures Passed(Decide(cfg, Full(cfg), window)) == |window|
  {
    var full, rest := Full(cfg), window[1..];
    GainFacts(cfg, full.last, window[0], window[0]);
    var next := Allow(cfg, full, window[0]).0;
    assert [window[0]] + rest == window;
    PaidRequestsPass(cfg, next, rest);
    assert Decide(cfg, full, window)[1..] == Decide(cfg, next, rest);
  }

  /** Rate times the time from the first to the last reading. */
  function Span(cfg: Config, window: seq<real>): real
    requires window != []
  {
    (window[|window| - 1] - window[0]) * cfg.Rate()
  }

  ghost predicate WithinWindow(cfg: Config, window: seq<real>)
    requires window != []
  {
    Passed(Decide(cfg, Full(cfg), window)) as real <= Burst(cfg) as real + Span(cfg, window)
  }

  lemma OrderedIsWithin(cfg: Config, window: seq<real>)
    requires window != [] && InOrder(window)
    ensures WithinWindow(cfg, window)
  {
    WindowBound(cfg, [], window, []);
    assert [] + window + [] == window;
    assert Decide(cfg, Full(cfg), window)[0..|window|] == Decide(cfg, Full(cfg), window);
  }

  lemma ScaledIsMore(x: real, y: real, rate: real)
    requires x > y && rate > 0.0
    ensures x * rate > y * rate
  {
    assert (x - y) * rate > 0.0;
    assert (x - y) * rate == x * rate - y * rate;
  }

  lemma DisorderAccruesMore(cfg: Config, window: seq<real>)
    requires window != [] && !InOrder(window) && cfg.rps > 0.0
    ensures Accrued(cfg, window) > Span(cfg, window)
  {
    ForwardInOrder(window);
    AccruedIsForward(cfg, window);
    var length := window[|window| - 1] - window[0];
    ScaledIsMore(Forward(window), length, cfg.rps);
    assert Span(cfg, window) == length * cfg.rps;
  }

  /** So the bound of `WindowBound` holds for all limits exactly if the window is in order. */
  lemma WindowBoundExactly(window: seq<real>)
    requires window != []
    ensures InOrder(window) <==> forall cfg: Config | cfg.rps > 0.0 && cfg.burst >= 1 :: WithinWindow(cfg, window)
  {
    if InOrder(window) {
      forall cfg: Config | cfg.rps > 0.0 && cfg.burst >= 1 ensures WithinWindow(cfg, window) {
        OrderedIsWithin(cfg, window);
      }
    } else {
      BoundIsTight(window);
      DisorderAccruesMore(Tightest(window), window);
      assert !WithinWindow(Tightest(window), window);
    }
  }

  /** The time of the last request that passed. */
  function LastPass(times: seq<real>, decisions: seq<bool>, start: real): real
    requires |times| == |decisions|
  {
    if times == [] then start
    else LastPass(times[1..], decisions[1..], if decisions[0] then times[0] else start)
  }

  lemma {:induction false} LastIsLastPass(cfg: Config, b: Bucket, times: seq<real>)
    ensures After(cfg, b, times).last == LastPass(times, Decide(cfg, b, times), b.last)
    decreases |times|
  {
    if times != [] {
      LastIsLastPass(cfg, Allow(cfg, b, times[0]).0, times[1..]);
    }
  }

  lemma Worth(gap: real, wait: real, rate: real, n: real)
    requires gap >= wait && rate > 0.0 && wait * rate >= n
    ensures gap * rate >= n
  {
    if gap > wait {
      ScaledIsMore(gap, wait, rate);
    }
  }

  lemma RefilledHolds(cfg: Config, b: Bucket, now: real, wait: real, n: nat)
    requires 1 <= n <= cfg.burst && cfg.rps > 0.0 && Sane(cfg, b)
    requires wait * cfg.rps >= n as real && now >= b.last + wait
    ensures Available(cfg, b, now) >= n as real
  {
    Worth(now - b.last, wait, cfg.rps, n as real);
    PositiveFactor(now - b.last, cfg.rps);
    assert Gain(cfg, b.last, now) == (now - b.last) * cfg.rps;
  }

  predicate AllPass(decisions: seq<bool>) {
    forall i | 0 <= i < |decisions| :: decisions[i]
  }

  /** A bucket lets through as many requests as it holds tokens, however close together. */
  lemma {:induction false} EnoughTokens(cfg: Config, b: Bucket, times: seq<real>)
    requires |times| as real <= b.tokens <= cfg.burst as real
    ensures AllPass(Decide(cfg, b, times))
    decreases |times|
  {
    if times != [] {
      var (next, ok) := Allow(cfg, b, times[0]);
      GainFacts(cfg, b.last, times[0], times[0]);
      EnoughTokens(cfg, next, times[1..]);
    }
  }

  lemma AvailablePass(cfg: Config, b: Bucket, times: seq<real>)
    requires times != [] && Sane(cfg, b) && |times| as real <= Available(cfg, b, times[0])
    ensures AllPass(Decide(cfg, b, times))
  {
    AvailableIsSane(cfg, b, times[0]);
    EnoughTokens(cfg, Allow(cfg, b, times[0]).0, times[1..]);
  }

  /** The first `burst` requests pass, however close together. */
  lemma BurstPasses(cfg: Config, times: seq<real>)
    requires |times| <= cfg.burst
    ensures AllPass(Decide(cfg, Full(cfg), times))
  {
    EnoughTokens(cfg, Full(cfg), times);
  }

  /** The decisions on more requests, and the bucket the first of them finds. */
  lemma LaterDecisions(cfg: Config, before: seq<real>, times: seq<real>)
    requires cfg.burst >= 0
    ensures
      var b := After(cfg, Full(cfg), before);
      && Sane(cfg, b) && b.last == LastPass(before, Decide(cfg, Full(cfg), before), 0.0)
      && Decide(cfg, Full(cfg), before + times)[|before|..] == Decide(cfg, b, times)
  {
    DecideAppends(cfg, Full(cfg), before, times);
    LastIsLastPass(cfg, Full(cfg), before);
    AfterStaysSane(cfg, Full(cfg), before);
  }

  /** An idle bucket fills up: after a wait worth `|times|` tokens, up to the burst, that many
      requests pass, however close together and whatever came before. */
  lemma Refills(cfg: Config, before: seq<real>, times: seq<real>, wait: real)
    requires 1 <= |times| <= cfg.burst && cfg.rps > 0.0 && wait * cfg.rps >= |times| as real
    requires times[0] >= LastPass(before, Decide(cfg, Full(cfg), before), 0.0) + wait
    ensures AllPass(Decide(cfg, Full(cfg), before + times)[|before|..])
  {
    LaterDecisions(cfg, before, times);
    RefilledHolds(cfg, After(cfg, Full(cfg), before), times[0], wait, |times|);
    AvailablePass(cfg, After(cfg, Full(cfg), before), times);
  }

  lemma PositiveFactor(x: real, y: real)
    requires x * y >= 1.0 && y > 0.0
    ensures x >= 0.0
  {
  }

  lemma Reciprocal(x: real) returns (r: real)
    requires x > 0.0
    ensures r == 1.0 / x && r * x == 1.0
  {
    r := 1.0 / x;
  }

  lemma RefillsOne(cfg: Config, before: seq<real>, now: real, wait: real)
    requires cfg.burst >= 1 && cfg.rps > 0.0 && wait * cfg.rps >= 1.0
    requires now >= LastPass(before, Decide(cfg, Full(cfg), before), 0.0) + wait
    ensures Decide(cfg, Full(cfg), before + [now])[|before|]
  {
    Refills(cfg, before, [now], wait);
    assert Decide(cfg, Full(cfg), before + [now])[|before|..][0];
  }

  /** With room for one, a request that comes 1/rps after the last one that passed, passes,
      whatever readings of the clock came before. */
  lemma Recovers(cfg: Config, before: seq<real>, now: real)
    requires cfg.burst >= 1 && cfg.rps > 0.0
    requires now >= LastPass(before, Decide(cfg, Full(cfg), before), 0.0) + 1.0 / cfg.rps
    ensures Decide(cfg, Full(cfg), before + [now])[|before|]
  {
    var wait := Reciprocal(cfg.rps);
    RefillsOne(cfg, before, now, wait);
  }

  // ---------- many addresses ----------

  function KeyFor(remoteAddr: string): string {
    if remoteAddr == "" then "unknown" else remoteAddr
  }

  /** The only two remote addresses that are the same to the limiter. */
  predicate Shares(a: string, b: string) {
    a == b || (a == "" && b == "unknown") || (a == "unknown" && b == "")
  }

  lemma KeysTellApart(a: string, b: string)
    ensures KeyFor(a) == KeyFor(b) <==> Shares(a, b)
  {
  }

  /** A request is two locked sections, which other requests may come between. */
  datatype Event = Get(remoteAddr: string) | Take(remoteAddr: string, now: real)

  function BucketOf(cfg: Config, m: map<string, Bucket>, remoteAddr: string): Bucket {
    if KeyFor(remoteAddr) in m then m[KeyFor(remoteAddr)] else Full(cfg)
  }

  /** The decisions, each with the address it was for. */
  function Serve(cfg: Config, m: map<string, Bucket>, events: seq<Event>): seq<(string, bool)>
    decreases |events|
  {
    if events == [] then []
    else
      match events[0]
      case Get(addr) => Serve(cfg, m[KeyFor(addr) := BucketOf(cfg, m, addr)], events[1..])
      case Take(addr, now) =>
        var (next, ok) := Allow(cfg, BucketOf(cfg, m, addr), now);
        [(addr, ok)] + Serve(cfg, m[KeyFor(addr) := next], events[1..])
  }

  /** What the requests of one address were told. */
  function DecisionsFor(addr: string, decisions: seq<(string, bool)>): seq<bool> {
    if decisions == [] then []
    else (if Shares(decisions[0].0, addr) then [decisions[0].1] else []) + DecisionsFor(addr, decisions[1..])
  }

  /** The clock readings of the requests of one address. */
  function TimesOf(addr: string, events: seq<Event>): seq<real> {
    if events == [] then []
    else
      (if events[0].Take? && Shares(events[0].remoteAddr, addr) then [events[0].now] else [])
      + TimesOf(addr, events[1..])
  }

  /** The sections of one request. */
  function Request(remoteAddr: string, now: real): seq<Event> {
    [Get(remoteAddr), Take(remoteAddr, now)]
  }

  lemma OneRequest(cfg: Config, m: map<string, Bucket>, addr: string, now: real)
    ensures Serve(cfg, m, Request(addr, now)) == [(addr, Allow(cfg, BucketOf(cfg, m, addr), now).1)]
  {
    assert Request(addr, now)[1..] == [Take(addr, now)];
    assert [Take(addr, now)][1..] == [];
    var n := m[KeyFor(addr) := BucketOf(cfg, m, addr)];
    var (next, ok) := Allow(cfg, BucketOf(cfg, n, addr), now);
    assert Serve(cfg, n, [Take(addr, now)]) == [(addr, ok)] + Serve(cfg, n[KeyFor(addr) := next], []);
  }

  /** However the requests interleave, an address sees its own bucket and nothing else. */
  lemma {:induction false} Projection(cfg: Config, m: map<string, Bucket>, events: seq<Event>, addr: string)
    ensures DecisionsFor(addr, Serve(cfg, m, events)) == Decide(cfg, BucketOf(cfg, m, addr), TimesOf(addr, events))
    decreases |events|
  {
    if events != [] {
      KeysTellApart(events[0].remoteAddr, addr);
      match events[0]
      case Get(a) =>
        var n := m[KeyFor(a) := BucketOf(cfg, m, a)];
        Projection(cfg, n, events[1..], addr);
        assert BucketOf(cfg, n, addr) == BucketOf(cfg, m, addr);
        assert TimesOf(addr, events) == TimesOf(addr, events[1..]);
      case Take(a, now) => ProjectTake(cfg, m, events, addr);
    }
  }

  lemma ProjectTake(cfg: Config, m: map<string, Bucket>, events: seq<Event>, addr: string)
    requires events != [] && events[0].Take?
    ensures DecisionsFor(addr, Serve(cfg, m, events)) == Decide(cfg, BucketOf(cfg, m, addr), TimesOf(addr, events))
    decreases |events|, 0
  {
    var a, now := events[0].remoteAddr, events[0].now;
    var (next, ok) := Allow(cfg, BucketOf(cfg, m, a), now);
    var n := m[KeyFor(a) := next];
    var rest := Serve(cfg, n, events[1..]);
    Projection(cfg, n, events[1..], addr);
    KeysTellApart(a, addr);
    assert ([(a, ok)] + rest)[1..] == rest;
    if Shares(a, addr) {
      assert ([now] + TimesOf(addr, events[1..]))[1..] == TimesOf(addr, events[1..]);
    } else {
      assert BucketOf(cfg, n, addr) == BucketOf(cfg, m, addr);
      assert TimesOf(addr, events) == TimesOf(addr, events[1..]);
      assert DecisionsFor(addr, [(a, ok)] + rest) == DecisionsFor(addr, rest);
    }
  }

  /** From the start, that is the full bucket of a limiter of its own. */
  lemma PrivateBucket(cfg: Config, events: seq<Event>, addr: string)
    ensures DecisionsFor(addr, Serve(cfg, map[], events)) == Decide(cfg, Full(cfg), TimesOf(addr, events))
  {
    Projection(cfg, map[], events, addr);
  }

  /** The bound holds for every address in every interleaving, whatever clock readings its
      requests come with. */
  lemma PerAddressBound(cfg: Config, events: seq<Event>, addr: string, i: nat, j: nat)
    requires i <= j <= |TimesOf(addr, events)|
    ensures |DecisionsFor(addr, Serve(cfg, map[], events))| == |TimesOf(addr, events)|
    ensures Passed(DecisionsFor(addr, Serve(cfg, map[], events))[i..j]) as real
         <= Burst(cfg) as real + Accrued(cfg, TimesOf(addr, events)[i..j])
  {
    var times := TimesOf(addr, events);
    PrivateBucket(cfg, events, addr);
    assert times[..i] + times[i..j] + times[j..] == times;
    AnyWindowBound(cfg, times[..i], times[i..j], times[j..]);
  }

  /** Burst plus rate times the length of the window, if the address's requests in the window
      reach the bucket in the order of their clock readings. */
  lemma PerAddressWindow(cfg: Config, events: seq<Event>, addr: string, i: nat, j: nat)
    requires i < j <= |TimesOf(addr, events)| && InOrder(TimesOf(addr, events)[i..j])
    ensures |DecisionsFor(addr, Serve(cfg, map[], events))| == |TimesOf(addr, events)|
    ensures
      var times := TimesOf(addr, events);
      Passed(DecisionsFor(addr, Serve(cfg, map[], events))[i..j]) as real
      <= Burst(cfg) as real + Gain(cfg, times[i], times[j - 1])
  {
    PerAddressBound(cfg, events, addr, i, j);
    AccruedInOrder(cfg, TimesOf(addr, events)[i..j]);
  }

  /** Two requests that read the clock and reach the bucket the other way round: five pass in a
      window of one second at one a second with a burst of three. */
  lemma SwappedReadingsExceed()
    ensures
      var cfg, times := Config(1.0, 3), [10.0, 9.0, 10.0, 9.0, 10.0];
      && Passed(Decide(cfg, Full(cfg), times)) == 5
      && (forall t | t in times :: 9.0 <= t <= 10.0)
      && 5.0 > Burst(cfg) as real + Gain(cfg, 9.0, 10.0)
  {
    var cfg := Config(1.0, 3);
    PassOne(cfg, Full(cfg), 10.0, [9.0, 10.0, 9.0, 10.0]);
    PassOne(cfg, Bucket(2.0, 10.0), 9.0, [10.0, 9.0, 10.0]);
    PassOne(cfg, Bucket(1.0, 9.0), 10.0, [9.0, 10.0]);
    PassOne(cfg, Bucket(1.0, 10.0), 9.0, [10.0]);
    PassOne(cfg, Bucket(0.0, 9.0), 10.0, []);
    assert Passed(Decide(cfg, Bucket(0.0, 10.0), [])) == 0;
  }

  lemma PassOne(cfg: Config, b: Bucket, now: real, rest: seq<real>)
    requires Allow(cfg, b, now).1
    ensures Passed(Decide(cfg, b, [now] + rest)) == 1 + Passed(Decide(cfg, Allow(cfg, b, now).0, rest))
  {
    assert ([now] + rest)[1..] == rest;
    assert Decide(cfg, b, [now] + rest)[1..] == Decide(cfg, Allow(cfg, b, now).0, rest);
  }
}
