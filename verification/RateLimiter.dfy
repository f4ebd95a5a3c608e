/**
 * The per-client token bucket limiter. Times are nanoseconds; tokens are counted exactly, in
 * units of 1/60e9 of a request, so that one nanosecond refills `perMinute` units.
 */
module RateLimiter {
  import opened Wrappers

  const SECOND: pos := 1_000_000_000
  const MINUTE: pos := 60_000_000_000
  const CLIENT_TTL: pos := 10 * MINUTE
  const CLEANUP_INTERVAL: pos := 5 * MINUTE
  const TOKEN: pos := MINUTE  // the units that one request costs

  datatype Policy = Policy(perMinute: pos, burst: pos) {
    function Capacity(): pos { burst * TOKEN }

    /** The units earned in `d` nanoseconds. */
    function Earned(d: int): int { perMinute * d }
  }

  /** A setting that is not positive counts as absent. */
  function ConfiguredRateLimit(value: int, fallback: pos): pos { if value > 0 then value else fallback }

  const AUTH_DEFAULTS := Policy(10, 5)
  const METRICS_DEFAULTS := Policy(600, 100)
  const ACTION_DEFAULTS := Policy(30, 10)

  /** The policy of one of the three limiters. */
  function ConfiguredPolicy(perMinute: int, burst: int, defaults: Policy): Policy {
    Policy(ConfiguredRateLimit(perMinute, defaults.perMinute), ConfiguredRateLimit(burst, defaults.burst))
  }

  datatype Bucket = Bucket(tokens: int, updated: int, lastSeen: int)
  datatype Decision = Allowed | Rejected(retry: int)
  datatype State = State(clients: map<string, Bucket>, lastCleanup: Option<int>)

  function Min(a: int, b: int): int { if a <= b then a else b }
  function Max(a: int, b: int): int { if a <= b then b else a }
  function CeilDiv(a: int, b: pos): int { (a + b - 1) / b }

  function RetryAfter(p: Policy, tokens: int): int { Max(SECOND, CeilDiv(TOKEN - tokens, p.perMinute)) }

  /** The value of the Retry-After header, in whole seconds. */
  function HeaderSeconds(retry: int): int { CeilDiv(retry, SECOND) }

  function Fresh(p: Policy, now: int): Bucket { Bucket(p.Capacity(), now, now) }

  function Refill(p: Policy, b: Bucket, now: int): Bucket {
    if now > b.updated then Bucket(Min(p.Capacity(), b.tokens + p.Earned(now - b.updated)), now, b.lastSeen) else b
  }

  /** One call on a client's bucket, or on a new one. */
  function Serve(p: Policy, known: Option<Bucket>, now: int): (Bucket, Decision) {
    var b := Refill(p, if known.Some? then known.value else Fresh(p, now), now).(lastSeen := now);
    if b.tokens >= TOKEN then (b.(tokens := b.tokens - TOKEN), Allowed)
    else (b, Rejected(RetryAfter(p, b.tokens)))
  }

  predicate CleanupDue(s: State, now: int) {
    s.lastCleanup.None? || now - s.lastCleanup.value >= CLEANUP_INTERVAL
  }

  function Evicted(clients: map<string, Bucket>, now: int): map<string, Bucket> {
    map k | k in clients && now - clients[k].lastSeen < CLIENT_TTL :: clients[k]
  }

  function Clean(s: State, now: int): State {
    if CleanupDue(s, now) then State(Evicted(s.clients, now), Some(now)) else s
  }

  function Known(s: State, key: string): Option<Bucket> {
    if key in s.clients then Some(s.clients[key]) else None
  }

  function Allow(p: Policy, s: State, key: string, now: int): (State, Decision) {
    var c := Clean(s, now);
    var (b, d) := Serve(p, Known(c, key), now);
    (c.(clients := c.clients[key := b]), d)
  }

  class ClientRateLimiter {
    const policy: Policy
    var clients: map<string, Bucket>
    var lastCleanup: Option<int>

    ghost function Contents(): State
      reads this
    {
      State(clients, lastCleanup)
    }

    constructor (perMinute: pos, burst: pos)
      ensures policy == Policy(perMinute, burst) && Contents() == State(map[], None)
    {
      policy := Policy(perMinute, burst);
      clients, lastCleanup := map[], None;
    }

    /** The clock is read before the mutex is taken: `now` may lie before an earlier call's. */
    method AllowAt(key: string, now: int) returns (d: Decision)
      modifies this
      ensures (Contents(), d) == Allow(policy, old(Contents()), key, now)
    {
      if lastCleanup.None? || now - lastCleanup.value >= CLEANUP_INTERVAL {
        EvictIdle(now);
        lastCleanup := Some(now);
      }
      ghost var kept := clients;
      if key !in clients {
        clients := clients[key := Bucket(policy.Capacity(), now, now)];
      }
      var bucket := clients[key];
      var elapsed := now - bucket.updated;
      if elapsed > 0 {
        bucket := bucket.(tokens := Min(policy.Capacity(), bucket.tokens + policy.Earned(elapsed)), updated := now);
      }
      bucket := bucket.(lastSeen := now);
      if bucket.tokens >= TOKEN {
        bucket := bucket.(tokens := bucket.tokens - TOKEN);
        clients := clients[key := bucket];
        assert clients == kept[key := bucket];
        return Allowed;
      }
      clients := clients[key := bucket];
      assert clients == kept[key := bucket];
      var retry := CeilDiv(TOKEN - bucket.tokens, policy.perMinute);
      if retry < SECOND {
        retry := SECOND;
      }
      return Rejected(retry);
    }

    method EvictIdle(now: int)
      modifies this`clients
      ensures clients == Evicted(old(clients), now)
    {
      var todo := clients.Keys;
      while todo != {}
        invariant todo <= clients.Keys
        invariant forall k :: k in clients ==> k in old(clients) && clients[k] == old(clients)[k]
        invariant forall k :: k in old(clients) && k !in todo ==>
                    (k in clients <==> now - old(clients)[k].lastSeen < CLIENT_TTL)
        invariant forall k :: k in todo ==> k in old(clients)
        decreases todo
      {
        var client :| client in todo;
        if now - clients[client].lastSeen >= CLIENT_TTL {
          clients := clients - {client};
        }
        todo := todo - {client};
      }
    }
  }

  datatype Response = Next | TooManyRequests(retryAfter: int)

  /** The handler's answer: status 429 with Retry-After, or the wrapped handler. */
  method RateLimit(limiter: ClientRateLimiter, key: string, now: int) returns (r: Response)
    modifies limiter
    ensures var (s, d) := Allow(limiter.policy, old(limiter.Contents()), key, now);
      && limiter.Contents() == s
      && r == if d.Allowed? then Next else TooManyRequests(HeaderSeconds(d.retry))
  {
    var d := limiter.AllowAt(key, now);
    if d.Rejected? {
      return TooManyRequests(HeaderSeconds(d.retry));
    }
    return Next;
  }

  // -------------------------------------------------------------------- runs

  datatype Call = Call(key: string, at: int)

  /** The limiter after serving `calls` in the order in which they got the mutex. */
  function Run(p: Policy, calls: seq<Call>): State {
    if calls == [] then State(map[], None)
    else
      var c := calls[|calls| - 1];
      Allow(p, Run(p, calls[..|calls| - 1]), c.key, c.at).0
  }

  function Reply(p: Policy, calls: seq<Call>, i: nat): Decision
    requires i < |calls|
  {
    Allow(p, Run(p, calls[..i]), calls[i].key, calls[i].at).1
  }

  predicate InOrder(calls: seq<Call>) {
    forall i, j :: 0 <= i < j < |calls| ==> calls[i].at <= calls[j].at
  }

  lemma RunStep(p: Policy, calls: seq<Call>, i: nat)
    requires i < |calls|
    ensures Run(p, calls[..i + 1]) == Allow(p, Run(p, calls[..i]), calls[i].key, calls[i].at).0
  {
    assert calls[..i + 1][..i] == calls[..i];
  }
}
