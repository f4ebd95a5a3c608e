/** What the limiter admits: invariants under any clock, the exact window law, the retry delay. */
module RateLimits {
  import opened Wrappers
  import opened RateLimiter

  // -------------------------------------------------------------- arithmetic

  lemma EarnedAdds(p: Policy, a: int, b: int)
    ensures p.Earned(a + b) == p.Earned(a) + p.Earned(b)
    ensures p.Earned(0) == 0
  {
  }

  lemma EarnedMonotone(p: Policy, a: int, b: int)
    ensures a <= b ==> p.Earned(a) <= p.Earned(b)
  {
    if a <= b {
      assert p.perMinute * (b - a) >= 0;
      EarnedAdds(p, a, b - a);
    }
  }

  /** `CeilDiv(a, b)` is the least number of steps of size `b` that reach `a`. */
  lemma CeilDivLeast(a: int, b: pos, d: int)
    requires a >= 0
    ensures d >= CeilDiv(a, b) <==> b * d >= a
  {
    var q := CeilDiv(a, b);
    Euclid(a + b - 1, b);
    if d >= q {
      StepsApart(b, q, d);
    } else {
      StepsApart(b, d, q - 1);
      StepsApart(b, q - 1, q);
    }
  }

  lemma StepsApart(b: pos, q: int, d: int)
    requires q <= d
    ensures b * q <= b * d && (d == q + 1 ==> b * d == b * q + b)
  {
    assert b * d == b * q + b * (d - q);
  }

  lemma Euclid(x: int, b: pos)
    ensures b * (x / b) <= x < b * (x / b) + b
  {
  }

  lemma CapacityIsEnough(p: Policy)
    ensures p.Capacity() >= TOKEN
  {
    assert p.burst * TOKEN >= 1 * TOKEN;
  }

  // -------------------------------------------- invariants under any clock

  /** When a bucket was created and how many calls it has admitted since. */
  datatype Life = Life(created: int, admitted: int)

  /** The lives after one more call on state `s`; eviction ends a life. */
  function LivesAfter(p: Policy, s: State, lives: map<string, Life>, key: string, at: int): map<string, Life> {
    var kept := Clean(s, at).clients;
    var life := if key in lives && key in kept then lives[key] else Life(at, 0);
    var d := Allow(p, s, key, at).1;
    (map k | k in lives && k in kept :: lives[k])[key := if d.Allowed? then life.(admitted := life.admitted + 1) else life]
  }

  function Lives(p: Policy, calls: seq<Call>): map<string, Life> {
    if calls == [] then map[]
    else
      var before, c := calls[..|calls| - 1], calls[|calls| - 1];
      LivesAfter(p, Run(p, before), Lives(p, before), c.key, c.at)
  }

  ghost predicate Sound(p: Policy, b: Bucket, l: Life) {
    && 0 <= b.tokens <= p.Capacity()
    && l.created <= b.updated && 0 <= l.admitted
    && b.tokens + l.admitted * TOKEN <= p.Capacity() + p.Earned(b.updated - l.created)
  }

  lemma ServeSound(p: Policy, known: Option<Bucket>, l: Life, now: int)
    requires known.Some? ==> Sound(p, known.value, l)
    requires known.None? ==> l == Life(now, 0)
    ensures var (b, d) := Serve(p, known, now);
      && Sound(p, b, if d.Allowed? then l.(admitted := l.admitted + 1) else l)
      && (known.Some? ==> known.value.updated <= b.updated)
  {
    CapacityIsEnough(p);
    EarnedAdds(p, 0, 0);
    if known.Some? {
      var b := known.value;
      EarnedAdds(p, b.updated - l.created, now - b.updated);
      EarnedMonotone(p, 0, now - b.updated);
    }
  }

  ghost predicate AllSound(p: Policy, s: State, lives: map<string, Life>) {
    && s.clients.Keys == lives.Keys
    && forall k :: k in s.clients ==> Sound(p, s.clients[k], lives[k])
  }

  lemma CallSound(p: Policy, s: State, lives: map<string, Life>, key: string, at: int)
    requires AllSound(p, s, lives)
    ensures AllSound(p, Allow(p, s, key, at).0, LivesAfter(p, s, lives, key, at))
  {
    var known := Known(Clean(s, at), key);
    ServeSound(p, known, if known.Some? then lives[key] else Life(at, 0), at);
  }

  /**
   * For any sequence of clock readings, in or out of order: every bucket holds between zero and
   * `burst` tokens, and during its life it has admitted at most `burst` calls plus what its
   * refill time earned.
   */
  lemma {:induction false} LimiterInvariant(p: Policy, calls: seq<Call>)
    ensures AllSound(p, Run(p, calls), Lives(p, calls))
  {
    if calls != [] {
      var before, c := calls[..|calls| - 1], calls[|calls| - 1];
      LimiterInvariant(p, before);
      CallSound(p, Run(p, before), Lives(p, before), c.key, c.at);
    }
  }

  lemma AdmissionsPerLife(p: Policy, calls: seq<Call>, key: string)
    requires key in Run(p, calls).clients
    ensures key in Lives(p, calls)
    ensures var b, l := Run(p, calls).clients[key], Lives(p, calls)[key];
      0 <= b.tokens <= p.Capacity() && l.admitted * TOKEN <= p.Capacity() + p.Earned(b.updated - l.created)
  {
    LimiterInvariant(p, calls);
    assert Sound(p, Run(p, calls).clients[key], Lives(p, calls)[key]);
  }

  /** A bucket that survives a call is never moved back in time, whatever the clock did. */
  lemma UpdatedNeverDecreases(p: Policy, calls: seq<Call>, i: nat, key: string)
    requires i < |calls|
    requires key in Clean(Run(p, calls[..i]), calls[i].at).clients
    ensures key in Run(p, calls[..i + 1]).clients
    ensures Run(p, calls[..i]).clients[key].updated <= Run(p, calls[..i + 1]).clients[key].updated
  {
    RunStep(p, calls, i);
  }

  // -------------------------------------------------- clocks that go forward

  /** Facts about a state all of whose calls were served at or before `now`, in order. */
  predicate Tidy(s: State, now: int) {
    && (s.clients != map[] ==> s.lastCleanup.Some?)
    && (s.lastCleanup.Some? ==> s.lastCleanup.value <= now)
    && (forall k :: k in s.clients ==>
          s.clients[k].updated == s.clients[k].lastSeen <= now
          && s.lastCleanup.value - CLIENT_TTL < s.clients[k].lastSeen)
  }

  lemma {:induction false} InOrderTidy(p: Policy, calls: seq<Call>, now: int)
    requires InOrder(calls) && (calls != [] ==> calls[|calls| - 1].at <= now)
    ensures Tidy(Run(p, calls), now)
  {
    if calls != [] {
      var before, c := calls[..|calls| - 1], calls[|calls| - 1];
      InOrderTidy(p, before, c.at);
    }
  }

  /** After a call, every entry left in the map was seen within the last fifteen minutes. */
  lemma EntriesAreRecent(p: Policy, calls: seq<Call>, key: string)
    requires InOrder(calls) && calls != [] && key in Run(p, calls).clients
    ensures calls[|calls| - 1].at - 15 * MINUTE < Run(p, calls).clients[key].lastSeen <= calls[|calls| - 1].at
  {
    var before, c := calls[..|calls| - 1], calls[|calls| - 1];
    InOrderTidy(p, before, c.at);
    InOrderTidy(p, calls, c.at);
  }

  // ---------------------------------------------------- the exact window law

  /** One client's bucket that is never evicted, after calls at the given times. */
  function Solo(p: Policy, ts: seq<int>): Option<Bucket> {
    if ts == [] then None
    else Some(Serve(p, Solo(p, ts[..|ts| - 1]), ts[|ts| - 1]).0)
  }

  function SoloReply(p: Policy, ts: seq<int>, n: nat): Decision
    requires n < |ts|
  {
    Serve(p, Solo(p, ts[..n]), ts[n]).1
  }

  predicate Sorted(ts: seq<int>) { forall i, j :: 0 <= i < j < |ts| ==> ts[i] <= ts[j] }

  /** The number of calls among `i..n-1` that were allowed. */
  function AllowedIn(p: Policy, ts: seq<int>, i: nat, n: nat): (c: nat)
    requires i <= n <= |ts|
    ensures c <= n - i
    decreases n
  {
    if i == n then 0
    else AllowedIn(p, ts, i, n - 1) + if SoloReply(p, ts, n - 1).Allowed? then 1 else 0
  }

  /** Call `i`, taken as the start of a window, leaves room for one more call at `n`. */
  predicate RoomSince(p: Policy, ts: seq<int>, i: nat, n: nat)
    requires i <= n < |ts|
  {
    (AllowedIn(p, ts, i, n) + 1) * TOKEN <= p.Capacity() + p.Earned(ts[n] - ts[i])
  }

  /** The tokens that call `n` finds after the refill. */
  function Level(p: Policy, ts: seq<int>, n: nat): int
    requires n < |ts|
  {
    var known := Solo(p, ts[..n]);
    Refill(p, if known.Some? then known.value else Fresh(p, ts[n]), ts[n]).tokens
  }

  function Ceiling(p: Policy, ts: seq<int>, i: nat, n: nat): int
    requires i <= n < |ts|
  {
    p.Capacity() + p.Earned(ts[n] - ts[i]) - AllowedIn(p, ts, i, n) * TOKEN
  }

  lemma SoloStep(p: Policy, ts: seq<int>, n: nat)
    requires n < |ts|
    ensures Solo(p, ts[..n + 1]) == Some(Serve(p, Solo(p, ts[..n]), ts[n]).0)
  {
    assert ts[..n + 1][..n] == ts[..n];
  }

  lemma {:induction false} SoloUpdated(p: Policy, ts: seq<int>, n: nat)
    requires Sorted(ts) && 0 < n <= |ts|
    ensures Solo(p, ts[..n]).Some? && Solo(p, ts[..n]).value.updated == ts[n - 1]
  {
    SoloStep(p, ts, n - 1);
    if n > 1 {
      SoloUpdated(p, ts, n - 1);
    }
  }

  lemma LevelStep(p: Policy, ts: seq<int>, n: nat)
    requires Sorted(ts) && 0 < n < |ts|
    ensures Level(p, ts, n) == Min(p.Capacity(),
              Level(p, ts, n - 1) + p.Earned(ts[n] - ts[n - 1]) - if SoloReply(p, ts, n - 1).Allowed? then TOKEN else 0)
  {
    SoloStep(p, ts, n - 1);
    SoloUpdated(p, ts, n);
    EarnedAdds(p, 0, 0);
    LevelAtMost(p, ts, n - 1);
  }

  lemma {:induction false} LevelAtMost(p: Policy, ts: seq<int>, n: nat)
    requires Sorted(ts) && n < |ts|
    ensures Level(p, ts, n) <= p.Capacity()
  {
    if n > 0 {
      SoloStep(p, ts, n - 1);
      LevelAtMost(p, ts, n - 1);
    }
  }

  /** The level is the smallest of the ceilings that the earlier calls set. */
  lemma {:induction false} LevelIsLeastCeiling(p: Policy, ts: seq<int>, n: nat) returns (tight: nat)
    requires Sorted(ts) && n < |ts|
    ensures forall i: nat :: i <= n ==> Level(p, ts, n) <= Ceiling(p, ts, i, n)
    ensures tight <= n && Level(p, ts, n) == Ceiling(p, ts, tight, n)
  {
    EarnedAdds(p, 0, 0);
    tight := n;
    if n > 0 {
      var before := LevelIsLeastCeiling(p, ts, n - 1);
      LevelStep(p, ts, n);
      forall i: nat | i < n
        ensures Ceiling(p, ts, i, n) == Ceiling(p, ts, i, n - 1) + p.Earned(ts[n] - ts[n - 1])
                                        - if SoloReply(p, ts, n - 1).Allowed? then TOKEN else 0
      {
        EarnedAdds(p, ts[n - 1] - ts[i], ts[n] - ts[n - 1]);
      }
      if Level(p, ts, n) < p.Capacity() {
        tight := before;
      }
    }
  }

  /**
   * For one client whose calls come in order, call `n` is allowed if and only if every window
   * that ends with it, itself included, has at most `burst + rate * length` allowed calls.
   */
  lemma WindowLaw(p: Policy, ts: seq<int>, n: nat)
    requires Sorted(ts) && n < |ts|
    ensures SoloReply(p, ts, n).Allowed? <==> forall i: nat :: i <= n ==> RoomSince(p, ts, i, n)
  {
    var tight := LevelIsLeastCeiling(p, ts, n);
    forall i: nat | i <= n ensures RoomSince(p, ts, i, n) <==> Ceiling(p, ts, i, n) >= TOKEN {
    }
    assert SoloReply(p, ts, n).Allowed? <==> Level(p, ts, n) >= TOKEN;
  }

  /** Hence no window of calls `i..n-1` admits more than `burst` plus what its length earns. */
  lemma {:induction false} WindowBound(p: Policy, ts: seq<int>, i: nat, n: nat)
    requires Sorted(ts) && i < n <= |ts|
    ensures AllowedIn(p, ts, i, n) * TOKEN <= p.Capacity() + p.Earned(ts[n - 1] - ts[i])
    decreases n
  {
    if SoloReply(p, ts, n - 1).Allowed? {
      WindowLaw(p, ts, n - 1);
      assert RoomSince(p, ts, i, n - 1);
    } else if i < n - 1 {
      WindowBound(p, ts, i, n - 1);
      EarnedMonotone(p, ts[n - 2] - ts[i], ts[n - 1] - ts[i]);
    } else {
      CapacityIsEnough(p);
      EarnedAdds(p, 0, 0);
    }
  }

  // ------------------------------------------------------------- retry delay

  lemma RetryIsBounded(p: Policy, tokens: int)
    requires 0 <= tokens < TOKEN
    ensures SECOND <= RetryAfter(p, tokens) <= MINUTE
  {
    CeilDivLeast(TOKEN - tokens, p.perMinute, MINUTE);
    assert p.perMinute * MINUTE >= 1 * MINUTE;
  }

  /** The header is the delay rounded up to whole seconds. */
  lemma HeaderCoversDelay(retry: int)
    requires retry >= 0
    ensures retry <= HeaderSeconds(retry) * SECOND < retry + SECOND
  {
  }

  /** `key` has been turned away since `t`, where its bucket held `tokens`. */
  predicate Waiting(p: Policy, s: State, key: string, t: int, tokens: int, now: int) {
    if key in s.clients then
      var b := s.clients[key];
      t <= b.updated == b.lastSeen <= now && b.tokens == tokens + p.Earned(b.updated - t) && b.tokens < TOKEN
    else t + CLIENT_TTL <= now
  }

  lemma WaitingCall(p: Policy, s: State, key: string, t: int, tokens: int, now: int, at: int)
    requires Waiting(p, s, key, t, tokens, now) && now <= at && 0 <= tokens < TOKEN
    ensures var d := Allow(p, s, key, at).1;
      d.Allowed? <==> (t + CLIENT_TTL <= at && key !in Clean(s, at).clients) || tokens + p.Earned(at - t) >= TOKEN
    ensures Allow(p, s, key, at).1.Rejected? ==> Waiting(p, Allow(p, s, key, at).0, key, t, tokens, at)
  {
    CapacityIsEnough(p);
    if key in s.clients {
      var b := s.clients[key];
      EarnedAdds(p, b.updated - t, at - b.updated);
    }
  }

  lemma WaitingOther(p: Policy, s: State, key: string, t: int, tokens: int, now: int, other: string, at: int)
    requires Waiting(p, s, key, t, tokens, now) && now <= at && other != key
    ensures Waiting(p, Allow(p, s, other, at).0, key, t, tokens, at)
  {
  }

  /** What call `i` finds in its bucket. */
  function Found(p: Policy, calls: seq<Call>, i: nat): Bucket
    requires i < |calls|
  {
    var known := Known(Clean(Run(p, calls[..i]), calls[i].at), calls[i].key);
    Refill(p, if known.Some? then known.value else Fresh(p, calls[i].at), calls[i].at)
  }

  predicate NoneAllowedBetween(p: Policy, calls: seq<Call>, i: nat, j: nat)
    requires i < j <= |calls|
  {
    forall m: nat :: i < m < j && calls[m].key == calls[i].key ==> Reply(p, calls, m).Rejected?
  }

  lemma StartsWaiting(p: Policy, s: State, key: string, t: int)
    requires Tidy(s, t) && Allow(p, s, key, t).1.Rejected?
    ensures var known := Known(Clean(s, t), key);
      var b := Refill(p, if known.Some? then known.value else Fresh(p, t), t);
      b.tokens < TOKEN && Allow(p, s, key, t).1 == Rejected(RetryAfter(p, b.tokens))
      && Waiting(p, Allow(p, s, key, t).0, key, t, b.tokens, t)
  {
    EarnedAdds(p, 0, 0);
  }

  lemma FirstWait(p: Policy, calls: seq<Call>, i: nat)
    requires InOrder(calls) && i < |calls| && Reply(p, calls, i).Rejected?
    ensures var b := Found(p, calls, i);
      0 <= b.tokens < TOKEN && Reply(p, calls, i) == Rejected(RetryAfter(p, b.tokens))
      && Waiting(p, Run(p, calls[..i + 1]), calls[i].key, calls[i].at, b.tokens, calls[i].at)
  {
    InOrderTidy(p, calls[..i], calls[i].at);
    StartsWaiting(p, Run(p, calls[..i]), calls[i].key, calls[i].at);
    FoundNonNegative(p, calls, i);
    RunStep(p, calls, i);
  }

  /** The same, call by call: each of the client's calls after `i` was turned away. */
  predicate TurnedAway(p: Policy, calls: seq<Call>, i: nat, j: nat)
    requires i < j <= |calls|
  {
    j > i + 1 ==>
      && TurnedAway(p, calls, i, j - 1) && calls[j - 2].at <= calls[j - 1].at
      && (calls[j - 1].key == calls[i].key ==> Reply(p, calls, j - 1).Rejected?)
  }

  lemma {:induction false} CallByCall(p: Policy, calls: seq<Call>, i: nat, j: nat)
    requires InOrder(calls) && i < j <= |calls| && NoneAllowedBetween(p, calls, i, j)
    ensures TurnedAway(p, calls, i, j)
  {
    if j > i + 1 {
      CallByCall(p, calls, i, j - 1);
    }
  }

  lemma {:induction false} KeepsWaiting(p: Policy, calls: seq<Call>, i: nat, j: nat, tokens: int)
    requires i < j < |calls| && TurnedAway(p, calls, i, j) && 0 <= tokens < TOKEN
    requires Waiting(p, Run(p, calls[..i + 1]), calls[i].key, calls[i].at, tokens, calls[i].at)
    ensures Waiting(p, Run(p, calls[..j]), calls[i].key, calls[i].at, tokens, calls[j - 1].at)
    decreases j
  {
    if j > i + 1 {
      KeepsWaiting(p, calls, i, j - 1, tokens);
      WaitsOn(p, calls, calls[i].key, calls[i].at, j - 1, tokens);
    }
  }

  lemma {:induction false} WaitsOn(p: Policy, calls: seq<Call>, key: string, t: int, k: nat, tokens: int)
    requires 0 < k < |calls| && calls[k - 1].at <= calls[k].at && 0 <= tokens < TOKEN
    requires calls[k].key == key ==> Reply(p, calls, k).Rejected?
    requires Waiting(p, Run(p, calls[..k]), key, t, tokens, calls[k - 1].at)
    ensures Waiting(p, Run(p, calls[..k + 1]), key, t, tokens, calls[k].at)
  {
    RunStep(p, calls, k);
    WaitingStep(p, Run(p, calls[..k]), key, t, tokens, calls[k - 1].at, calls[k]);
  }

  lemma {:induction false} WaitingStep(p: Policy, s: State, key: string, t: int, tokens: int, now: int, c: Call)
    requires Waiting(p, s, key, t, tokens, now) && now <= c.at && 0 <= tokens < TOKEN
    requires c.key == key ==> Allow(p, s, key, c.at).1.Rejected?
    ensures Waiting(p, Allow(p, s, c.key, c.at).0, key, t, tokens, c.at)
  {
    if c.key == key {
      WaitingCall(p, s, key, t, tokens, now, c.at);
    } else {
      WaitingOther(p, s, key, t, tokens, now, c.key, c.at);
    }
  }

  lemma FoundNonNegative(p: Policy, calls: seq<Call>, i: nat)
    requires i < |calls|
    ensures Found(p, calls, i).tokens >= 0
  {
    LimiterInvariant(p, calls[..i]);
    CapacityIsEnough(p);
    var s := Run(p, calls[..i]);
    assert forall k :: k in s.clients ==> Sound(p, s.clients[k], Lives(p, calls[..i])[k]);
    var known := Known(Clean(Run(p, calls[..i]), calls[i].at), calls[i].key);
    if known.Some? {
      EarnedMonotone(p, 0, calls[i].at - known.value.updated);
      EarnedAdds(p, 0, 0);
    }
  }

  /**
   * A rejected call is told to wait between one and sixty seconds. The client's next call, with
   * no allowed call in between, is allowed if it comes after the delay; and when the delay is
   * more than the one-second minimum, it is allowed only then. Other clients' calls and the
   * cleanup may come in between.
   */
  lemma RetryDelayIsExact(p: Policy, calls: seq<Call>, i: nat, j: nat)
    requires InOrder(calls) && i < j < |calls| && calls[j].key == calls[i].key
    requires Reply(p, calls, i).Rejected? && NoneAllowedBetween(p, calls, i, j)
    ensures var retry := Reply(p, calls, i).retry;
      && SECOND <= retry <= MINUTE
      && (calls[j].at >= calls[i].at + retry ==> Reply(p, calls, j).Allowed?)
      && (retry > SECOND && calls[j].at < calls[i].at + retry ==> Reply(p, calls, j).Rejected?)
  {
    var tokens, t, at := Found(p, calls, i).tokens, calls[i].at, calls[j].at;
    FirstWait(p, calls, i);
    CallByCall(p, calls, i, j);
    KeepsWaiting(p, calls, i, j, tokens);
    RetryIsBounded(p, tokens);
    CeilDivLeast(TOKEN - tokens, p.perMinute, at - t);
    WaitingCall(p, Run(p, calls[..j]), calls[i].key, t, tokens, calls[j - 1].at, at);
  }
}
