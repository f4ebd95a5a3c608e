/**
 * The limiter when clock readings reach the mutex out of order. A late reading counts as the latest
 * one so far, so the window law holds for clocks in any order, cleanup and other clients included.
 */
module AnyOrder {
  import opened Wrappers
  import opened RateLimiter
  import opened RateLimits

  // ------------------------------------------------------------- one late reading

  /**
   * A reading that is older than the client's bucket changes no token by itself: the call gets the
   * answer, and leaves the tokens, of a call at the time to which the bucket was last brought.
   */
  lemma LateReading(p: Policy, s: State, key: string, now: int)
    requires key in Clean(s, now).clients && now <= s.clients[key].updated
    ensures var b := s.clients[key]; var tokens := Allow(p, s, key, now).0.clients[key].tokens;
      && Allow(p, s, key, now).1 == Serve(p, Some(b), b.updated).1
      && Allow(p, s, key, now).0.clients[key] == Bucket(tokens, b.updated, now)
      && (Allow(p, s, key, now).1.Allowed? <==> b.tokens >= TOKEN)
      && tokens == b.tokens - if b.tokens >= TOKEN then TOKEN else 0
  {
  }

  /**
   * Who is left after a call at `now`: the caller, and each known client unless five minutes have passed
   * since the last cleanup, or none was ever made, and it was not seen for ten minutes. It is left as it was.
   */
  lemma LeftAfterCall(p: Policy, s: State, caller: string, now: int, key: string)
    requires key != caller
    ensures var after := Allow(p, s, caller, now).0;
      var due := s.lastCleanup.None? || now >= s.lastCleanup.value + 300_000_000_000;
      && caller in after.clients
      && (key in after.clients <==> key in s.clients && (due ==> now < s.clients[key].lastSeen + 600_000_000_000))
      && (key in after.clients ==> after.clients[key] == s.clients[key])
      && after.lastCleanup == if due then Some(now) else s.lastCleanup
  {
    assert CleanupDue(s, now) <==> s.lastCleanup.None? || now >= s.lastCleanup.value + 300_000_000_000;
  }

  // --------------------------------------------------------- enough is never refused

  /** What a bucket holds at least: its burst without the calls that it has admitted. */
  ghost predicate Generous(p: Policy, s: State, lives: map<string, Life>) {
    forall k :: k in s.clients ==> k in lives && s.clients[k].tokens + lives[k].admitted * TOKEN >= p.Capacity()
  }

  lemma {:induction false} ServeGenerous(p: Policy, known: Option<Bucket>, l: Life, now: int)
    requires known.Some? ==> known.value.tokens + l.admitted * TOKEN >= p.Capacity()
    requires known.None? ==> l == Life(now, 0)
    requires 0 <= l.admitted
    ensures var (b, d) := Serve(p, known, now);
      b.tokens + (if d.Allowed? then l.admitted + 1 else l.admitted) * TOKEN >= p.Capacity()
  {
    if known.Some? {
      EarnedMonotone(p, 0, now - known.value.updated);
      EarnedAdds(p, 0, 0);
    }
  }

  lemma {:induction false} CallGenerous(p: Policy, s: State, lives: map<string, Life>, key: string, at: int)
    requires Generous(p, s, lives) && AllSound(p, s, lives)
    ensures Generous(p, Allow(p, s, key, at).0, LivesAfter(p, s, lives, key, at))
  {
    var known := Known(Clean(s, at), key);
    if known.Some? {
      assert Sound(p, s.clients[key], lives[key]);
    }
    ServeGenerous(p, known, if known.Some? then lives[key] else Life(at, 0), at);
  }

  lemma {:induction false} RunGenerous(p: Policy, calls: seq<Call>)
    ensures Generous(p, Run(p, calls), Lives(p, calls))
  {
    if calls != [] {
      var before, c := calls[..|calls| - 1], calls[|calls| - 1];
      RunGenerous(p, before);
      LimiterInvariant(p, before);
      CallGenerous(p, Run(p, before), Lives(p, before), c.key, c.at);
    }
  }

  /**
   * For clock readings in any order: a client that is new, or whose bucket has admitted fewer calls than
   * the burst since it was made, is allowed.
   */
  lemma AllowedWithinBurst(p: Policy, calls: seq<Call>, i: nat)
    requires i < |calls|
    requires var s, c := Run(p, calls[..i]), calls[i];
      c.key in Clean(s, c.at).clients ==> c.key in Lives(p, calls[..i]) && Lives(p, calls[..i])[c.key].admitted < p.burst
    ensures Reply(p, calls, i).Allowed?
  {
    var s, c := Run(p, calls[..i]), calls[i];
    CapacityIsEnough(p);
    if c.key in Clean(s, c.at).clients {
      RunGenerous(p, calls[..i]);
      var b, admitted := s.clients[c.key], Lives(p, calls[..i])[c.key].admitted;
      assert (p.burst - admitted) * TOKEN >= TOKEN;
      assert b.tokens >= TOKEN;
      EarnedMonotone(p, 0, c.at - b.updated);
      EarnedAdds(p, 0, 0);
    }
  }

  // ------------------------------------------------------------- the latest reading

  /** The latest reading up to each call. */
  function Latest(ts: seq<int>): (r: seq<int>)
    ensures |r| == |ts|
  {
    if ts == [] then []
    else
      var r, t := Latest(ts[..|ts| - 1]), ts[|ts| - 1];
      r + [if r == [] then t else Max(r[|r| - 1], t)]
  }

  lemma {:induction false} LatestPrefix(ts: seq<int>, n: nat)
    requires n <= |ts|
    ensures Latest(ts[..n]) == Latest(ts)[..n]
  {
    if n < |ts| {
      LatestPrefix(ts[..|ts| - 1], n);
      assert ts[..|ts| - 1][..n] == ts[..n];
    } else {
      assert ts[..n] == ts && Latest(ts)[..n] == Latest(ts);
    }
  }

  lemma {:induction false} LatestAt(ts: seq<int>, i: nat)
    requires i < |ts|
    ensures Latest(ts)[i] == if i == 0 then ts[0] else Max(Latest(ts)[i - 1], ts[i])
  {
    LatestPrefix(ts, i);
    LatestPrefix(ts, i + 1);
    assert ts[..i + 1][..i] == ts[..i];
  }

  lemma {:induction false} LatestSorted(ts: seq<int>, i: nat, j: nat)
    requires i <= j < |ts|
    ensures Latest(ts)[i] <= Latest(ts)[j]
    decreases j
  {
    if i < j {
      LatestSorted(ts, i, j - 1);
      LatestAt(ts, j);
    }
  }

  /** It is the greatest of the readings up to call `i`. */
  lemma {:induction false} LatestMeaning(ts: seq<int>, i: nat) returns (k: nat)
    requires i < |ts|
    ensures k <= i && ts[k] == Latest(ts)[i]
    ensures forall j: nat :: j <= i ==> ts[j] <= Latest(ts)[i]
  {
    LatestAt(ts, i);
    k := i;
    if i > 0 {
      var before := LatestMeaning(ts, i - 1);
      if ts[i] < Latest(ts)[i] {
        k := before;
      }
    }
  }

  /** The same tokens, brought to the same time. */
  predicate SameFunds(a: Option<Bucket>, b: Option<Bucket>) {
    a.Some? == b.Some? && (a.Some? ==> a.value.tokens == b.value.tokens && a.value.updated == b.value.updated)
  }

  lemma SameFundsStep(p: Policy, a: Option<Bucket>, b: Option<Bucket>, t: int)
    requires SameFunds(a, b)
    ensures var u := if b.Some? then Max(b.value.updated, t) else t;
      && SameFunds(Some(Serve(p, a, t).0), Some(Serve(p, b, u).0))
      && Serve(p, a, t).1 == Serve(p, b, u).1 && Serve(p, b, u).0.updated == u
  {
  }

  /** A private bucket does the same on readings in any order and on the latest readings. */
  lemma {:induction false} SoloOfLatest(p: Policy, ts: seq<int>)
    ensures SameFunds(Solo(p, ts), Solo(p, Latest(ts)))
    ensures ts != [] ==> Solo(p, Latest(ts)).value.updated == Latest(ts)[|ts| - 1]
  {
    if ts != [] {
      var init, t := ts[..|ts| - 1], ts[|ts| - 1];
      SoloOfLatest(p, init);
      assert Latest(ts)[..|ts| - 1] == Latest(init);
      SameFundsStep(p, Solo(p, init), Solo(p, Latest(init)), t);
    }
  }

  lemma {:induction false} ReplyOfLatest(p: Policy, ts: seq<int>, n: nat)
    requires n < |ts|
    ensures SoloReply(p, ts, n) == SoloReply(p, Latest(ts), n)
  {
    SoloOfLatest(p, ts[..n]);
    LatestPrefix(ts, n);
    LatestAt(ts, n);
    var shared, latest := Solo(p, ts[..n]), Solo(p, Latest(ts)[..n]);
    assert latest.Some? ==> latest.value.updated == Latest(ts)[n - 1];
    SameFundsStep(p, shared, latest, ts[n]);
  }

  lemma {:induction false} AllowedOfLatest(p: Policy, ts: seq<int>, i: nat, n: nat)
    requires i <= n <= |ts|
    ensures AllowedIn(p, ts, i, n) == AllowedIn(p, Latest(ts), i, n)
    decreases n
  {
    if i < n {
      AllowedOfLatest(p, ts, i, n - 1);
      ReplyOfLatest(p, ts, n - 1);
    }
  }

  // ------------------------------------------------------------- the shared limiter

  /** The times of the client's calls since its bucket was made. */
  function LifeTimes(p: Policy, calls: seq<Call>, key: string): seq<int> {
    if calls == [] then []
    else
      var before, c := calls[..|calls| - 1], calls[|calls| - 1];
      var kept := if key in Clean(Run(p, before), c.at).clients then LifeTimes(p, before, key) else [];
      if c.key == key then kept + [c.at] else kept
  }

  lemma {:induction false} BucketOfLife(p: Policy, calls: seq<Call>, key: string)
    ensures Known(Run(p, calls), key) == Solo(p, LifeTimes(p, calls, key))
  {
    if calls != [] {
      var before, c := calls[..|calls| - 1], calls[|calls| - 1];
      BucketOfLife(p, before, key);
      BucketOfLifeStep(p, before, c, key);
    }
  }

  lemma {:induction false} BucketOfLifeStep(p: Policy, before: seq<Call>, c: Call, key: string)
    requires Known(Run(p, before), key) == Solo(p, LifeTimes(p, before, key))
    ensures var kept := if key in Clean(Run(p, before), c.at).clients then LifeTimes(p, before, key) else [];
      && Known(Clean(Run(p, before), c.at), key) == Solo(p, kept)
      && Known(Allow(p, Run(p, before), c.key, c.at).0, key) == Solo(p, if c.key == key then kept + [c.at] else kept)
  {
    var kept := if key in Clean(Run(p, before), c.at).clients then LifeTimes(p, before, key) else [];
    assert (kept + [c.at])[..|kept|] == kept;
  }

  /** The answer is that of a private bucket to the calls of this life. */
  lemma {:induction false} ReplyOfLife(p: Policy, calls: seq<Call>, i: nat)
    requires i < |calls|
    ensures var ts := LifeTimes(p, calls[..i + 1], calls[i].key);
      ts != [] && Reply(p, calls, i) == SoloReply(p, ts, |ts| - 1)
  {
    var before, c := calls[..i], calls[i];
    assert calls[..i + 1][..i] == before;
    var kept := if c.key in Clean(Run(p, before), c.at).clients then LifeTimes(p, before, c.key) else [];
    var ts := kept + [c.at];
    BucketOfLife(p, before, c.key);
    BucketOfLifeStep(p, before, c, c.key);
    assert LifeTimes(p, calls[..i + 1], c.key) == ts && ts[..|ts| - 1] == kept;
  }

  /** Room for one more call since call `j`, told by the answers given and the latest readings. */
  predicate RoomSinceLatest(p: Policy, ts: seq<int>, j: nat, n: nat)
    requires j <= n < |ts|
  {
    (AllowedIn(p, ts, j, n) + 1) * TOKEN <= p.Capacity() + p.Earned(Latest(ts)[n] - Latest(ts)[j])
  }

  lemma {:induction false} SoloLawOfLatest(p: Policy, ts: seq<int>, n: nat)
    requires n < |ts|
    ensures SoloReply(p, ts, n).Allowed? <==> forall j: nat :: j <= n ==> RoomSinceLatest(p, ts, j, n)
  {
    ReplyOfLatest(p, ts, n);
    forall i, j | 0 <= i < j < |ts| ensures Latest(ts)[i] <= Latest(ts)[j] {
      LatestSorted(ts, i, j);
    }
    WindowLaw(p, Latest(ts), n);
    forall j: nat | j <= n ensures RoomSinceLatest(p, ts, j, n) <==> RoomSince(p, Latest(ts), j, n) {
      AllowedOfLatest(p, ts, j, n);
    }
  }

  /**
   * The window law for clocks in any order: a call is allowed if and only if every window of its
   * client's calls that ends with it, within the life of the bucket, has at most `burst` plus what the
   * latest readings have earned. Cleanup and other clients come in between.
   */
  lemma {:induction false} AnyOrderWindowLaw(p: Policy, calls: seq<Call>, i: nat)
    requires i < |calls|
    ensures var ts := LifeTimes(p, calls[..i + 1], calls[i].key); var n := |ts| - 1;
      ts != [] && (Reply(p, calls, i).Allowed? <==> forall j: nat :: j <= n ==> RoomSinceLatest(p, ts, j, n))
  {
    var ts := LifeTimes(p, calls[..i + 1], calls[i].key);
    ReplyOfLife(p, calls, i);
    SoloLawOfLatest(p, ts, |ts| - 1);
  }
}
