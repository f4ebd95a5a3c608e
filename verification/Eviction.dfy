/**
 * Evicting idle clients is invisible exactly when a full burst refills within the client TTL:
 * then the shared limiter answers each client as a private, never evicted bucket would.
 */
module Eviction {
  import opened Wrappers
  import opened RateLimiter
  import opened RateLimits

  /** The times of one client's calls. */
  function TimesOf(calls: seq<Call>, key: string): seq<int> {
    if calls == [] then []
    else
      var c := calls[|calls| - 1];
      TimesOf(calls[..|calls| - 1], key) + if c.key == key then [c.at] else []
  }

  /** The answer of a private bucket that sees only the calls of this client. */
  function OwnReply(p: Policy, calls: seq<Call>, i: nat): Decision
    requires i < |calls|
  {
    Serve(p, Solo(p, TimesOf(calls[..i], calls[i].key)), calls[i].at).1
  }

  /** The shared limiter agrees with private buckets on every run in order. */
  ghost predicate Invisible(p: Policy) {
    forall calls: seq<Call>, i: nat :: InOrder(calls) && i < |calls| ==> Reply(p, calls, i) == OwnReply(p, calls, i)
  }

  lemma TimesStep(calls: seq<Call>, i: nat, key: string)
    requires i < |calls|
    ensures TimesOf(calls[..i + 1], key) == TimesOf(calls[..i], key) + if calls[i].key == key then [calls[i].at] else []
  {
    assert calls[..i + 1][..i] == calls[..i];
  }

  lemma SoloAppend(p: Policy, ts: seq<int>, at: int)
    ensures Solo(p, ts + [at]) == Some(Serve(p, Solo(p, ts), at).0)
  {
    assert (ts + [at])[..|ts|] == ts;
  }

  // ----------------------------------------------------------- short refills

  /** An idle client's bucket is as good as new. */
  lemma IdleIsFull(p: Policy, b: Bucket, now: int)
    requires p.burst <= 10 * p.perMinute && b.tokens >= 0 && now - b.updated >= CLIENT_TTL
    ensures Serve(p, Some(b), now) == Serve(p, None, now)
  {
    EarnedMonotone(p, CLIENT_TTL, now - b.updated);
    FullWithinTtl(p);
  }

  lemma FullWithinTtl(p: Policy)
    ensures p.burst <= 10 * p.perMinute <==> p.Capacity() <= p.Earned(CLIENT_TTL)
  {
    assert p.Earned(CLIENT_TTL) == (10 * p.perMinute) * TOKEN;
  }

  /** The shared bucket is the private one, or the private one has been idle for the TTL. */
  predicate Agrees(s: State, own: Option<Bucket>, key: string, now: int) {
    && (own.Some? ==> own.value.tokens >= 0 && own.value.updated == own.value.lastSeen <= now)
    && (s.lastCleanup.Some? ==> s.lastCleanup.value <= now)
    && (if key in s.clients then own == Some(s.clients[key])
        else own.Some? ==> s.lastCleanup.Some? && own.value.updated + CLIENT_TTL <= s.lastCleanup.value)
  }

  lemma AgreesAfter(p: Policy, s: State, own: Option<Bucket>, key: string, now: int, caller: string, at: int)
    requires p.burst <= 10 * p.perMinute && Agrees(s, own, key, now) && now <= at
    ensures caller == key ==>
              && Allow(p, s, key, at).1 == Serve(p, own, at).1
              && Agrees(Allow(p, s, key, at).0, Some(Serve(p, own, at).0), key, at)
    ensures caller != key ==> Agrees(Allow(p, s, caller, at).0, own, key, at)
  {
    CapacityIsEnough(p);
    var c := Clean(s, at);
    if own.Some? {
      EarnedMonotone(p, 0, at - own.value.updated);
      EarnedAdds(p, 0, 0);
      if key !in c.clients {
        IdleIsFull(p, own.value, at);
      }
    }
  }

  lemma {:induction false} SharedAgrees(p: Policy, calls: seq<Call>, n: nat, key: string)
    requires p.burst <= 10 * p.perMinute && InOrder(calls) && 0 < n <= |calls|
    ensures Agrees(Run(p, calls[..n]), Solo(p, TimesOf(calls[..n], key)), key, calls[n - 1].at)
  {
    if n > 1 {
      SharedAgrees(p, calls, n - 1, key);
      AgreesOn(p, calls, n - 1, key, calls[n - 2].at);
    } else {
      AgreesOn(p, calls, 0, key, calls[0].at);
    }
  }

  lemma {:induction false} AgreesOn(p: Policy, calls: seq<Call>, k: nat, key: string, now: int)
    requires p.burst <= 10 * p.perMinute && k < |calls| && now <= calls[k].at
    requires Agrees(Run(p, calls[..k]), Solo(p, TimesOf(calls[..k], key)), key, now)
    ensures Agrees(Run(p, calls[..k + 1]), Solo(p, TimesOf(calls[..k + 1], key)), key, calls[k].at)
  {
    var own := TimesOf(calls[..k], key);
    RunStep(p, calls, k);
    TimesStep(calls, k, key);
    assert own + [] == own;
    AgreesStep(p, Run(p, calls[..k]), own, key, now, calls[k]);
  }

  lemma {:induction false} AgreesStep(p: Policy, s: State, own: seq<int>, key: string, now: int, c: Call)
    requires p.burst <= 10 * p.perMinute && now <= c.at && Agrees(s, Solo(p, own), key, now)
    ensures Agrees(Allow(p, s, c.key, c.at).0, Solo(p, if c.key == key then own + [c.at] else own), key, c.at)
  {
    AgreesAfter(p, s, Solo(p, own), key, now, c.key, c.at);
    SoloAppend(p, own, c.at);
  }

  lemma RepliesAgree(p: Policy, calls: seq<Call>, i: nat)
    requires p.burst <= 10 * p.perMinute && InOrder(calls) && i < |calls|
    ensures Reply(p, calls, i) == OwnReply(p, calls, i)
  {
    var c := calls[i];
    var s, own := Run(p, calls[..i]), Solo(p, TimesOf(calls[..i], c.key));
    if i > 0 {
      SharedAgrees(p, calls, i, c.key);
      AgreesAfter(p, s, own, c.key, calls[i - 1].at, c.key, c.at);
    } else {
      AgreesAfter(p, s, own, c.key, c.at, c.key, c.at);
    }
  }

  // ------------------------------------------------------------ long refills

  /** A full burst, a pause of exactly the TTL, and one call more than the pause earns. */
  function Drain(p: Policy): seq<Call> {
    seq(p.burst + 10 * p.perMinute + 1, i => Call("c", if i < p.burst then 0 else CLIENT_TTL))
  }

  function DrainState(p: Policy, i: nat): State
    requires i > 0
  {
    if i <= p.burst then State(map["c" := Bucket(p.Capacity() - i * TOKEN, 0, 0)], Some(0))
    else State(map["c" := Bucket(p.Capacity() - (i - p.burst) * TOKEN, CLIENT_TTL, CLIENT_TTL)], Some(CLIENT_TTL))
  }

  lemma DrainFirst(p: Policy)
    ensures Allow(p, State(map[], None), "c", 0) == (DrainState(p, 1), Allowed)
  {
    CapacityIsEnough(p);
  }

  lemma EnoughLeft(p: Policy, used: int)
    requires used < p.burst
    ensures p.Capacity() - used * TOKEN >= TOKEN
  {
    assert (p.burst - used) * TOKEN >= TOKEN;
  }

  lemma DrainNext(p: Policy, i: nat)
    requires 0 < i < p.burst + 10 * p.perMinute + 1 && p.burst > 10 * p.perMinute
    ensures Allow(p, DrainState(p, i), "c", if i < p.burst then 0 else CLIENT_TTL) == (DrainState(p, i + 1), Allowed)
  {
    EnoughLeft(p, if i < p.burst then i else i - p.burst);
    CapacityIsEnough(p);
    var s, at := DrainState(p, i), if i < p.burst then 0 else CLIENT_TTL;
    assert forall x: Bucket, y: Bucket :: map["c" := x]["c" := y] == map["c" := y];
    if i == p.burst {
      assert Evicted(s.clients, at) == map[];
    } else {
      assert Clean(s, at) == s;
    }
  }

  predicate DrainedTo(p: Policy, i: nat)
    requires i < |Drain(p)|
  {
    Reply(p, Drain(p), i).Allowed? && Run(p, Drain(p)[..i + 1]) == DrainState(p, i + 1)
  }

  lemma DrainCall(p: Policy, i: nat, s: State)
    requires i < |Drain(p)| && Run(p, Drain(p)[..i]) == s
    requires Allow(p, s, "c", Drain(p)[i].at) == (DrainState(p, i + 1), Allowed)
    ensures DrainedTo(p, i)
  {
    RunStep(p, Drain(p), i);
  }

  /** The eviction hands the client a second full burst, so the shared limiter admits every call. */
  lemma {:induction false} DrainIsAdmitted(p: Policy, i: nat)
    requires p.burst > 10 * p.perMinute && i < |Drain(p)|
    ensures DrainedTo(p, i)
  {
    if i > 0 {
      DrainIsAdmitted(p, i - 1);
      DrainNext(p, i);
      DrainCall(p, i, DrainState(p, i));
    } else {
      assert Drain(p)[..0] == [];
      DrainFirst(p);
      DrainCall(p, 0, State(map[], None));
    }
  }

  lemma {:induction false} TimesOfOne(calls: seq<Call>, key: string)
    requires forall c :: c in calls ==> c.key == key
    ensures |TimesOf(calls, key)| == |calls|
    ensures forall i :: 0 <= i < |calls| ==> TimesOf(calls, key)[i] == calls[i].at
  {
    if calls != [] {
      TimesOfOne(calls[..|calls| - 1], key);
    }
  }

  lemma OwnIsSolo(p: Policy, calls: seq<Call>, key: string, i: nat)
    requires forall c :: c in calls ==> c.key == key
    requires i < |calls|
    ensures |TimesOf(calls, key)| == |calls| && OwnReply(p, calls, i) == SoloReply(p, TimesOf(calls, key), i)
  {
    TimesOfOne(calls, key);
    TimesOfOne(calls[..i], key);
    assert TimesOf(calls[..i], key) == TimesOf(calls, key)[..i];
  }

  lemma {:induction false} AllAllowed(p: Policy, ts: seq<int>, n: nat)
    requires n <= |ts| && forall i: nat :: i < n ==> SoloReply(p, ts, i).Allowed?
    ensures AllowedIn(p, ts, 0, n) == n
  {
    if n > 0 {
      AllAllowed(p, ts, n - 1);
    }
  }

  lemma DrainWouldBeAllowed(p: Policy)
    requires p.burst > 10 * p.perMinute && Invisible(p)
    ensures var ts := TimesOf(Drain(p), "c"); AllowedIn(p, ts, 0, |ts|) == |ts|
  {
    var ts := TimesOf(Drain(p), "c");
    TimesOfOne(Drain(p), "c");
    assert InOrder(Drain(p));
    forall i: nat | i < |ts| ensures SoloReply(p, ts, i).Allowed? {
      DrainIsAdmitted(p, i);
      OwnIsSolo(p, Drain(p), "c", i);
    }
    AllAllowed(p, ts, |ts|);
  }

  lemma LongRefillIsVisible(p: Policy)
    requires p.burst > 10 * p.perMinute
    ensures !Invisible(p)
  {
    if Invisible(p) {
      var ts := TimesOf(Drain(p), "c");
      DrainWouldBeAllowed(p);
      TimesOfOne(Drain(p), "c");
      WindowBound(p, ts, 0, |ts|);
      TooMany(p);
      assert false;
    }
  }

  lemma TooMany(p: Policy)
    ensures (p.burst + 10 * p.perMinute + 1) * TOKEN > p.Capacity() + p.Earned(CLIENT_TTL)
  {
  }

  /** The configuration decides: ten times the rate must cover the burst. */
  lemma EvictionInvisibleIff(p: Policy)
    ensures Invisible(p) <==> p.burst <= 10 * p.perMinute
  {
    if p.burst <= 10 * p.perMinute {
      forall calls: seq<Call>, i: nat | InOrder(calls) && i < |calls|
        ensures Reply(p, calls, i) == OwnReply(p, calls, i)
      {
        RepliesAgree(p, calls, i);
      }
    } else {
      LongRefillIsVisible(p);
    }
  }

  /**
   * Without settings all three limiters hide their cleanup; with settings, exactly those do whose
   * configured burst is at most ten times the configured rate.
   */
  lemma ConfiguredEviction(perMinute: int, burst: int, defaults: Policy)
    requires defaults in {AUTH_DEFAULTS, METRICS_DEFAULTS, ACTION_DEFAULTS}
    ensures burst <= 0 ==> Invisible(ConfiguredPolicy(0, burst, defaults))
    ensures perMinute > 0 && burst > 0 ==>
              (Invisible(ConfiguredPolicy(perMinute, burst, defaults)) <==> burst <= 10 * perMinute)
  {
    EvictionInvisibleIff(ConfiguredPolicy(0, burst, defaults));
    EvictionInvisibleIff(ConfiguredPolicy(perMinute, burst, defaults));
  }

  lemma {:induction false} TimesSorted(calls: seq<Call>, key: string)
    requires InOrder(calls)
    ensures Sorted(TimesOf(calls, key))
    ensures forall t :: t in TimesOf(calls, key) ==> t <= calls[|calls| - 1].at
  {
    if calls != [] {
      TimesSorted(calls[..|calls| - 1], key);
      var earlier := TimesOf(calls[..|calls| - 1], key);
      forall i | 0 <= i < |earlier| ensures earlier[i] <= calls[|calls| - 1].at {
        assert earlier[i] in earlier;
      }
    }
  }

  /** The window law for the shared limiter, other clients and cleanup included. */
  lemma SharedWindowLaw(p: Policy, calls: seq<Call>, i: nat)
    requires p.burst <= 10 * p.perMinute && InOrder(calls) && i < |calls|
    ensures var ts := TimesOf(calls[..i + 1], calls[i].key); var n := |ts| - 1;
      ts != [] && (Reply(p, calls, i).Allowed? <==> forall j: nat :: j <= n ==> RoomSince(p, ts, j, n))
  {
    var ts := TimesOf(calls[..i + 1], calls[i].key);
    TimesStep(calls, i, calls[i].key);
    TimesSorted(calls[..i + 1], calls[i].key);
    RepliesAgree(p, calls, i);
    assert ts[..|ts| - 1] == TimesOf(calls[..i], calls[i].key);
    WindowLaw(p, ts, |ts| - 1);
  }

  /** A client's answer depends on nothing but its own calls. */
  lemma ClientsDoNotInterfere(p: Policy, calls: seq<Call>, i: nat, others: seq<Call>, j: nat)
    requires p.burst <= 10 * p.perMinute && InOrder(calls) && InOrder(others)
    requires i < |calls| && j < |others| && calls[i] == others[j]
    requires TimesOf(calls[..i], calls[i].key) == TimesOf(others[..j], calls[i].key)
    ensures Reply(p, calls, i) == Reply(p, others, j)
  {
    RepliesAgree(p, calls, i);
    RepliesAgree(p, others, j);
  }
}
