/**
 * When maintenance runs does not matter: a call can stop anywhere and be repeated, and an
 * earlier call changes nothing that a later one would not have done.
 */
module Schedule {
  import opened Wrappers
  import opened Sequences
  import opened Aggregates
  import opened Retention
  import opened Refinement

  lemma FromTwice(ss: seq<Sample>, c1: int, c2: int)
    requires c1 <= c2
    ensures From(From(ss, c1), c2) == From(ss, c2)
    ensures Below(From(ss, c1), c1) == []
  {
    FilterTwice(AtLeast(c1), AtLeast(c2), ss);
    FilterSame(Both(AtLeast(c1), AtLeast(c2)), AtLeast(c2), ss);
    FilterTwice(AtLeast(c1), Before(c1), ss);
    FilterNone(Both(AtLeast(c1), Before(c1)), ss);
  }

  lemma NothingToDownsample(t: Tables, c: int)
    requires From(t.raw, c) == t.raw && Below(t.raw, c) == []
    ensures DownsampleRaw(t, c) == t
  {
    assert GroupBy([], FIVE_MINUTES) == map[];
    AddNothing(t.five);
  }

  lemma NothingToRegroup(t: Tables, c: int)
    requires RowsFrom(t.five, c) == t.five
    ensures Downsample5m(t, c) == t
  {
    NoneBelow(t.five, c);
    RegroupNothing(ONE_HOUR);
    AddNothing(t.hour);
  }

  lemma AddNothing(m: map<Key, Row>)
    ensures m + map[] == m
  {
  }

  lemma AddAssociative(a: map<Key, Row>, b: map<Key, Row>, c: map<Key, Row>)
    ensures (a + b) + c == a + (b + c)
  {
  }

  lemma NoneBelow(m: map<Key, Row>, c: int)
    requires RowsFrom(m, c) == m
    ensures RowsBelow(m, c) == map[]
  {
    assert forall k :: k in m ==> k in RowsFrom(m, c);
  }

  lemma RowsFromTwice(m: map<Key, Row>, c1: int, c2: int)
    requires c1 <= c2
    ensures RowsFrom(RowsFrom(m, c1), c2) == RowsFrom(m, c2)
  {
  }

  lemma FirstStepDone(t: Tables, c: Cutoffs)
    ensures var t1 := DownsampleRaw(t, c.raw); DownsampleRaw(t1, c.raw) == t1
  {
    FromTwice(t.raw, c.raw, c.raw);
    NothingToDownsample(DownsampleRaw(t, c.raw), c.raw);
  }

  lemma SecondStepDone(t: Tables, c: Cutoffs)
    ensures var t2 := Downsample5m(DownsampleRaw(t, c.raw), c.five);
      DownsampleRaw(t2, c.raw) == t2 && Downsample5m(t2, c.five) == t2
  {
    var t1 := DownsampleRaw(t, c.raw);
    FromTwice(t.raw, c.raw, c.raw);
    RowsFromTwice(t1.five, c.five, c.five);
    NothingToDownsample(Downsample5m(t1, c.five), c.raw);
    NothingToRegroup(Downsample5m(t1, c.five), c.five);
  }

  lemma ThirdStepDone(t: Tables, c: Cutoffs)
    ensures var t3 := Maintained(t, c, 3);
      DownsampleRaw(t3, c.raw) == t3 && Downsample5m(t3, c.five) == t3 && Expire(t3, c.hour) == t3
  {
    var t1 := DownsampleRaw(t, c.raw);
    var t3 := Maintained(t, c, 3);
    FromTwice(t.raw, c.raw, c.raw);
    RowsFromTwice(t1.five, c.five, c.five);
    RowsFromTwice(Downsample5m(t1, c.five).hour, c.hour, c.hour);
    NothingToDownsample(t3, c.raw);
    NothingToRegroup(t3, c.five);
  }

  /**
   * From every state of the tables, repeating a maintenance call that stopped after any number
   * of committed transactions gives the uninterrupted result. With `commits >= 3` this is
   * idempotence.
   */
  lemma CrashThenRerun(t: Tables, c: Cutoffs, commits: nat)
    ensures Maintained(Maintained(t, c, commits), c, 3) == Maintained(t, c, 3)
  {
    if commits == 1 {
      FirstStepDone(t, c);
    } else if commits == 2 {
      SecondStepDone(t, c);
    } else if commits >= 3 {
      ThirdStepDone(t, c);
    }
  }

  // ------------------------------------------------------- earlier, then later

  /** All times are on or after the Unix epoch. */
  ghost predicate SinceEpoch(t: Tables) {
    && (forall x :: x in t.raw ==> 0 <= x.at)
    && (forall k :: k in t.five ==> 0 <= k.bucket)
  }

  /** A cutoff above zero parts negative times correctly, too: their buckets are at most zero. */
  lemma BucketBelowAny(t: int, c: int, size: pos)
    requires (t >= 0 || c > 0) && c % size == 0
    ensures SqlBucket(t, size) < c <==> t < c
    ensures t >= 0 ==> SqlBucket(t, size) >= 0
  {
    if t >= 0 {
      DivBounds(t, size);
      MulNonNegative(t / size, size);
      if c >= 0 {
        BucketBelow(t, c, size);
      }
    } else {
      DivBounds(-t, size);
      MulNonNegative((-t) / size, size);
      MulNegate((-t) / size, size);
    }
  }

  lemma RowsFiltered(ss: seq<Sample>, p: Sample -> bool, size: pos, k: Key, keep: bool)
    requires forall x :: x in ss && KeyOf(x, size) == k ==> p(x) == keep
    ensures Rows(Filter(p, ss), size, k) == if keep then Rows(ss, size, k) else []
  {
    var q := InGroup(k, size);
    FilterTwice(p, q, ss);
    if keep {
      FilterSame(Both(p, q), q, ss);
    } else {
      FilterNone(Both(p, q), ss);
    }
  }

  lemma BucketsSinceEpoch(ss: seq<Sample>, c: int, size: pos)
    requires 0 < c || forall x :: x in ss ==> 0 <= x.at
    requires c % size == 0
    ensures forall x :: x in ss ==> (SqlBucket(x.at, size) < c <==> x.at < c) && (0 <= x.at ==> 0 <= SqlBucket(x.at, size))
  {
    forall x | x in ss
      ensures SqlBucket(x.at, size) < c <==> x.at < c
      ensures 0 <= x.at ==> 0 <= SqlBucket(x.at, size)
    {
      BucketBelowAny(x.at, c, size);
    }
  }

  /** A cutoff on a bucket boundary keeps or drops each group as a whole. */
  lemma GroupBelow(ss: seq<Sample>, c: int, size: pos, k: Key)
    requires 0 < c || forall x :: x in ss ==> 0 <= x.at
    requires c % size == 0
    ensures Rows(Below(ss, c), size, k) == if k.bucket < c then Rows(ss, size, k) else []
    ensures Rows(From(ss, c), size, k) == if k.bucket < c then [] else Rows(ss, size, k)
  {
    BucketsSinceEpoch(ss, c, size);
    RowsFiltered(ss, Before(c), size, k, k.bucket < c);
    RowsFiltered(ss, AtLeast(c), size, k, c <= k.bucket);
  }

  lemma GroupKeyRange(ss: seq<Sample>, c: int, size: pos)
    requires forall x :: x in ss ==> 0 <= x.at && c <= x.at
    requires c % size == 0
    ensures forall k :: k in GroupBy(ss, size) ==> c <= k.bucket && 0 <= k.bucket
  {
    BucketsSinceEpoch(ss, c, size);
    forall k | k in GroupBy(ss, size) ensures c <= k.bucket && 0 <= k.bucket {
      var i :| 0 <= i < |ss| && KeyOf(ss[i], size) == k;
      assert ss[i] in ss;
    }
  }

  lemma {:induction false} GroupAbsorbs(ss: seq<Sample>, c1: int, c2: int, size: pos)
    requires 0 < c1 || forall x :: x in ss ==> 0 <= x.at
    requires c1 <= c2 && c1 % size == 0 && c2 % size == 0
    ensures GroupBy(Below(ss, c2), size)
         == GroupBy(Below(ss, c1), size) + GroupBy(Below(From(ss, c1), c2), size)
  {
    var g1, g2, g := GroupBy(Below(ss, c1), size), GroupBy(Below(From(ss, c1), c2), size), GroupBy(Below(ss, c2), size);
    FilterMembers(AtLeast(c1), ss);
    forall k
      ensures k in g <==> k in g1 + g2
      ensures k in g ==> g[k] == (g1 + g2)[k]
    {
      GroupByAt(Below(ss, c1), size, k);
      GroupByAt(Below(From(ss, c1), c2), size, k);
      GroupByAt(Below(ss, c2), size, k);
      GroupBelow(ss, c1, size, k);
      GroupBelow(ss, c2, size, k);
      GroupBelow(From(ss, c1), c2, size, k);
    }
  }

  lemma RawAbsorbs(t: Tables, c1: int, c2: int)
    requires (SinceEpoch(t) || 0 < c1) && c1 <= c2 && c1 % FIVE_MINUTES == 0 && c2 % FIVE_MINUTES == 0
    ensures DownsampleRaw(DownsampleRaw(t, c1), c2) == DownsampleRaw(t, c2)
  {
    FromTwice(t.raw, c1, c2);
    GroupAbsorbs(t.raw, c1, c2, FIVE_MINUTES);
    AddAssociative(t.five, GroupBy(Below(t.raw, c1), FIVE_MINUTES), GroupBy(Below(From(t.raw, c1), c2), FIVE_MINUTES));
  }

  lemma RawSinceEpoch(t: Tables, c: int)
    requires SinceEpoch(t) && c % FIVE_MINUTES == 0
    ensures SinceEpoch(DownsampleRaw(t, c))
  {
    FilterMembers(AtLeast(c), t.raw);
    FilterMembers(Before(c), t.raw);
    GroupKeyRange(Below(t.raw, c), 0, FIVE_MINUTES);
  }

  lemma {:induction false} MergeAgrees(a: map<Key, Row>, b: map<Key, Row>, server: string, lo: int, hi: int)
    requires forall k: Key :: k.server == server && lo <= k.bucket < hi ==>
               (k in a <==> k in b) && (k in a ==> a[k] == b[k])
    ensures MergeRange(a, server, lo, hi) == MergeRange(b, server, lo, hi)
    decreases hi - lo
  {
    if lo < hi {
      MergeAgrees(a, b, server, lo, hi - 1);
    }
  }

  lemma CoarseSplits(m: map<Key, Row>, c1: int, c2: int, g: Key)
    requires 0 < c1 || forall k :: k in m ==> 0 <= k.bucket
    requires c1 <= c2 && c1 % ONE_HOUR == 0 && c2 % ONE_HOUR == 0
    ensures g in Coarse(RowsBelow(m, c1), ONE_HOUR) <==> g in Coarse(RowsBelow(m, c2), ONE_HOUR) && g.bucket < c1
    ensures g in Coarse(RowsBelow(RowsFrom(m, c1), c2), ONE_HOUR)
      <==> g in Coarse(RowsBelow(m, c2), ONE_HOUR) && c1 <= g.bucket
    ensures g in Coarse(m, ONE_HOUR) ==> g.bucket % ONE_HOUR == 0
  {
    forall k | k in m
      ensures SqlBucket(k.bucket, ONE_HOUR) < c1 <==> k.bucket < c1
      ensures SqlBucket(k.bucket, ONE_HOUR) < c2 <==> k.bucket < c2
      ensures SqlBucket(k.bucket, ONE_HOUR) % ONE_HOUR == 0
    {
      BucketBelowAny(k.bucket, c1, ONE_HOUR);
      BucketBelowAny(k.bucket, c2, ONE_HOUR);
      BucketAligned(k.bucket, ONE_HOUR);
    }
  }

  lemma GroupRowsTogether(m: map<Key, Row>, c1: int, c2: int, g: Key)
    requires 0 < c1 || forall k :: k in m ==> 0 <= k.bucket
    requires c1 <= c2 && c1 % ONE_HOUR == 0 && c2 % ONE_HOUR == 0 && g.bucket % ONE_HOUR == 0
    ensures var lo, hi := GroupLow(g.bucket, ONE_HOUR), GroupHigh(g.bucket, ONE_HOUR);
      MergeRange(RowsBelow(m, c2), g.server, lo, hi)
      == MergeRange(if g.bucket < c1 then RowsBelow(m, c1) else RowsBelow(RowsFrom(m, c1), c2), g.server, lo, hi)
  {
    var all := RowsBelow(m, c2);
    var lo, hi := GroupLow(g.bucket, ONE_HOUR), GroupHigh(g.bucket, ONE_HOUR);
    forall k | k in all && lo <= k.bucket < hi ensures k.bucket < c1 <==> g.bucket < c1 {
      GroupRange(k.bucket, g.bucket, ONE_HOUR);
      BucketBelowAny(k.bucket, c1, ONE_HOUR);
    }
    MergeAgrees(all, if g.bucket < c1 then RowsBelow(m, c1) else RowsBelow(RowsFrom(m, c1), c2), g.server, lo, hi);
  }

  lemma RegroupAt(m: map<Key, Row>, size: pos, g: Key)
    ensures g in Regroup(m, size) <==> g in Coarse(m, size)
    ensures g in Coarse(m, size) ==>
              var r := MergeRange(m, g.server, GroupLow(g.bucket, size), GroupHigh(g.bucket, size));
              r.Group? && Regroup(m, size)[g] == RowOf(r)
  {
    if g in Coarse(m, size) {
      CoarseNonEmpty(m, size, g);
    }
  }

  lemma {:induction false} RegroupAbsorbs(m: map<Key, Row>, c1: int, c2: int)
    requires 0 < c1 || forall k :: k in m ==> 0 <= k.bucket
    requires c1 <= c2 && c1 % ONE_HOUR == 0 && c2 % ONE_HOUR == 0
    ensures Regroup(RowsBelow(m, c2), ONE_HOUR)
         == Regroup(RowsBelow(m, c1), ONE_HOUR) + Regroup(RowsBelow(RowsFrom(m, c1), c2), ONE_HOUR)
  {
    var all, past, rest := RowsBelow(m, c2), RowsBelow(m, c1), RowsBelow(RowsFrom(m, c1), c2);
    var a, p, r := Regroup(all, ONE_HOUR), Regroup(past, ONE_HOUR), Regroup(rest, ONE_HOUR);
    forall g
      ensures g in a <==> g in p + r
      ensures g in a ==> a[g] == (p + r)[g]
    {
      RegroupAt(all, ONE_HOUR, g);
      RegroupAt(past, ONE_HOUR, g);
      RegroupAt(rest, ONE_HOUR, g);
      CoarseSplits(m, c1, c2, g);
      CoarseSplits(all, c1, c2, g);
      if g in a {
        GroupRowsTogether(m, c1, c2, g);
      }
    }
  }

  lemma FiveAbsorbs(t: Tables, c1: int, c2: int)
    requires (SinceEpoch(t) || 0 < c1) && c1 <= c2 && c1 % ONE_HOUR == 0 && c2 % ONE_HOUR == 0
    ensures Downsample5m(Downsample5m(t, c1), c2) == Downsample5m(t, c2)
  {
    RegroupAbsorbs(t.five, c1, c2);
    RowsFromTwice(t.five, c1, c2);
    AddAssociative(t.hour, Regroup(RowsBelow(t.five, c1), ONE_HOUR),
                   Regroup(RowsBelow(RowsFrom(t.five, c1), c2), ONE_HOUR));
  }

  lemma RecentRowsStay(m: map<Key, Row>, g: map<Key, Row>, c: int)
    requires forall k :: k in g ==> c <= k.bucket
    ensures RowsBelow(m + g, c) == RowsBelow(m, c)
    ensures RowsFrom(m + g, c) == RowsFrom(m, c) + g
  {
  }

  /** Rows created from samples on or after the cutoff are not affected by the 5-minute roll-up. */
  lemma StepsCommute(t: Tables, five: int, raw: int)
    requires (SinceEpoch(t) || 0 < five) && five % ONE_HOUR == 0
    requires forall x :: x in t.raw ==> five <= x.at
    ensures DownsampleRaw(Downsample5m(t, five), raw) == Downsample5m(DownsampleRaw(t, raw), five)
  {
    HourAligned(five);
    FilterMembers(Before(raw), t.raw);
    GroupKeyRange(Below(t.raw, raw), five, FIVE_MINUTES);
    RecentRowsStay(t.five, GroupBy(Below(t.raw, raw), FIVE_MINUTES), five);
  }

  /** Either the tables hold nothing from before 1970, or the cutoffs lie after it. */
  ghost predicate ClearCut(t: Tables, c: Cutoffs) { SinceEpoch(t) || (0 < c.raw && 0 < c.five) }

  /**
   * A call at `t1` (even one that stops early) followed by a complete call at `t2 >= t1` leaves what
   * the call at `t2` alone leaves: from every state when the first call's clock is past the retention
   * periods of 1970, and otherwise from every state whose times are not negative.
   */
  lemma EarlierRunAbsorbed(t: Tables, cfg: Config, t1: int, t2: int, commits: nat)
    requires ClearCut(t, CutoffsAt(cfg, t1)) && cfg.Valid() && t1 <= t2
    ensures var c1, c2 := CutoffsAt(cfg, t1), CutoffsAt(cfg, t2);
      Maintained(Maintained(t, c1, commits), c2, 3) == Maintained(t, c2, 3)
  {
    var c1, c2 := CutoffsAt(cfg, t1), CutoffsAt(cfg, t2);
    CutoffsInOrder(cfg, t1);
    CutoffsInOrder(cfg, t2);
    CutoffsMonotone(cfg, t1, t2);
    CutoffsAbsorbed(t, c1, c2, commits);
  }

  lemma TwoStepsAbsorbed(t: Tables, c1: Cutoffs, c2: Cutoffs)
    requires ClearCut(t, c1) && Aligned(c1) && Aligned(c2) && c1.five <= c1.raw
    requires c1.raw <= c2.raw && c1.five <= c2.five
    ensures Downsample5m(DownsampleRaw(Downsample5m(DownsampleRaw(t, c1.raw), c1.five), c2.raw), c2.five)
         == Downsample5m(DownsampleRaw(t, c2.raw), c2.five)
  {
    var a := DownsampleRaw(t, c1.raw);
    RawAbsorbs(t, c1.raw, c2.raw);
    if SinceEpoch(t) {
      RawSinceEpoch(t, c1.raw);
      RawSinceEpoch(t, c2.raw);
    }
    assert forall x :: x in a.raw ==> c1.five <= x.at by {
      FilterMembers(AtLeast(c1.raw), t.raw);
    }
    StepsCommute(a, c1.five, c2.raw);
    FiveAbsorbs(DownsampleRaw(t, c2.raw), c1.five, c2.five);
  }

  lemma CutoffsAbsorbed(t: Tables, c1: Cutoffs, c2: Cutoffs, commits: nat)
    requires ClearCut(t, c1) && Aligned(c1) && Aligned(c2) && c1.five <= c1.raw
    requires c1.raw <= c2.raw && c1.five <= c2.five && c1.hour <= c2.hour
    ensures Maintained(Maintained(t, c1, commits), c2, 3) == Maintained(t, c2, 3)
  {
    if commits == 1 {
      RawAbsorbs(t, c1.raw, c2.raw);
    } else if commits >= 2 {
      TwoStepsAbsorbed(t, c1, c2);
      if commits >= 3 {
        ExpireAbsorbed(Downsample5m(DownsampleRaw(t, c1.raw), c1.five), c1.hour, c2);
      }
    }
  }

  lemma RowsFromUnion(m: map<Key, Row>, moved: map<Key, Row>, c1: int, c2: int)
    requires c1 <= c2
    ensures RowsFrom(RowsFrom(m, c1) + moved, c2) == RowsFrom(m + moved, c2)
  {
  }

  lemma ExpireAbsorbed(b: Tables, hour: int, c: Cutoffs)
    requires hour <= c.hour
    ensures Maintained(Expire(b, hour), c, 3) == Maintained(b, c, 3)
  {
    RowsFromUnion(b.hour, Regroup(RowsBelow(DownsampleRaw(b, c.raw).five, c.five), ONE_HOUR), hour, c.hour);
  }
}
