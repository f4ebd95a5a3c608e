/**
 * Late samples. The handler accepts samples that are older than the raw cutoff. This module says
 * exactly when the next maintenance call, with any cutoffs, still leaves the tables that the full
 * history calls for, and when the upsert replaces older samples instead.
 */
module LateSamples {
  import opened Wrappers
  import opened Sequences
  import opened Aggregates
  import opened Retention
  import opened Refinement
  import opened Schedule
  import opened Conservation

  /** The two tables agree about key `j`. */
  predicate SameAt(a: map<Key, Row>, b: map<Key, Row>, j: Key) { (j in a <==> j in b) && (j in a ==> a[j] == b[j]) }

  lemma SameEverywhere(a: map<Key, Row>, b: map<Key, Row>)
    requires forall j :: SameAt(a, b, j)
    ensures a == b
  {
    assert forall j :: j in a ==> SameAt(a, b, j);
    assert forall j :: j in b ==> SameAt(a, b, j);
  }

  /** The tables of a view with late samples in the raw table. */
  function Late(v: Tables, xs: seq<Sample>): Tables { v.(raw := v.raw + xs) }

  /** Older than every raw sample of the view; times from before 1970 only where the cutoffs part them correctly. */
  ghost predicate AreLate(xs: seq<Sample>, w: Cutoffs) {
    && (forall x :: x in xs ==> x.at < w.raw)
    && (0 < w.hour || forall x :: x in xs ==> 0 <= x.at)
  }

  predicate Ordered(c: Cutoffs) { Aligned(c) && c.hour <= c.five <= c.raw }

  function RawRaised(w: Cutoffs, c: Cutoffs): Cutoffs { w.(raw := MaxI(w.raw, c.raw)) }

  // ------------------------------------------------------- the first transaction

  lemma {:induction false} KeysBelow(xs: seq<Sample>, lo: int, size: pos)
    requires lo % size == 0 && (0 < lo || forall x :: x in xs ==> 0 <= x.at)
    requires forall x :: x in xs ==> x.at < lo
    ensures forall k :: k in GroupBy(xs, size) ==> k.bucket < lo
  {
    BucketsSinceEpoch(xs, lo, size);
    forall k | k in GroupBy(xs, size) ensures k.bucket < lo {
      var i :| 0 <= i < |xs| && KeyOf(xs[i], size) == k;
      assert xs[i] in xs;
    }
  }

  lemma DisjointUnions(m: map<Key, Row>, a: map<Key, Row>, b: map<Key, Row>)
    requires a.Keys !! b.Keys
    ensures m + (a + b) == (m + b) + a
  {
  }

  function WithRows(t: Tables, rows: map<Key, Row>): Tables { t.(five := t.five + rows) }

  /** The late samples stay in groups of their own, because all other raw samples are younger. */
  lemma {:induction false} LateGroups(h: seq<Sample>, w: Cutoffs, xs: seq<Sample>, c: int)
    requires Settled(w) && AreLate(xs, w) && c % FIVE_MINUTES == 0 && forall x :: x in xs ==> x.at < c
    ensures var raw := From(h, w.raw);
      && GroupBy(Below(raw + xs, c), FIVE_MINUTES) == GroupBy(xs, FIVE_MINUTES) + GroupBy(Below(raw, c), FIVE_MINUTES)
      && GroupBy(xs, FIVE_MINUTES).Keys !! GroupBy(Below(raw, c), FIVE_MINUTES).Keys
  {
    var raw := From(h, w.raw);
    FilterMembers(AtLeast(w.raw), h);
    LateKeysApart(raw, xs, w.raw, c);
    if c <= w.raw {
      FilterConcat(Before(c), raw, xs);
      FilterAll(Before(c), xs);
      FilterNone(Before(c), raw);
      assert [] + xs == xs && GroupBy([], FIVE_MINUTES) == map[];
      AddNothing(GroupBy(xs, FIVE_MINUTES));
    } else {
      LateAndRecent(raw, xs, w.raw, c);
    }
  }

  lemma {:induction false} LateKeysApart(raw: seq<Sample>, xs: seq<Sample>, lo: int, c: int)
    requires 0 <= lo && lo % FIVE_MINUTES == 0 && forall y :: y in raw ==> lo <= y.at
    requires (forall x :: x in xs ==> x.at < lo) && (0 < lo || forall x :: x in xs ==> 0 <= x.at)
    ensures GroupBy(xs, FIVE_MINUTES).Keys !! GroupBy(Below(raw, c), FIVE_MINUTES).Keys
  {
    FilterMembers(Before(c), raw);
    KeysBelow(xs, lo, FIVE_MINUTES);
    GroupKeyRange(Below(raw, c), lo, FIVE_MINUTES);
  }

  lemma {:induction false} LateAndRecent(raw: seq<Sample>, xs: seq<Sample>, lo: int, c: int)
    requires lo < c && lo % FIVE_MINUTES == 0 && c % FIVE_MINUTES == 0 && 0 <= lo
    requires forall y :: y in raw ==> lo <= y.at
    requires (forall x :: x in xs ==> x.at < lo) && (0 < lo || forall x :: x in xs ==> 0 <= x.at)
    ensures GroupBy(Below(raw + xs, c), FIVE_MINUTES) == GroupBy(xs, FIVE_MINUTES) + GroupBy(Below(raw, c), FIVE_MINUTES)
  {
    GroupAbsorbs(raw + xs, lo, c, FIVE_MINUTES);
    FilterConcat(Before(lo), raw, xs);
    FilterNone(Before(lo), raw);
    FilterAll(Before(lo), xs);
    assert [] + xs == xs;
    FilterConcat(AtLeast(lo), raw, xs);
    FilterAll(AtLeast(lo), raw);
    FilterNone(AtLeast(lo), xs);
    assert raw + [] == raw;
  }

  lemma {:induction false} LateRawStep(h: seq<Sample>, w: Cutoffs, xs: seq<Sample>, c: int)
    requires Settled(w) && AreLate(xs, w) && c % FIVE_MINUTES == 0 && forall x :: x in xs ==> x.at < c
    ensures DownsampleRaw(Late(View(h, w), xs), c)
         == WithRows(View(h, w.(raw := MaxI(w.raw, c))), GroupBy(xs, FIVE_MINUTES))
  {
    var v := View(h, w);
    FilterConcat(AtLeast(c), v.raw, xs);
    FilterNone(AtLeast(c), xs);
    assert From(v.raw, c) + [] == From(v.raw, c);
    LateGroups(h, w, xs, c);
    DisjointUnions(v.five, GroupBy(xs, FIVE_MINUTES), GroupBy(Below(v.raw, c), FIVE_MINUTES));
    DownsampleRawRefines(h, w, c);
  }

  // ----------------------------------------------------------------- tiers

  /**
   * How one key of a tier changes when the history grows by late samples whose own groups are `late`:
   * within the tier's range, an empty bucket gets the late group, a taken one gets more than that.
   */
  predicate TierKey(was: map<Key, Row>, full: map<Key, Row>, late: map<Key, Row>, lo: int, hi: int, k: Key) {
    if !(lo <= k.bucket < hi) then k !in was && k !in full
    else if k !in late then SameAt(was, full, k)
    else if k !in was then k in full && full[k] == late[k]
    else k in full && full[k].count > late[k].count
  }

  lemma {:induction false} TierRows(h: seq<Sample>, xs: seq<Sample>, lo: int, hi: int, size: pos, k: Key)
    requires 0 <= lo <= hi && lo % size == 0 && hi % size == 0 && (0 < lo || forall x :: x in xs ==> 0 <= x.at)
    ensures Rows(Between(h + xs, lo, hi), size, k)
         == Rows(Between(h, lo, hi), size, k) + if lo <= k.bucket < hi then Rows(xs, size, k) else []
  {
    FilterConcat(Within(lo, hi), h, xs);
    FilterConcat(InGroup(k, size), Between(h, lo, hi), Between(xs, lo, hi));
    BucketsSinceEpoch(xs, lo, size);
    BucketsSinceEpoch(xs, hi, size);
    RowsFiltered(xs, Within(lo, hi), size, k, lo <= k.bucket < hi);
  }

  lemma {:induction false} NoRowsOutside(h: seq<Sample>, lo: int, hi: int, size: pos, k: Key)
    requires 0 <= lo <= hi && lo % size == 0 && hi % size == 0 && !(lo <= k.bucket < hi)
    ensures Rows(Between(h, lo, hi), size, k) == []
  {
    var ss := Between(h, lo, hi);
    FilterMembers(Within(lo, hi), h);
    BucketsSinceEpoch(ss, lo, size);
    BucketsSinceEpoch(ss, hi, size);
    FilterNone(InGroup(k, size), ss);
  }

  lemma RowOfCounts(a: seq<Sample>, b: seq<Sample>)
    requires a != [] && b != []
    ensures RowOf(GroupOf(a + b)).count > RowOf(GroupOf(b)).count
  {
  }

  lemma {:induction false} TierAt(h: seq<Sample>, xs: seq<Sample>, lo: int, hi: int, size: pos, k: Key)
    requires 0 <= lo <= hi && lo % size == 0 && hi % size == 0 && (0 < lo || forall x :: x in xs ==> 0 <= x.at)
    ensures TierKey(GroupBy(Between(h, lo, hi), size), GroupBy(Between(h + xs, lo, hi), size), GroupBy(xs, size), lo, hi, k)
  {
    TierRows(h, xs, lo, hi, size, k);
    if !(lo <= k.bucket < hi) {
      NoRowsOutside(h, lo, hi, size, k);
    }
    KeyOfRows(Between(h, lo, hi), Between(h + xs, lo, hi), xs, lo, hi, size, k);
  }

  lemma {:induction false} KeyOfRows(was: seq<Sample>, full: seq<Sample>, xs: seq<Sample>, lo: int, hi: int, size: pos, k: Key)
    requires Rows(full, size, k) == Rows(was, size, k) + if lo <= k.bucket < hi then Rows(xs, size, k) else []
    requires !(lo <= k.bucket < hi) ==> Rows(was, size, k) == []
    ensures TierKey(GroupBy(was, size), GroupBy(full, size), GroupBy(xs, size), lo, hi, k)
  {
    var a, b := Rows(was, size, k), Rows(xs, size, k);
    GroupByAt(was, size, k);
    GroupByAt(full, size, k);
    GroupByAt(xs, size, k);
    assert [] + b == b && a + [] == a;
    if a != [] && b != [] {
      RowOfCounts(a, b);
    }
  }

  // ------------------------------------------------------- the second transaction

  /** The two tables agree about all rows that regroup to `g`. */
  ghost predicate SameIn(a: map<Key, Row>, b: map<Key, Row>, g: Key) {
    forall k: Key :: CoarseKey(k, ONE_HOUR) == g ==> SameAt(a, b, k)
  }

  lemma {:induction false} RegroupSame(a: map<Key, Row>, b: map<Key, Row>, g: Key)
    requires SameIn(a, b, g)
    ensures SameAt(Regroup(a, ONE_HOUR), Regroup(b, ONE_HOUR), g)
  {
    RegroupAt(a, ONE_HOUR, g);
    RegroupAt(b, ONE_HOUR, g);
    SameCoarse(a, b, g);
    if g in Coarse(a, ONE_HOUR) {
      CoarseAligned(a, ONE_HOUR, g);
      var lo, hi := GroupLow(g.bucket, ONE_HOUR), GroupHigh(g.bucket, ONE_HOUR);
      forall k: Key | k.server == g.server && lo <= k.bucket < hi ensures SameAt(a, b, k) {
        GroupRange(k.bucket, g.bucket, ONE_HOUR);
      }
      assert forall k: Key :: k.server == g.server && lo <= k.bucket < hi ==> SameAt(a, b, k);
      MergeAgrees(a, b, g.server, lo, hi);
    }
  }

  lemma SameCoarse(a: map<Key, Row>, b: map<Key, Row>, g: Key)
    requires SameIn(a, b, g)
    ensures g in Coarse(a, ONE_HOUR) <==> g in Coarse(b, ONE_HOUR)
  {
    if g in Coarse(a, ONE_HOUR) {
      var k :| k in a && CoarseKey(k, ONE_HOUR) == g;
      assert SameAt(a, b, k);
    }
    if g in Coarse(b, ONE_HOUR) {
      var k :| k in b && CoarseKey(k, ONE_HOUR) == g;
      assert SameAt(a, b, k);
    }
  }

  /** The same keys, and nowhere a larger count. */
  predicate NoMoreAt(a: map<Key, Row>, b: map<Key, Row>, k: Key) {
    (k in a <==> k in b) && (k in a ==> a[k].count <= b[k].count)
  }

  lemma {:induction false} MergeLess(a: map<Key, Row>, b: map<Key, Row>, server: string, lo: int, hi: int, at: int)
    requires forall k: Key :: k.server == server && lo <= k.bucket < hi ==> NoMoreAt(a, b, k)
    requires Key(server, at) in a && Key(server, at) in b && a[Key(server, at)].count < b[Key(server, at)].count
    ensures CountIn(MergeRange(a, server, lo, hi)) <= CountIn(MergeRange(b, server, lo, hi))
    ensures lo <= at < hi ==> CountIn(MergeRange(a, server, lo, hi)) < CountIn(MergeRange(b, server, lo, hi))
    decreases hi - lo
  {
    if lo < hi {
      MergeLess(a, b, server, lo, hi - 1, at);
      assert NoMoreAt(a, b, Key(server, hi - 1));
    }
  }

  /** A row that lost samples shows in the row of its group. */
  lemma {:induction false} RegroupLess(a: map<Key, Row>, b: map<Key, Row>, k: Key)
    requires forall j: Key :: CoarseKey(j, ONE_HOUR) == CoarseKey(k, ONE_HOUR) ==> NoMoreAt(a, b, j)
    requires k in a && k in b && a[k].count < b[k].count
    ensures var g := CoarseKey(k, ONE_HOUR); var p, q := Regroup(a, ONE_HOUR), Regroup(b, ONE_HOUR);
      g in p && g in q && p[g].count < q[g].count
  {
    var g := CoarseKey(k, ONE_HOUR);
    var lo, hi := GroupLow(g.bucket, ONE_HOUR), GroupHigh(g.bucket, ONE_HOUR);
    BucketAligned(k.bucket, ONE_HOUR);
    GroupRange(k.bucket, g.bucket, ONE_HOUR);
    forall j: Key | j.server == g.server && lo <= j.bucket < hi ensures NoMoreAt(a, b, j) {
      GroupRange(j.bucket, g.bucket, ONE_HOUR);
    }
    MergeLess(a, b, g.server, lo, hi, k.bucket);
    RegroupCount(a, ONE_HOUR, g);
    RegroupCount(b, ONE_HOUR, g);
  }

  // --------------------------------------------- the tables after the first transaction

  /** The tables as they are, the tables as they should be, and the groups of the late samples. */
  datatype Split = Split(was: Tables, full: Tables, five: map<Key, Row>, hour: map<Key, Row>, w: Cutoffs)

  function SplitOn(h: seq<Sample>, xs: seq<Sample>, w: Cutoffs): Split {
    Split(View(h, w), View(h + xs, w), GroupBy(xs, FIVE_MINUTES), GroupBy(xs, ONE_HOUR), w)
  }

  /** What a complete call still does after its first transaction. */
  function Rest(t: Tables, c: Cutoffs): Tables { Expire(Downsample5m(t, c.five), c.hour) }

  function Actual(s: Split, c: Cutoffs): Tables { Rest(WithRows(s.was, s.five), c) }
  function Wanted(s: Split, c: Cutoffs): Tables { Rest(s.full, c) }

  ghost predicate FiveKnown(s: Split) {
    && (forall k :: TierKey(s.was.five, s.full.five, s.five, s.w.five, s.w.raw, k))
    && (forall k :: k in s.five ==> k.bucket < s.w.raw)
  }

  ghost predicate HourKnown(s: Split) {
    && (forall g :: TierKey(s.was.hour, s.full.hour, s.hour, s.w.hour, s.w.five, g))
    && s.hour == Regroup(s.five, ONE_HOUR)
  }

  /** What is known of a split, key by key; `c` parts the late groups as it parts the late samples. */
  ghost predicate Known(s: Split, c: Cutoffs) {
    && Settled(s.w) && Ordered(c) && c.five <= s.w.raw && s.was.raw == s.full.raw && FiveKnown(s) && HourKnown(s)
    && ((0 < s.w.hour && 0 < c.hour) || forall k :: k in s.five ==> 0 <= k.bucket)
  }

  lemma {:induction false} SplitIsKnown(h: seq<Sample>, xs: seq<Sample>, w: Cutoffs, c: Cutoffs)
    requires Settled(w) && Ordered(c) && c.five <= w.raw && AreLate(xs, w)
    requires 0 < c.hour || forall x :: x in xs ==> 0 <= x.at
    ensures Known(SplitOn(h, xs, w), c)
  {
    var s := SplitOn(h, xs, w);
    FilterConcat(AtLeast(w.raw), h, xs);
    FilterNone(AtLeast(w.raw), xs);
    assert From(h, w.raw) + [] == From(h, w.raw);
    HourAligned(w.five);
    forall k ensures TierKey(s.was.five, s.full.five, s.five, w.five, w.raw, k) {
      TierAt(h, xs, w.five, w.raw, FIVE_MINUTES, k);
    }
    forall g ensures TierKey(s.was.hour, s.full.hour, s.hour, w.hour, w.five, g) {
      TierAt(h, xs, w.hour, w.five, ONE_HOUR, g);
    }
    RegroupIsDirect(xs, FIVE_MINUTES, ONE_HOUR);
    KeysBelow(xs, w.raw, FIVE_MINUTES);
    if forall x :: x in xs ==> 0 <= x.at {
      GroupKeyRange(xs, 0, FIVE_MINUTES);
    }
  }

  // ------------------------------------------------------------------ key by key

  /** A 5-minute bucket in which the upsert replaces what was there. */
  predicate Clash(s: Split, k: Key) { k in s.five && k in s.was.five }

  /** Within the 5-minute tier a bucket is as it should be unless there is a clash, and then it has too little. */
  lemma YoungKey(s: Split, c: Cutoffs, k: Key)
    requires Known(s, c) && s.w.five <= k.bucket
    ensures var a := s.was.five + s.five;
      && NoMoreAt(a, s.full.five, k) && (!Clash(s, k) ==> SameAt(a, s.full.five, k))
      && (Clash(s, k) ==> k in a && k in s.full.five && a[k].count < s.full.five[k].count)
  {
    assert TierKey(s.was.five, s.full.five, s.five, s.w.five, s.w.raw, k);
  }

  /** Below it only late groups are found, and none of them should be. */
  lemma OldKey(s: Split, c: Cutoffs, k: Key)
    requires Known(s, c) && k.bucket < s.w.five
    ensures SameAt(s.was.five + s.five, s.five, k) && k !in s.full.five
  {
    assert TierKey(s.was.five, s.full.five, s.five, s.w.five, s.w.raw, k);
  }

  /** A cutoff on the hour parts a late bucket and its hour alike. */
  lemma LateParts(s: Split, c: Cutoffs, k: Key, cut: int)
    requires Known(s, c) && k in s.five && cut in {c.five, c.hour, s.w.five, s.w.hour}
    ensures k.bucket < cut <==> CoarseKey(k, ONE_HOUR).bucket < cut
  {
    BucketBelowAny(k.bucket, cut, ONE_HOUR);
  }

  /** Where the 5-minute tables agree after a complete call. */
  lemma FiveAgrees(s: Split, c: Cutoffs, k: Key)
    requires Known(s, c)
    ensures SameAt(Actual(s, c).five, Wanted(s, c).five, k)
       <==> k.bucket < c.five || k !in s.five || (s.w.five <= k.bucket && !Clash(s, k))
  {
    if s.w.five <= k.bucket {
      YoungKey(s, c, k);
    } else {
      OldKey(s, c, k);
    }
  }

  function Cut(s: Split, c: Cutoffs): map<Key, Row> { RowsBelow(s.was.five + s.five, c.five) }
  function FullCut(s: Split, c: Cutoffs): map<Key, Row> { RowsBelow(s.full.five, c.five) }

  /** A bucket below the 5-minute tier whose hour is in it holds nothing. */
  lemma {:induction false} StrayKey(s: Split, c: Cutoffs, k: Key)
    requires Known(s, c) && k.bucket < s.w.five <= CoarseKey(k, ONE_HOUR).bucket
    ensures k !in s.five && k !in s.was.five && k !in s.full.five
  {
    OldKey(s, c, k);
    assert TierKey(s.was.five, s.full.five, s.five, s.w.five, s.w.raw, k);
    if k in s.five {
      LateParts(s, c, k, s.w.five);
    }
  }

  /** An hour that belongs to the 5-minute tier. */
  lemma {:induction false} YoungHour(s: Split, c: Cutoffs, g: Key)
    requires Known(s, c) && s.w.five <= g.bucket
    requires forall k :: CoarseKey(k, ONE_HOUR) == g && k.bucket < c.five ==> !Clash(s, k)
    ensures SameAt(Actual(s, c).hour, Wanted(s, c).hour, g)
  {
    forall k: Key | CoarseKey(k, ONE_HOUR) == g ensures SameAt(Cut(s, c), FullCut(s, c), k) {
      if k.bucket < s.w.five {
        StrayKey(s, c, k);
      } else {
        YoungKey(s, c, k);
      }
    }
    RegroupSame(Cut(s, c), FullCut(s, c), g);
    assert TierKey(s.was.hour, s.full.hour, s.hour, s.w.hour, s.w.five, g);
  }

  /** An hour below it, reached by the second transaction or not. */
  lemma {:induction false} OldHour(s: Split, c: Cutoffs, g: Key)
    requires Known(s, c) && g.bucket < s.w.five
    ensures g !in Regroup(FullCut(s, c), ONE_HOUR)
    ensures SameAt(Regroup(Cut(s, c), ONE_HOUR), if g.bucket < c.five then s.hour else map[], g)
  {
    forall k: Key | CoarseKey(k, ONE_HOUR) == g
      ensures SameAt(Cut(s, c), if g.bucket < c.five then s.five else map[], k)
      ensures k !in FullCut(s, c)
    {
      OldSource(s, c, k);
    }
    assert SameIn(Cut(s, c), if g.bucket < c.five then s.five else map[], g);
    RegroupSame(Cut(s, c), if g.bucket < c.five then s.five else map[], g);
    assert SameIn(FullCut(s, c), map[], g);
    RegroupSame(FullCut(s, c), map[], g);
    RegroupNothing(ONE_HOUR);
  }

  lemma {:induction false} OldSource(s: Split, c: Cutoffs, k: Key)
    requires Known(s, c) && CoarseKey(k, ONE_HOUR).bucket < s.w.five
    ensures SameAt(Cut(s, c), if CoarseKey(k, ONE_HOUR).bucket < c.five then s.five else map[], k)
    ensures k !in FullCut(s, c)
  {
    assert TierKey(s.was.five, s.full.five, s.five, s.w.five, s.w.raw, k);
    if k.bucket >= 0 {
      BucketBelow(k.bucket, s.w.five, ONE_HOUR);
    }
    if k in s.five {
      LateParts(s, c, k, c.five);
      LateParts(s, c, k, s.w.five);
    }
  }

  // ------------------------------------------------------------- exactly when

  /**
   * What decides whether the next complete call, with cutoffs `c`, does right by a late sample: the call
   * must carry the sample as far as its age asks for, and where it lands nobody may have been in its
   * bucket, unless that bucket expires in the same call.
   */
  predicate Survives(v: Tables, w: Cutoffs, x: Sample, c: Cutoffs) {
    if w.five <= x.at then x.at < c.raw && (KeyOf(x, FIVE_MINUTES) !in v.five || x.at < c.hour)
    else if w.hour <= x.at then x.at < c.five && (KeyOf(x, ONE_HOUR) !in v.hour || x.at < c.hour)
    else x.at < c.hour
  }

  ghost predicate AllSurvive(v: Tables, w: Cutoffs, xs: seq<Sample>, c: Cutoffs) {
    forall x :: x in xs ==> Survives(v, w, x, c)
  }

  /** No time lies before 1970, or all cutoffs lie after it. */
  ghost predicate Dated(xs: seq<Sample>, w: Cutoffs, c: Cutoffs) {
    (0 < w.hour && 0 < c.hour) || forall x :: x in xs ==> 0 <= x.at
  }

  /** A late sample and its two buckets lie on the same side of every cutoff. */
  lemma {:induction false} SampleParts(xs: seq<Sample>, w: Cutoffs, c: Cutoffs, x: Sample, cut: int)
    requires Settled(w) && Ordered(c) && Dated(xs, w, c) && x in xs && cut in {c.five, c.hour, w.five, w.hour}
    ensures KeyOf(x, FIVE_MINUTES).bucket < cut <==> x.at < cut
    ensures KeyOf(x, ONE_HOUR).bucket < cut <==> x.at < cut
    ensures CoarseKey(KeyOf(x, FIVE_MINUTES), ONE_HOUR) == KeyOf(x, ONE_HOUR)
  {
    HourAligned(cut);
    BucketBelowAny(x.at, cut, FIVE_MINUTES);
    BucketBelowAny(x.at, cut, ONE_HOUR);
    NestedBuckets(x.at, FIVE_MINUTES, ONE_HOUR);
  }

  lemma Source(xs: seq<Sample>, size: pos, k: Key) returns (x: Sample)
    requires k in GroupBy(xs, size)
    ensures x in xs && KeyOf(x, size) == k
  {
    var i :| 0 <= i < |xs| && KeyOf(xs[i], size) == k;
    x := xs[i];
  }

  lemma InOwnGroups(xs: seq<Sample>, x: Sample)
    requires x in xs
    ensures KeyOf(x, FIVE_MINUTES) in GroupBy(xs, FIVE_MINUTES) && KeyOf(x, ONE_HOUR) in GroupBy(xs, ONE_HOUR)
  {
    var i :| 0 <= i < |xs| && xs[i] == x;
  }

  /** What the proofs below are about: late samples and the call that meets them. */
  ghost predicate Meets(h: seq<Sample>, xs: seq<Sample>, w: Cutoffs, c: Cutoffs) {
    && Settled(w) && Ordered(c) && c.five <= w.raw && AreLate(xs, w) && Dated(xs, w, c)
    && Known(SplitOn(h, xs, w), c)
  }

  lemma {:induction false} FiveSurvivor(h: seq<Sample>, xs: seq<Sample>, w: Cutoffs, c: Cutoffs, k: Key)
    requires Meets(h, xs, w, c) && AllSurvive(View(h, w), w, xs, c) && k in GroupBy(xs, FIVE_MINUTES)
    ensures k.bucket < c.five || (w.five <= k.bucket && k !in View(h, w).five)
  {
    var x := Source(xs, FIVE_MINUTES, k);
    SampleParts(xs, w, c, x, c.five);
    SampleParts(xs, w, c, x, w.five);
    assert Survives(View(h, w), w, x, c);
  }

  lemma {:induction false} SurvivorsInFive(h: seq<Sample>, xs: seq<Sample>, w: Cutoffs, c: Cutoffs, k: Key)
    requires Meets(h, xs, w, c) && AllSurvive(View(h, w), w, xs, c)
    ensures var s := SplitOn(h, xs, w); SameAt(Actual(s, c).five, Wanted(s, c).five, k)
  {
    if k in GroupBy(xs, FIVE_MINUTES) {
      FiveSurvivor(h, xs, w, c, k);
    }
    FiveAgrees(SplitOn(h, xs, w), c, k);
  }

  lemma {:induction false} NoClashLeft(h: seq<Sample>, xs: seq<Sample>, w: Cutoffs, c: Cutoffs, k: Key)
    requires Meets(h, xs, w, c) && AllSurvive(View(h, w), w, xs, c)
    requires w.five <= CoarseKey(k, ONE_HOUR).bucket && c.hour <= CoarseKey(k, ONE_HOUR).bucket
    ensures !Clash(SplitOn(h, xs, w), k)
  {
    if k in GroupBy(xs, FIVE_MINUTES) {
      var x := Source(xs, FIVE_MINUTES, k);
      SampleParts(xs, w, c, x, c.hour);
      SampleParts(xs, w, c, x, w.five);
      assert Survives(View(h, w), w, x, c);
    }
  }

  lemma {:induction false} SurvivorsInHour(h: seq<Sample>, xs: seq<Sample>, w: Cutoffs, c: Cutoffs, g: Key)
    requires Meets(h, xs, w, c) && AllSurvive(View(h, w), w, xs, c)
    ensures var s := SplitOn(h, xs, w); SameAt(Actual(s, c).hour, Wanted(s, c).hour, g)
  {
    var s := SplitOn(h, xs, w);
    if g.bucket < c.hour {
    } else if w.five <= g.bucket {
      forall k: Key | CoarseKey(k, ONE_HOUR) == g && k.bucket < c.five ensures !Clash(s, k) {
        NoClashLeft(h, xs, w, c, k);
      }
      YoungHour(s, c, g);
    } else {
      SurvivorsInOldHour(h, xs, w, c, g);
    }
  }

  lemma {:induction false} SurvivorsInOldHour(h: seq<Sample>, xs: seq<Sample>, w: Cutoffs, c: Cutoffs, g: Key)
    requires Meets(h, xs, w, c) && AllSurvive(View(h, w), w, xs, c) && c.hour <= g.bucket < w.five
    ensures var s := SplitOn(h, xs, w); SameAt(Actual(s, c).hour, Wanted(s, c).hour, g)
  {
    if g in GroupBy(xs, ONE_HOUR) {
      OldHourIsEmpty(h, xs, w, c, g);
    }
    OldHourRight(SplitOn(h, xs, w), c, g);
  }

  lemma {:induction false} OldHourIsEmpty(h: seq<Sample>, xs: seq<Sample>, w: Cutoffs, c: Cutoffs, g: Key)
    requires Meets(h, xs, w, c) && AllSurvive(View(h, w), w, xs, c) && c.hour <= g.bucket < w.five
    requires g in GroupBy(xs, ONE_HOUR)
    ensures w.hour <= g.bucket < c.five && g !in View(h, w).hour
  {
    var x := Source(xs, ONE_HOUR, g);
    OldHourSample(xs, w, c, x);
    assert Survives(View(h, w), w, x, c);
  }

  lemma {:induction false} OldHourSample(xs: seq<Sample>, w: Cutoffs, c: Cutoffs, x: Sample)
    requires Settled(w) && Ordered(c) && Dated(xs, w, c) && x in xs && c.hour <= KeyOf(x, ONE_HOUR).bucket < w.five
    ensures c.hour <= x.at < w.five && (KeyOf(x, ONE_HOUR).bucket < c.five <==> x.at < c.five)
    ensures w.hour <= KeyOf(x, ONE_HOUR).bucket <==> w.hour <= x.at
  {
    SampleParts(xs, w, c, x, c.five);
    SampleParts(xs, w, c, x, c.hour);
    SampleParts(xs, w, c, x, w.five);
    SampleParts(xs, w, c, x, w.hour);
  }

  lemma {:induction false} OldHourRight(s: Split, c: Cutoffs, g: Key)
    requires Known(s, c) && c.hour <= g.bucket < s.w.five
    requires g in s.hour ==> s.w.hour <= g.bucket < c.five && g !in s.was.hour
    ensures SameAt(Actual(s, c).hour, Wanted(s, c).hour, g)
  {
    OldHour(s, c, g);
    assert TierKey(s.was.hour, s.full.hour, s.hour, s.w.hour, s.w.five, g);
  }

  /** A sample of the 5-minute tier that falls into a taken bucket, which does not expire. */
  lemma {:induction false} LostInFiveTier(s: Split, c: Cutoffs, k: Key)
    requires Known(s, c) && Clash(s, k) && s.w.five <= k.bucket && s.w.five <= CoarseKey(k, ONE_HOUR).bucket
    requires c.hour <= CoarseKey(k, ONE_HOUR).bucket
    ensures Actual(s, c) != Wanted(s, c)
  {
    var g := CoarseKey(k, ONE_HOUR);
    if c.five <= k.bucket {
      FiveAgrees(s, c, k);
      assert !SameAt(Actual(s, c).five, Wanted(s, c).five, k);
    } else {
      LateParts(s, c, k, c.five);
      forall j: Key | CoarseKey(j, ONE_HOUR) == g ensures NoMoreAt(Cut(s, c), FullCut(s, c), j) {
        if j.bucket < s.w.five {
          StrayKey(s, c, j);
        } else {
          YoungKey(s, c, j);
        }
      }
      YoungKey(s, c, k);
      RegroupLess(Cut(s, c), FullCut(s, c), k);
      assert Actual(s, c).hour[g].count < Wanted(s, c).hour[g].count;
    }
  }

  /** A sample older than that which is not carried far enough, or lands in a taken or expired hour that stays. */
  lemma {:induction false} LostInOldTier(s: Split, c: Cutoffs, k: Key)
    requires Known(s, c) && k in s.five && k.bucket < s.w.five && c.hour <= CoarseKey(k, ONE_HOUR).bucket
    requires CoarseKey(k, ONE_HOUR).bucket < s.w.five && CoarseKey(k, ONE_HOUR) in s.hour
    requires c.five <= k.bucket || CoarseKey(k, ONE_HOUR).bucket < s.w.hour || CoarseKey(k, ONE_HOUR) in s.was.hour
    ensures Actual(s, c) != Wanted(s, c)
  {
    var g := CoarseKey(k, ONE_HOUR);
    if c.five <= k.bucket {
      FiveAgrees(s, c, k);
      assert !SameAt(Actual(s, c).five, Wanted(s, c).five, k);
    } else {
      LateParts(s, c, k, c.five);
      OldHour(s, c, g);
      assert TierKey(s.was.hour, s.full.hour, s.hour, s.w.hour, s.w.five, g);
      assert !SameAt(Actual(s, c).hour, Wanted(s, c).hour, g);
    }
  }

  lemma {:induction false} OneLost(h: seq<Sample>, xs: seq<Sample>, w: Cutoffs, c: Cutoffs, x: Sample)
    requires Meets(h, xs, w, c) && x in xs && x.at < c.raw && !Survives(View(h, w), w, x, c)
    ensures var s := SplitOn(h, xs, w); Actual(s, c) != Wanted(s, c)
  {
    var s, k := SplitOn(h, xs, w), KeyOf(x, FIVE_MINUTES);
    InOwnGroups(xs, x);
    SampleParts(xs, w, c, x, c.five);
    SampleParts(xs, w, c, x, c.hour);
    SampleParts(xs, w, c, x, w.five);
    SampleParts(xs, w, c, x, w.hour);
    if w.five <= x.at {
      LostInFiveTier(s, c, k);
    } else {
      LostInOldTier(s, c, k);
    }
  }

  /** After a first transaction that reached every late sample. */
  lemma {:induction false} RestIsRight(h: seq<Sample>, xs: seq<Sample>, w: Cutoffs, c: Cutoffs)
    requires Meets(h, xs, w, c) && forall x :: x in xs ==> x.at < c.raw
    ensures var s := SplitOn(h, xs, w); Actual(s, c) == Wanted(s, c) <==> AllSurvive(View(h, w), w, xs, c)
  {
    var s := SplitOn(h, xs, w);
    if AllSurvive(View(h, w), w, xs, c) {
      forall k ensures SameAt(Actual(s, c).five, Wanted(s, c).five, k) {
        SurvivorsInFive(h, xs, w, c, k);
      }
      SameEverywhere(Actual(s, c).five, Wanted(s, c).five);
      forall g ensures SameAt(Actual(s, c).hour, Wanted(s, c).hour, g) {
        SurvivorsInHour(h, xs, w, c, g);
      }
      SameEverywhere(Actual(s, c).hour, Wanted(s, c).hour);
    } else {
      var x :| x in xs && !Survives(View(h, w), w, x, c);
      OneLost(h, xs, w, c, x);
    }
  }

  lemma RestRefines(h: seq<Sample>, w: Cutoffs, c: Cutoffs)
    requires Settled(w) && Ordered(c) && c.five <= w.raw
    ensures Rest(View(h, w), c) == View(h, w.(five := MaxI(w.five, c.five), hour := MaxI(w.hour, c.hour)))
  {
    Downsample5mRefines(h, w, c.five);
    ExpireRefines(h, w.(five := MaxI(w.five, c.five)), c.hour);
  }

  /** Raising the raw watermark adds only younger buckets. */
  lemma {:induction false} FiveKeyStays(h: seq<Sample>, w: Cutoffs, x: Sample, raw: int)
    requires Settled(w) && (0 <= x.at || 0 < w.raw) && x.at < w.raw <= raw
    ensures KeyOf(x, FIVE_MINUTES) in View(h, w.(raw := raw)).five <==> KeyOf(x, FIVE_MINUTES) in View(h, w).five
  {
    SplitAt(h, w.five, w.raw, raw, FIVE_MINUTES);
    BucketBelowAny(x.at, w.raw, FIVE_MINUTES);
  }

  lemma {:induction false} SurviveAfterRaise(h: seq<Sample>, w: Cutoffs, xs: seq<Sample>, c: Cutoffs)
    requires Settled(w) && AreLate(xs, w)
    ensures AllSurvive(View(h, RawRaised(w, c)), RawRaised(w, c), xs, c) <==> AllSurvive(View(h, w), w, xs, c)
  {
    forall x | x in xs
      ensures Survives(View(h, RawRaised(w, c)), RawRaised(w, c), x, c) <==> Survives(View(h, w), w, x, c)
    {
      FiveKeyStays(h, w, x, RawRaised(w, c).raw);
    }
  }

  /** A call that stops short of a sample leaves it in the raw table, where it does not belong. */
  lemma NotReached(h: seq<Sample>, w: Cutoffs, t: Tables, x: Sample, c: Cutoffs)
    requires x in t.raw && c.raw <= x.at < w.raw
    ensures Maintained(t, c, 3) != View(h, Raised(w, c, 3))
  {
    FilterMember(AtLeast(c.raw), t.raw, x);
    FilterMember(AtLeast(MaxI(w.raw, c.raw)), h, x);
  }

  /**
   * For every history, every list of late samples, in one bucket or in many, and every cutoffs that a
   * call can have: the tables become those of the full history exactly when each late sample survives.
   */
  lemma {:induction false} LateSamplesExact(h: seq<Sample>, w: Cutoffs, xs: seq<Sample>, c: Cutoffs)
    requires Settled(w) && Ordered(c) && AreLate(xs, w) && Dated(xs, w, c)
    ensures Maintained(Late(View(h, w), xs), c, 3) == View(h + xs, Raised(w, c, 3)) <==> AllSurvive(View(h, w), w, xs, c)
  {
    if x :| x in xs && c.raw <= x.at {
      NotReached(h + xs, w, Late(View(h, w), xs), x, c);
      assert !Survives(View(h, w), w, x, c);
    } else {
      var w1 := RawRaised(w, c);
      LateRawStep(h, w, xs, c.raw);
      SplitIsKnown(h, xs, w1, c);
      RestIsRight(h, xs, w1, c);
      RestRefines(h + xs, w1, c);
      SurviveAfterRaise(h, w, xs, c);
    }
  }

  // -------------------------------------------------- late and on-time saves mixed

  lemma {:induction false} GroupOfConcat(s: seq<Sample>, t: seq<Sample>)
    ensures GroupOf(s + t) == Join(GroupOf(s), GroupOf(t))
  {
    if t == [] {
      assert s + t == s;
    } else {
      var init, x := t[..|t| - 1], t[|t| - 1];
      assert s + t == (s + init) + [x] && t == init + [x];
      GroupOfConcat(s, init);
      GroupOfAppend(s + init, x);
      JoinLaws(GroupOf(s), GroupOf(init), One(x.values));
    }
  }

  /** `b` with the samples from `lo` on first, and the older ones last. */
  function Sorted(b: seq<Sample>, lo: int): seq<Sample> { From(b, lo) + Below(b, lo) }

  lemma {:induction false} SortedGroup(b: seq<Sample>, lo: int)
    ensures GroupOf(Sorted(b, lo)) == GroupOf(b) && (Sorted(b, lo) == [] <==> b == [])
  {
    GroupOfUnion(AtLeast(lo), Before(lo), b);
    FilterAll(Either(AtLeast(lo), Before(lo)), b);
    GroupOfConcat(From(b, lo), Below(b, lo));
    assert GroupOf(Sorted(b, lo)).Empty? <==> GroupOf(b).Empty?;
  }

  lemma {:induction false} FilterSorted(p: Sample -> bool, b: seq<Sample>, lo: int)
    ensures Filter(p, Sorted(b, lo)) == Sorted(Filter(p, b), lo)
  {
    FilterConcat(p, From(b, lo), Below(b, lo));
    FiltersCommute(p, AtLeast(lo), b);
    FiltersCommute(p, Before(lo), b);
  }

  /** Aggregates do not depend on the order in which late and on-time samples were inserted. */
  lemma {:induction false} GroupBySorted(a: seq<Sample>, b: seq<Sample>, lo: int, size: pos)
    ensures GroupBy(a + b, size) == GroupBy(a + Sorted(b, lo), size)
  {
    var one, two := GroupBy(a + b, size), GroupBy(a + Sorted(b, lo), size);
    forall k ensures SameAt(one, two, k) {
      RowsSorted(a, b, lo, size, k);
      GroupByAt(a + b, size, k);
      GroupByAt(a + Sorted(b, lo), size, k);
    }
    SameEverywhere(one, two);
  }

  lemma {:induction false} RowsSorted(a: seq<Sample>, b: seq<Sample>, lo: int, size: pos, k: Key)
    ensures GroupOf(Rows(a + b, size, k)) == GroupOf(Rows(a + Sorted(b, lo), size, k))
    ensures Rows(a + b, size, k) == [] <==> Rows(a + Sorted(b, lo), size, k) == []
  {
    var p := InGroup(k, size);
    FilterConcat(p, a, b);
    FilterConcat(p, a, Sorted(b, lo));
    FilterSorted(p, b, lo);
    SortedGroup(Filter(p, b), lo);
    GroupOfConcat(Filter(p, a), Filter(p, b));
    GroupOfConcat(Filter(p, a), Sorted(Filter(p, b), lo));
  }

  lemma {:induction false} SelectedSorted(p: Sample -> bool, a: seq<Sample>, b: seq<Sample>, lo: int, size: pos)
    ensures GroupBy(Filter(p, a + b), size) == GroupBy(Filter(p, a + Sorted(b, lo)), size)
  {
    FilterConcat(p, a, b);
    FilterConcat(p, a, Sorted(b, lo));
    FilterSorted(p, b, lo);
    GroupBySorted(Filter(p, a), Filter(p, b), lo, size);
  }

  /** Recent samples keep their order, when no late one is among them. */
  lemma {:induction false} RecentSorted(a: seq<Sample>, b: seq<Sample>, lo: int, c: int)
    requires forall x :: x in b && x.at < lo ==> x.at < c
    ensures From(a + b, c) == From(a + Sorted(b, lo), c)
  {
    var p, q := AtLeast(lo), AtLeast(c);
    FilterConcat(q, a, b);
    FilterConcat(q, a, Sorted(b, lo));
    FilterConcat(q, From(b, lo), Below(b, lo));
    FilterTwice(p, q, b);
    FilterSame(Both(p, q), q, b);
    FilterMembers(Before(lo), b);
    FilterNone(q, Below(b, lo));
    assert From(b, c) + [] == From(b, c);
  }

  lemma {:induction false} ViewSorted(h: seq<Sample>, b: seq<Sample>, lo: int, w: Cutoffs)
    requires lo <= w.raw
    ensures View(h + b, w) == View(h + Sorted(b, lo), w)
  {
    RecentSorted(h, b, lo, w.raw);
    SelectedSorted(Within(w.five, w.raw), h, b, lo, FIVE_MINUTES);
    SelectedSorted(Within(w.hour, w.five), h, b, lo, ONE_HOUR);
  }

  lemma {:induction false} DownsampleSorted(t: Tables, b: seq<Sample>, lo: int, c: int)
    requires forall x :: x in b && x.at < lo ==> x.at < c
    ensures DownsampleRaw(t.(raw := t.raw + b), c) == DownsampleRaw(t.(raw := t.raw + Sorted(b, lo)), c)
  {
    RecentSorted(t.raw, b, lo, c);
    SelectedSorted(Before(c), t.raw, b, lo, FIVE_MINUTES);
  }

  lemma {:induction false} OnTimeView(h: seq<Sample>, w: Cutoffs, b: seq<Sample>)
    requires Settled(w) && forall y :: y in b ==> w.raw <= y.at
    ensures View(h + b, w) == Late(View(h, w), b)
  {
    FilterConcat(AtLeast(w.raw), h, b);
    FilterConcat(Within(w.five, w.raw), h, b);
    FilterConcat(Within(w.hour, w.five), h, b);
    FilterAll(AtLeast(w.raw), b);
    FilterNone(Within(w.five, w.raw), b);
    FilterNone(Within(w.hour, w.five), b);
    assert Between(h, w.five, w.raw) + [] == Between(h, w.five, w.raw);
    assert Between(h, w.hour, w.five) + [] == Between(h, w.hour, w.five);
  }

  /** The same for any list of saves `b`, of which those older than the raw cutoff are late. */
  lemma {:induction false} MixedSavesExact(h: seq<Sample>, w: Cutoffs, b: seq<Sample>, c: Cutoffs)
    requires Settled(w) && Ordered(c) && Dated(Below(b, w.raw), w, c)
    ensures Maintained(Late(View(h, w), b), c, 3) == View(h + b, Raised(w, c, 3))
       <==> AllSurvive(View(h, w), w, Below(b, w.raw), c)
  {
    var xs := Below(b, w.raw);
    FilterMembers(Before(w.raw), b);
    if x :| x in xs && c.raw <= x.at {
      NotReached(h + b, w, Late(View(h, w), b), x, c);
      assert !Survives(View(h, w), w, x, c);
    } else {
      MixedAsSorted(h, w, b, c);
      ViewAsSorted(h, b, w.raw, Raised(w, c, 3));
      OnTimeFirst(h, w, b);
      LateSamplesExact(h + From(b, w.raw), w, xs, c);
    }
  }

  lemma {:induction false} OnTimeFirst(h: seq<Sample>, w: Cutoffs, b: seq<Sample>)
    requires Settled(w)
    ensures View(h + From(b, w.raw), w) == Late(View(h, w), From(b, w.raw))
  {
    FilterMembers(AtLeast(w.raw), b);
    OnTimeView(h, w, From(b, w.raw));
  }

  /** Late saves that the call reaches might as well have come last. */
  lemma {:induction false} MixedAsSorted(h: seq<Sample>, w: Cutoffs, b: seq<Sample>, c: Cutoffs)
    requires Settled(w) && forall x :: x in Below(b, w.raw) ==> x.at < c.raw
    ensures Maintained(Late(View(h, w), b), c, 3)
         == Maintained(Late(View(h + From(b, w.raw), w), Below(b, w.raw)), c, 3)
  {
    var v := View(h, w);
    OnTimeFirst(h, w, b);
    TablesAsSorted(v, b, w.raw, c.raw);
    SameFirstStep(Late(v, b), Late(Late(v, From(b, w.raw)), Below(b, w.raw)), c);
  }

  lemma {:induction false} ViewAsSorted(h: seq<Sample>, b: seq<Sample>, lo: int, w: Cutoffs)
    requires lo <= w.raw
    ensures View(h + b, w) == View(h + From(b, lo) + Below(b, lo), w)
  {
    ViewSorted(h, b, lo, w);
    assert h + Sorted(b, lo) == h + From(b, lo) + Below(b, lo);
  }

  lemma SameFirstStep(t1: Tables, t2: Tables, c: Cutoffs)
    requires DownsampleRaw(t1, c.raw) == DownsampleRaw(t2, c.raw)
    ensures Maintained(t1, c, 3) == Maintained(t2, c, 3)
  {
  }

  lemma {:induction false} TablesAsSorted(v: Tables, b: seq<Sample>, lo: int, c: int)
    requires forall x :: x in Below(b, lo) ==> x.at < c
    ensures DownsampleRaw(Late(v, b), c) == DownsampleRaw(Late(Late(v, From(b, lo)), Below(b, lo)), c)
  {
    FilterMembers(Before(lo), b);
    forall x | x in b && x.at < lo ensures x.at < c {
      assert x in Below(b, lo);
    }
    DownsampleSorted(v, b, lo, c);
    assert v.raw + Sorted(b, lo) == v.raw + From(b, lo) + Below(b, lo);
  }

  // ------------------------------------------------------------------- runs

  /** Registrations and saves, late or not. */
  predicate OnlySaves(es: seq<Event>) { forall e :: e in es ==> e.Register? || e.Save? }

  /** The samples that the store accepts while `es` follows `trace`. */
  function Accepted(trace: seq<Event>, es: seq<Event>): seq<Sample> {
    if es == [] then []
    else
      var init, e := es[..|es| - 1], es[|es| - 1];
      var db := Replay(trace + init);
      if e.Save? && e.server in db.servers then Accepted(trace, init) + [Inserted(db.tables.raw, e.server, e.values, e.at)]
      else Accepted(trace, init)
  }

  lemma {:induction false} SavesAdd(trace: seq<Event>, es: seq<Event>)
    requires OnlySaves(es)
    ensures var b := Accepted(trace, es);
      && Replay(trace + es).tables == Late(Replay(trace).tables, b)
      && History(trace + es) == History(trace) + b && Watermarks(trace + es) == Watermarks(trace)
  {
    if es == [] {
      assert trace + es == trace;
      assert Replay(trace).tables.raw + [] == Replay(trace).tables.raw && History(trace) + [] == History(trace);
    } else {
      var init, e := es[..|es| - 1], es[|es| - 1];
      assert es == init + [e];
      SavesAdd(trace, init);
      OneMore(trace + init, e);
      assert trace + init + [e] == trace + es;
      SaveAdds(Replay(trace).tables.raw, History(trace), Accepted(trace, init), Accepted(trace, es));
    }
  }

  lemma SaveAdds(raw: seq<Sample>, h: seq<Sample>, a: seq<Sample>, b: seq<Sample>)
    requires b == a || (|b| == |a| + 1 && b[..|a|] == a)
    ensures b != a ==> raw + b == raw + a + [b[|a|]] && h + b == h + a + [b[|a|]]
  {
    if b != a {
      assert b == a + [b[|a|]];
    }
  }

  lemma CallIsThreeSteps(trace: seq<Event>, call: Call)
    ensures trace + Committed(call, 3) == trace + [RollUpRaw(call)] + [RollUp5m(call)] + [Expiry(call)]
  {
  }

  /** The three transactions of one call, one after the other. */
  lemma CallEffect(trace: seq<Event>, call: Call)
    ensures var run := trace + Committed(call, 3);
      && Replay(run) == Replay(trace).(tables := Maintained(Replay(trace).tables, call.Cutoffs(), 3))
      && History(run) == History(trace) && Watermarks(run) == Raised(Watermarks(trace), call.Cutoffs(), 3)
  {
    CallIsThreeSteps(trace, call);
    var r1 := trace + [RollUpRaw(call)];
    OneMore(trace, RollUpRaw(call));
    OneMore(r1, RollUp5m(call));
    OneMore(r1 + [RollUp5m(call)], Expiry(call));
  }

  lemma CallIsLegal(trace: seq<Event>, call: Call)
    requires Legal(trace) && call.cfg.Valid()
    ensures Legal(trace + Committed(call, 3)) && (OnTime(trace) ==> OnTime(trace + Committed(call, 3)))
  {
    CallIsThreeSteps(trace, call);
    var r1 := trace + [RollUpRaw(call)];
    OneMore(trace, RollUpRaw(call));
    OneMore(r1, RollUp5m(call));
    OneMore(r1 + [RollUp5m(call)], Expiry(call));
    assert RollUpRaw(call) in r1 && RollUp5m(call) in r1 + [RollUp5m(call)];
  }

  /**
   * A run that is right so far goes on with any saves, late ones among them in any number and order,
   * and then makes one complete maintenance call with any clock reading and any valid configuration:
   * its tables are the view of its full history exactly when every late sample survives.
   */
  lemma {:induction false} LateSavesExact(trace: seq<Event>, es: seq<Event>, call: Call)
    requires Legal(trace) && Refines(trace) && OnlySaves(es) && call.cfg.Valid()
    requires Dated(Below(Accepted(trace, es), Watermarks(trace).raw), Watermarks(trace), call.Cutoffs())
    ensures var w := Watermarks(trace);
      Refines(trace + es + Committed(call, 3))
      <==> AllSurvive(Replay(trace).tables, w, Below(Accepted(trace, es), w.raw), call.Cutoffs())
  {
    WatermarksSettled(trace);
    CutoffsInOrder(call.cfg, call.now);
    SavesAdd(trace, es);
    CallEffect(trace + es, call);
    MixedSavesExact(History(trace), Watermarks(trace), Accepted(trace, es), call.Cutoffs());
  }

  /** The hourly call of an unchanged configuration reaches every late sample: only the bucket decides. */
  lemma LaterCallReaches(v: Tables, w: Cutoffs, x: Sample, c: Cutoffs)
    requires x.at < w.raw && w.raw <= c.raw && w.five <= c.five && w.hour <= c.hour
    ensures Survives(v, w, x, c) <==>
              (x.at < c.hour || if w.five <= x.at then KeyOf(x, FIVE_MINUTES) !in v.five else KeyOf(x, ONE_HOUR) !in v.hour)
  {
  }

  // ------------------------------------------------------------ a lossy run

  const LOSSY_CALL := Call(Config(1, 2, 3), 300_000_000_003)
  const LOSSY_CUTOFFS := Cutoffs(300_000, 0, 0)

  function LossyStart(v: Values): seq<Event> { [Register("s", 7), Save("s", v, 0)] }

  /** Two samples of one bucket; the second is saved after the first was rolled up. */
  function LossyRun(v: Values): seq<Event> {
    LossyStart(v) + Committed(LOSSY_CALL, 3) + [Save("s", v, 1)] + Committed(LOSSY_CALL, 3)
  }

  /** The row of a group that consists of one sample. */
  function Alone(x: Sample): Row { RowOf(GroupOf([x])) }

  lemma GroupAlone(x: Sample, size: pos)
    ensures GroupBy([x], size) == map[KeyOf(x, size) := Alone(x)]
  {
    GroupByAppend([], x, size);
    assert [] + [x] == [x];
  }

  lemma LossyCutoffs()
    ensures LOSSY_CALL.Cutoffs() == LOSSY_CUTOFFS
  {
    FiveMinuteCutoff(300_000_000_002);
    HourCutoff(300_000_000_001);
    HourCutoff(300_000_000_000);
  }

  lemma LossyStarts(v: Values)
    ensures var start := LossyStart(v);
      && Legal(start) && OnTime(start) && History(start) == [Sample(1, "s", v, 0)] && Watermarks(start) == Cutoffs(0, 0, 0)
      && Replay(start) == Db(map["s" := 7], Tables([Sample(1, "s", v, 0)], map[], map[]))
  {
    var none: seq<Event> := [];
    OneMore(none, Register("s", 7));
    OneMore(none + [Register("s", 7)], Save("s", v, 0));
    assert LossyStart(v) == none + [Register("s", 7)] + [Save("s", v, 0)];
    assert MaxId([]) == 0;
  }

  lemma LossyView(x: Sample)
    requires x.server == "s" && x.at == 0
    ensures View([x], LOSSY_CUTOFFS) == Tables([], map[Key("s", 0) := Alone(x)], map[])
  {
    FilterNone(AtLeast(300_000), [x]);
    FilterAll(Within(0, 300_000), [x]);
    FilterNone(Within(0, 0), [x]);
    GroupAlone(x, FIVE_MINUTES);
    assert GroupBy([], ONE_HOUR) == map[];
  }

  /** The tables of the run: the second sample's row has replaced the first's. */
  lemma LossyTables(x1: Sample, x2: Sample)
    requires x1.server == x2.server == "s" && x1.at == 0 && x2.at == 1
    ensures Maintained(Tables([x2], map[Key("s", 0) := Alone(x1)], map[]), LOSSY_CUTOFFS, 3)
         == Tables([], map[Key("s", 0) := Alone(x2)], map[])
  {
    LossyView(x1);
    LateRawStep([x1], LOSSY_CUTOFFS, [x2], 300_000);
    assert [] + [x2] == [x2];
    GroupAlone(x2, FIVE_MINUTES);
    LossyRest(x1, x2);
  }

  lemma LossyRest(x1: Sample, x2: Sample)
    ensures Rest(WithRows(Tables([], map[Key("s", 0) := Alone(x1)], map[]), map[Key("s", 0) := Alone(x2)]), LOSSY_CUTOFFS)
         == Tables([], map[Key("s", 0) := Alone(x2)], map[])
  {
    var five := map[Key("s", 0) := Alone(x2)];
    assert map[Key("s", 0) := Alone(x1)] + five == five;
    assert RowsBelow(five, 0) == map[] && RowsFrom(five, 0) == five;
    RegroupNothing(ONE_HOUR);
  }

  /** Both samples were accepted, one is left: the run does not meet the refinement. */
  lemma LateSampleCanBeLost(v: Values)
    ensures Legal(LossyRun(v)) && |History(LossyRun(v))| == 2 && !Refines(LossyRun(v))
    ensures Replay(LossyRun(v)).tables == Tables([], map[Key("s", 0) := Alone(Sample(1, "s", v, 1))], map[])
  {
    var start := LossyStart(v);
    LossyCutoffs();
    LossyStarts(v);
    OnTimeRunsRefine(start);
    CallEffect(start, LOSSY_CALL);
    CallIsLegal(start, LOSSY_CALL);
    OnTimeRunsRefine(start + Committed(LOSSY_CALL, 3));
    LossyView(Sample(1, "s", v, 0));
    LossyEnd(start + Committed(LOSSY_CALL, 3), v);
  }

  ghost predicate FirstRolledUp(rolled: seq<Event>, v: Values) {
    && Legal(rolled) && Refines(rolled) && Watermarks(rolled) == LOSSY_CUTOFFS && "s" in Replay(rolled).servers
    && History(rolled) == [Sample(1, "s", v, 0)]
    && Replay(rolled).tables == Tables([], map[Key("s", 0) := Alone(Sample(1, "s", v, 0))], map[])
  }

  lemma LossyEnd(rolled: seq<Event>, v: Values)
    requires FirstRolledUp(rolled, v)
    ensures var run := rolled + [Save("s", v, 1)] + Committed(LOSSY_CALL, 3);
      && Legal(run) && |History(run)| == 2 && !Refines(run)
      && Replay(run).tables == Tables([], map[Key("s", 0) := Alone(Sample(1, "s", v, 1))], map[])
  {
    var saved, x2 := rolled + [Save("s", v, 1)], Sample(1, "s", v, 1);
    assert MaxId([]) == 0 && Inserted([], "s", v, 1) == x2 && [] + [x2] == [x2];
    OneMore(rolled, Save("s", v, 1));
    LossyCutoffs();
    LossyTables(Sample(1, "s", v, 0), x2);
    CallEffect(saved, LOSSY_CALL);
    CallIsLegal(saved, LOSSY_CALL);
    LossyDoesNotRefine(rolled, v);
  }

  lemma LossyDoesNotRefine(rolled: seq<Event>, v: Values)
    requires FirstRolledUp(rolled, v)
    ensures !Refines(rolled + [Save("s", v, 1)] + Committed(LOSSY_CALL, 3))
  {
    var x2, es := Sample(1, "s", v, 1), [Save("s", v, 1)];
    LossyAccepted(rolled, v);
    LossyCutoffs();
    LateSavesExact(rolled, es, LOSSY_CALL);
    LossyClash(Replay(rolled).tables, x2);
    assert x2 in [x2];
  }

  lemma LossyAccepted(rolled: seq<Event>, v: Values)
    requires FirstRolledUp(rolled, v)
    ensures var x2 := Sample(1, "s", v, 1);
      Accepted(rolled, [Save("s", v, 1)]) == [x2] && Below([x2], 300_000) == [x2] && OnlySaves([Save("s", v, 1)])
  {
    var x2, es := Sample(1, "s", v, 1), [Save("s", v, 1)];
    assert MaxId([]) == 0 && Inserted([], "s", v, 1) == x2;
    assert es[..0] == [] && rolled + [] == rolled && [] + [x2] == [x2];
    assert Accepted(rolled, []) == [];
    FilterAll(Before(300_000), [x2]);
  }

  lemma LossyClash(t: Tables, x: Sample)
    requires x.server == "s" && x.at == 1 && Key("s", 0) in t.five
    ensures !Survives(t, LOSSY_CUTOFFS, x, LOSSY_CUTOFFS)
  {
    assert KeyOf(x, FIVE_MINUTES) == Key("s", 0);
  }
}
