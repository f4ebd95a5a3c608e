/**
 * Samples, bucket rows and the aggregation that the roll-up queries perform.
 * Averages are exact reals: floating-point rounding is not modelled.
 */
module Aggregates {
  import opened Wrappers
  import opened Sequences

  datatype Values = Values(cpu: real, memory: real, disk: real, load: real, uptime: int)

  /** A row of table `metrics`; `at` is `collected_at` in Unix milliseconds. */
  datatype Sample = Sample(id: int, server: string, values: Values, at: int)

  /** One metric of an aggregated row. */
  datatype Stat = Stat(avg: real, min: real, max: real)

  /** A row of `metrics_5m` or `metrics_1h` without its primary key. */
  datatype Row = Row(cpu: Stat, memory: Stat, disk: Stat, load: Stat, uptimeMax: int, count: pos)

  /** The accumulators behind SUM, MIN, MAX and COUNT over one group. */
  datatype Tally = Tally(sum: real, min: real, max: real)
  datatype Group =
    | Empty
    | Group(cpu: Tally, memory: Tally, disk: Tally, load: Tally, uptime: int, count: pos)

  function MinR(a: real, b: real): real { if a <= b then a else b }
  function MaxR(a: real, b: real): real { if a <= b then b else a }
  function MaxI(a: int, b: int): int { if a <= b then b else a }

  function JoinTally(a: Tally, b: Tally): Tally {
    Tally(a.sum + b.sum, MinR(a.min, b.min), MaxR(a.max, b.max))
  }

  /** The accumulators of two disjoint groups taken together. */
  function Join(a: Group, b: Group): Group {
    if a.Empty? then b
    else if b.Empty? then a
    else Group(JoinTally(a.cpu, b.cpu), JoinTally(a.memory, b.memory), JoinTally(a.disk, b.disk),
               JoinTally(a.load, b.load), MaxI(a.uptime, b.uptime), a.count + b.count)
  }

  lemma JoinLaws(a: Group, b: Group, c: Group)
    ensures Join(Join(a, b), c) == Join(a, Join(b, c))
    ensures Join(a, b) == Join(b, a)
  {
  }

  function Single(v: real): Tally { Tally(v, v, v) }

  function One(v: Values): Group {
    Group(Single(v.cpu), Single(v.memory), Single(v.disk), Single(v.load), v.uptime, 1)
  }

  /** What `SELECT AVG, MIN, MAX, COUNT` accumulates over the samples `ss`. */
  function GroupOf(ss: seq<Sample>): (g: Group)
    ensures g.Empty? <==> ss == []
    ensures g.Group? ==> g.count == |ss|
  {
    if ss == [] then Empty
    else Join(GroupOf(ss[..|ss| - 1]), One(ss[|ss| - 1].values))
  }

  function StatOf(t: Tally, n: pos): Stat { Stat(t.sum / n as real, t.min, t.max) }

  /** The result columns of a non-empty group. */
  function RowOf(g: Group): Row
    requires g.Group?
  {
    Row(StatOf(g.cpu, g.count), StatOf(g.memory, g.count), StatOf(g.disk, g.count),
        StatOf(g.load, g.count), g.uptime, g.count)
  }

  function TallyOf(s: Stat, n: pos): Tally { Tally(s.avg * n as real, s.min, s.max) }

  /** What one bucket row contributes to `SUM(avg*sample_count)`, `MIN(min)`, `MAX(max)`. */
  function Weighted(r: Row): Group {
    Group(TallyOf(r.cpu, r.count), TallyOf(r.memory, r.count), TallyOf(r.disk, r.count),
          TallyOf(r.load, r.count), r.uptimeMax, r.count)
  }

  lemma TallyBack(t: Tally, n: pos)
    ensures TallyOf(StatOf(t, n), n) == t
  {
    assert t.sum / n as real * n as real == t.sum;
  }

  /** Weighting a row's average by its count recovers the sum it was computed from. */
  lemma WeightedBack(g: Group)
    requires g.Group?
    ensures Weighted(RowOf(g)) == g
  {
    TallyBack(g.cpu, g.count);
    TallyBack(g.memory, g.count);
    TallyBack(g.disk, g.count);
    TallyBack(g.load, g.count);
  }

  /** Aggregating a disjoint union joins the two aggregates, however the rows interleave. */
  lemma {:induction false} GroupOfUnion(p: Sample -> bool, q: Sample -> bool, ss: seq<Sample>)
    requires forall x :: x in ss ==> !(p(x) && q(x))
    ensures GroupOf(Filter(Either(p, q), ss)) == Join(GroupOf(Filter(p, ss)), GroupOf(Filter(q, ss)))
  {
    if ss != [] {
      var init, x := ss[..|ss| - 1], ss[|ss| - 1];
      GroupOfUnion(p, q, init);
      var a, b := Filter(p, init), Filter(q, init);
      GroupOfAppend(a, x);
      GroupOfAppend(b, x);
      GroupOfAppend(Filter(Either(p, q), init), x);
      JoinLaws(GroupOf(a), GroupOf(b), One(x.values));
      JoinLaws(GroupOf(a), One(x.values), GroupOf(b));
      JoinLaws(One(x.values), GroupOf(b), One(x.values));
    }
  }

  lemma GroupOfAppend(ss: seq<Sample>, x: Sample)
    ensures GroupOf(ss + [x]) == Join(GroupOf(ss), One(x.values))
  {
    assert (ss + [x])[..|ss|] == ss;
  }

  // ---------------------------------------------------------------- buckets

  /** The primary key of an aggregated table. */
  datatype Key = Key(server: string, bucket: int)

  /** SQLite integer division truncates toward zero. */
  function SqlDiv(a: int, b: pos): int {
    if a >= 0 then a / b else -((-a) / b)
  }

  /** `(t / size) * size` as SQLite computes it. */
  function SqlBucket(t: int, size: pos): int { SqlDiv(t, size) * size }

  function KeyOf(x: Sample, size: pos): Key { Key(x.server, SqlBucket(x.at, size)) }

  function Keys(ss: seq<Sample>, size: pos): set<Key> {
    set i | 0 <= i < |ss| :: KeyOf(ss[i], size)
  }

  function InGroup(k: Key, size: pos): Sample -> bool { (x: Sample) => KeyOf(x, size) == k }

  lemma GroupNonEmpty(ss: seq<Sample>, size: pos, k: Key)
    ensures Filter(InGroup(k, size), ss) != [] <==> k in Keys(ss, size)
  {
    var sel := Filter(InGroup(k, size), ss);
    FilterMembers(InGroup(k, size), ss);
    if k in Keys(ss, size) {
      var i :| 0 <= i < |ss| && KeyOf(ss[i], size) == k;
      assert ss[i] in ss;
      assert ss[i] in sel;
    }
    if sel != [] {
      assert sel[0] in sel;
    }
  }

  /** `SELECT ... FROM metrics GROUP BY server_id, (collected_at / size) * size`. */
  function GroupBy(ss: seq<Sample>, size: pos): map<Key, Row> {
    map k | k in Keys(ss, size) ::
      GroupNonEmpty(ss, size, k);
      RowOf(GroupOf(Filter(InGroup(k, size), ss)))
  }

  /** Aggregates the bucket rows of one server whose bucket start lies in `[lo, hi)`. */
  function MergeRange(m: map<Key, Row>, server: string, lo: int, hi: int): Group
    decreases hi - lo
  {
    if hi <= lo then Empty
    else
      var k := Key(server, hi - 1);
      Join(MergeRange(m, server, lo, hi - 1), if k in m then Weighted(m[k]) else Empty)
  }

  /** The half-open range of bucket starts that SQLite's division sends to group `g`. */
  function GroupLow(g: int, size: pos): int { if g > 0 then g else g - size + 1 }
  function GroupHigh(g: int, size: pos): int { if g >= 0 then g + size else g + 1 }

  lemma GroupRange(t: int, g: int, size: pos)
    requires g % size == 0
    ensures SqlBucket(t, size) == g <==> GroupLow(g, size) <= t < GroupHigh(g, size)
  {
    var n, q := g / size, SqlDiv(t, size);
    assert g == n * size by { DivBack(g, size); }
    MulOrder(q, n, size);
    MulOrder(n, q, size);
    if t >= 0 {
      DivBounds(t, size);
      MulOrder(-1, n, size);
    } else {
      DivBounds(-t, size);
      MulNegate((-t) / size, size);
      MulOrder(n, 1, size);
      MulOrder(n, 0, size);
    }
  }

  lemma DivBounds(t: int, size: pos)
    requires t >= 0
    ensures 0 <= t / size
    ensures (t / size) * size <= t < (t / size) * size + size
  {
  }

  lemma DivBack(g: int, size: pos)
    requires g % size == 0
    ensures g == (g / size) * size
  {
  }

  lemma MulNegate(a: int, b: int)
    ensures (-a) * b == -(a * b)
  {
  }

  /** Multiples of `size` that differ are at least `size` apart. */
  lemma MulOrder(a: int, b: int, size: pos)
    ensures a < b ==> a * size + size <= b * size
    ensures 0 * size == 0 && 1 * size == size && -1 * size == 0 - size
  {
    if a < b {
      MulNonNegative(b - a - 1, size);
      Distribute(b - a - 1, a + 1, size);
      Distribute(a, 1, size);
    }
  }

  lemma MulNonNegative(a: int, b: int)
    requires a >= 0 && b >= 0
    ensures a * b >= 0
  {
  }

  lemma Distribute(a: int, b: int, c: int)
    ensures (a + b) * c == a * c + b * c
  {
  }

  lemma BucketAligned(t: int, size: pos)
    ensures SqlBucket(t, size) % size == 0
  {
    var d := SqlDiv(t, size);
    assert d * size == size * d + 0;
    MulMod(d, size);
  }

  lemma MulMod(d: int, size: pos)
    ensures (d * size) % size == 0
  {
    var x := d * size;
    var q := x / size;
    EuclidBounds(x, size);
    MulOrder(d, q, size);
    MulOrder(q, d, size);
  }

  lemma EuclidBounds(x: int, size: pos)
    ensures x == (x / size) * size + x % size && 0 <= x % size < size
  {
  }

  function Coarse(m: map<Key, Row>, size: pos): set<Key> {
    set k | k in m :: Key(k.server, SqlBucket(k.bucket, size))
  }

  lemma {:induction false} MergeNonEmpty(m: map<Key, Row>, server: string, lo: int, hi: int, b: int)
    requires lo <= b < hi && Key(server, b) in m
    ensures MergeRange(m, server, lo, hi).Group?
    decreases hi - lo
  {
    if b < hi - 1 {
      MergeNonEmpty(m, server, lo, hi - 1, b);
    }
  }

  lemma CoarseNonEmpty(m: map<Key, Row>, size: pos, g: Key)
    requires g in Coarse(m, size)
    ensures MergeRange(m, g.server, GroupLow(g.bucket, size), GroupHigh(g.bucket, size)).Group?
  {
    var k :| k in m && Key(k.server, SqlBucket(k.bucket, size)) == g;
    BucketAligned(k.bucket, size);
    GroupRange(k.bucket, g.bucket, size);
    MergeNonEmpty(m, g.server, GroupLow(g.bucket, size), GroupHigh(g.bucket, size), k.bucket);
  }

  /** `SELECT SUM(avg*sample_count)/SUM(sample_count), ... GROUP BY server_id, (bucket_start / size) * size`. */
  function Regroup(m: map<Key, Row>, size: pos): map<Key, Row> {
    map g | g in Coarse(m, size) ::
      CoarseNonEmpty(m, size, g);
      RowOf(MergeRange(m, g.server, GroupLow(g.bucket, size), GroupHigh(g.bucket, size)))
  }

  // ------------------------------------------- regrouping equals direct grouping

  function InRange(server: string, lo: int, hi: int, size: pos): Sample -> bool {
    (x: Sample) => x.server == server && lo <= SqlBucket(x.at, size) < hi
  }

  lemma {:induction false} MergeIsGroup(ss: seq<Sample>, size: pos, server: string, lo: int, hi: int)
    ensures MergeRange(GroupBy(ss, size), server, lo, hi) == GroupOf(Filter(InRange(server, lo, hi, size), ss))
    decreases hi - lo
  {
    if hi <= lo {
      FilterNone(InRange(server, lo, hi, size), ss);
    } else {
      var k := Key(server, hi - 1);
      var m := GroupBy(ss, size);
      MergeIsGroup(ss, size, server, lo, hi - 1);
      var p, q := InRange(server, lo, hi - 1, size), InGroup(k, size);
      GroupOfUnion(p, q, ss);
      FilterSame(Either(p, q), InRange(server, lo, hi, size), ss);
      GroupNonEmpty(ss, size, k);
      if k in m {
        WeightedBack(GroupOf(Filter(q, ss)));
      }
    }
  }

  lemma NestedBuckets(t: int, fine: pos, coarse: pos)
    requires coarse % fine == 0
    ensures SqlBucket(SqlBucket(t, fine), coarse) == SqlBucket(t, coarse)
  {
    var c, f := SqlBucket(t, coarse), SqlBucket(t, fine);
    var n, m, r := SqlDiv(t, coarse), SqlDiv(t, fine), coarse / fine;
    BucketAligned(t, coarse);
    BucketAligned(t, fine);
    GroupRange(t, c, coarse);
    GroupRange(t, f, fine);
    assert coarse == r * fine by { DivBack(coarse, fine); }
    assert c == (n * r) * fine by { Associate(n, r, fine); }
    Distribute(n * r, r, fine);
    Distribute(n * r, -r, fine);
    MulNegate(r, fine);
    MulOrder(m, n * r, fine);
    MulOrder(n * r, m, fine);
    MulOrder(m, n * r + r, fine);
    MulOrder(n * r - r, m, fine);
    GroupRange(f, c, coarse);
  }

  lemma Associate(a: int, b: int, c: int)
    ensures a * (b * c) == (a * b) * c
  {
  }

  /**
   * Rolling samples up to fine buckets and those rows up to coarse buckets gives exactly the
   * rows that grouping the samples by the coarse bucket gives, for every sequence of samples.
   */
  lemma {:induction false} RegroupIsDirect(ss: seq<Sample>, fine: pos, coarse: pos)
    requires coarse % fine == 0
    ensures Regroup(GroupBy(ss, fine), coarse) == GroupBy(ss, coarse)
  {
    var m := GroupBy(ss, fine);
    forall t ensures SqlBucket(SqlBucket(t, fine), coarse) == SqlBucket(t, coarse) {
      NestedBuckets(t, fine, coarse);
    }
    assert Coarse(m, coarse) == Keys(ss, coarse) by {
      forall g | g in Coarse(m, coarse) ensures g in Keys(ss, coarse) {
        var k :| k in m && Key(k.server, SqlBucket(k.bucket, coarse)) == g;
        var i :| 0 <= i < |ss| && KeyOf(ss[i], fine) == k;
        assert KeyOf(ss[i], coarse) == g;
      }
      forall g | g in Keys(ss, coarse) ensures g in Coarse(m, coarse) {
        var i :| 0 <= i < |ss| && KeyOf(ss[i], coarse) == g;
        assert KeyOf(ss[i], fine) in m;
      }
    }
    forall g | g in Keys(ss, coarse)
      ensures MergeRange(m, g.server, GroupLow(g.bucket, coarse), GroupHigh(g.bucket, coarse))
           == GroupOf(Filter(InGroup(g, coarse), ss))
    {
      var lo, hi := GroupLow(g.bucket, coarse), GroupHigh(g.bucket, coarse);
      MergeIsGroup(ss, fine, g.server, lo, hi);
      var i :| 0 <= i < |ss| && KeyOf(ss[i], coarse) == g;
      BucketAligned(ss[i].at, coarse);
      forall x | x in ss ensures InRange(g.server, lo, hi, fine)(x) == InGroup(g, coarse)(x) {
        GroupRange(SqlBucket(x.at, fine), g.bucket, coarse);
      }
      FilterSame(InRange(g.server, lo, hi, fine), InGroup(g, coarse), ss);
    }
  }
}
