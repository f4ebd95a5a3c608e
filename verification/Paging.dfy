/** Cursor paging over the raw samples of one server, newest first. */
module Paging {
  import opened Wrappers
  import opened Sequences
  import opened Aggregates
  import opened Retention
  import opened Refinement

  const ZERO_TIME: int := -62_135_596_800_000  // Go's zero time, in Unix milliseconds

  /** `ORDER BY collected_at DESC, id DESC`. */
  predicate Precedes(a: Sample, b: Sample) { a.at > b.at || (a.at == b.at && a.id > b.id) }

  predicate Ordered(s: seq<Sample>) { forall i, j :: 0 <= i < j < |s| ==> Precedes(s[i], s[j]) }

  function Insert(x: Sample, s: seq<Sample>): seq<Sample> {
    if s == [] || Precedes(s[|s| - 1], x) then s + [x]
    else Insert(x, s[..|s| - 1]) + [s[|s| - 1]]
  }

  function Sort(ss: seq<Sample>): seq<Sample> {
    if ss == [] then [] else Insert(ss[|ss| - 1], Sort(ss[..|ss| - 1]))
  }

  predicate DistinctIds(ss: seq<Sample>) { forall i, j :: 0 <= i < j < |ss| ==> ss[i].id < ss[j].id }

  /** `before` is absent for the first page. */
  function Match(server: string, before: Option<int>): Sample -> bool {
    (x: Sample) => x.server == server && (before.Some? ==> x.at < before.value)
  }

  /** The rows that `MetricsHistory` selects, before the limit. */
  function Remaining(raw: seq<Sample>, server: string, before: Option<int>): seq<Sample> {
    Sort(Filter(Match(server, before), raw))
  }

  datatype Page = Page(data: seq<Sample>, hasMore: bool, next: Option<int>)

  function PageOf(rows: seq<Sample>, limit: pos): Page {
    if |rows| > limit then Page(rows[..limit], true, Some(rows[limit - 1].at)) else Page(rows, false, None)
  }

  /** The handler's reading of a cursor: the zero time counts as no cursor. */
  function CursorTime(cursor: int): Option<int> { if cursor == ZERO_TIME then None else Some(cursor) }

  datatype LimitText = Absent | NotANumber | Number(n: int)

  /** `historyParameters`: 100 by default, otherwise between 1 and 500. */
  function Limit(t: LimitText): (r: Option<pos>)
    ensures r.Some? <==> t.Absent? || (t.Number? && 1 <= t.n <= 500)
    ensures r.Some? ==> r.value == if t.Number? then t.n else 100
  {
    match t
    case Absent => Some(100)
    case NotANumber => None
    case Number(n) => if n < 1 || n > 500 then None else Some(n as pos)
  }

  /** `x` is newer than `y`, or as new and saved later. */
  predicate Newer(x: Sample, y: Sample) { x.at > y.at || (x.at == y.at && x.id > y.id) }

  /** The newest rows of the server before the cursor, newest first; fewer than the limit only if there are no more. */
  ghost predicate IsNewest(out: seq<Sample>, raw: seq<Sample>, server: string, limit: nat, before: Option<int>) {
    && (forall i, j :: 0 <= i < j < |out| ==> Newer(out[i], out[j]))
    && (forall x :: x in out ==> x in raw && x.server == server && (before.Some? ==> x.at < before.value))
    && |out| <= limit
    && (forall x :: x in raw && x.server == server && (before.Some? ==> x.at < before.value) && x !in out ==>
          |out| == limit && forall y :: y in out ==> Newer(y, x))
  }

  /** `MetricsHistory` with its LIMIT clause. */
  method MetricsHistory(store: MetricStore, server: string, limit: nat, before: Option<int>) returns (out: seq<Sample>)
    ensures var rows := Remaining(store.raw, server, before);
      out == if |rows| <= limit then rows else rows[..limit]
    ensures DistinctIds(store.raw) ==> IsNewest(out, store.raw, server, limit, before)
  {
    out := FirstRows(Remaining(store.raw, server, before), limit);
    if DistinctIds(store.raw) {
      NewestFirst(store.raw, server, limit, before);
    }
  }

  /** The loop over the selected rows. */
  method FirstRows(rows: seq<Sample>, limit: nat) returns (out: seq<Sample>)
    ensures out == if |rows| <= limit then rows else rows[..limit]
  {
    out := [];
    var i := 0;
    while i < |rows| && i < limit
      invariant 0 <= i <= |rows| && i <= limit && out == rows[..i]
    {
      out := out + [rows[i]];
      i := i + 1;
    }
  }

  /** The handler asks for one row more than the page holds. */
  method HistoryPage(store: MetricStore, server: string, limit: pos, before: Option<int>) returns (p: Page)
    ensures p == PageOf(Remaining(store.raw, server, before), limit)
  {
    var records := MetricsHistory(store, server, limit + 1, before);
    var hasMore := |records| > limit;
    if hasMore {
      records := records[..limit];
    }
    var next := None;
    if hasMore && |records| > 0 {
      next := Some(records[|records| - 1].at);
    }
    p := Page(records, hasMore, next);
  }

  // ------------------------------------------------------------------ sorting

  lemma {:induction false} InsertOrdered(x: Sample, s: seq<Sample>)
    requires Ordered(s) && forall y :: y in s ==> y.id != x.id
    ensures Ordered(Insert(x, s))
    ensures forall y :: y in Insert(x, s) <==> y == x || y in s
    ensures |Insert(x, s)| == |s| + 1
  {
    if s != [] {
      var last := s[|s| - 1];
      assert s == s[..|s| - 1] + [last];
      if !Precedes(last, x) {
        InsertOrdered(x, s[..|s| - 1]);
        var r := Insert(x, s[..|s| - 1]);
        forall i | 0 <= i < |r| ensures Precedes(r[i], last) {
          assert r[i] in r;
        }
      }
    }
  }

  lemma {:induction false} SortOrdered(ss: seq<Sample>)
    requires DistinctIds(ss)
    ensures Ordered(Sort(ss)) && |Sort(ss)| == |ss|
    ensures forall y :: y in Sort(ss) <==> y in ss
  {
    if ss != [] {
      var init, x := ss[..|ss| - 1], ss[|ss| - 1];
      SortOrdered(init);
      assert ss == init + [x];
      forall y | y in Sort(init) ensures y.id != x.id {
        var i :| 0 <= i < |init| && init[i] == y;
      }
      InsertOrdered(x, Sort(init));
    }
  }

  lemma {:induction false} FilterOrdered(p: Sample -> bool, s: seq<Sample>)
    requires Ordered(s)
    ensures Ordered(Filter(p, s))
  {
    if s != [] {
      FilterOrdered(p, s[..|s| - 1]);
      FilterMembers(p, s[..|s| - 1]);
      var r := Filter(p, s[..|s| - 1]);
      forall i | 0 <= i < |r| ensures Precedes(r[i], s[|s| - 1]) {
        assert r[i] in r;
      }
    }
  }

  lemma {:induction false} FilterInsert(p: Sample -> bool, x: Sample, s: seq<Sample>)
    requires Ordered(s) && forall y :: y in s ==> y.id != x.id
    ensures Filter(p, Insert(x, s)) == if p(x) then Insert(x, Filter(p, s)) else Filter(p, s)
  {
    if s == [] || Precedes(s[|s| - 1], x) {
      FilterAppend(p, s, x);
      FilterMembers(p, s);
      InsertLast(x, s, Filter(p, s));
    } else {
      var init, last := s[..|s| - 1], s[|s| - 1];
      FilterInsert(p, x, init);
      FilterAppend(p, Insert(x, init), last);
      InsertBefore(x, Filter(p, init), last);
    }
  }

  /** What comes after every row of `s` comes after every row of a selection of `s`. */
  lemma InsertLast(x: Sample, s: seq<Sample>, r: seq<Sample>)
    requires Ordered(s) && (s != [] ==> Precedes(s[|s| - 1], x)) && forall y :: y in r ==> y in s
    ensures Insert(x, r) == r + [x]
  {
    if r != [] {
      assert r[|r| - 1] in r;
      var i :| 0 <= i < |s| && s[i] == r[|r| - 1];
      assert i < |s| - 1 ==> Precedes(s[i], s[|s| - 1]);
    }
  }

  lemma InsertBefore(x: Sample, r: seq<Sample>, last: Sample)
    requires !Precedes(last, x)
    ensures Insert(x, r + [last]) == Insert(x, r) + [last]
  {
    assert (r + [last])[..|r|] == r;
  }

  /** Selecting before or after sorting is the same. */
  lemma {:induction false} FilterSort(p: Sample -> bool, ss: seq<Sample>)
    requires DistinctIds(ss)
    ensures Filter(p, Sort(ss)) == Sort(Filter(p, ss))
  {
    if ss != [] {
      var init, x := ss[..|ss| - 1], ss[|ss| - 1];
      FilterSort(p, init);
      SortOrdered(init);
      forall y | y in Sort(init) ensures y.id != x.id {
        var i :| 0 <= i < |init| && init[i] == y;
      }
      FilterInsert(p, x, Sort(init));
      if p(x) {
        assert (Filter(p, init) + [x])[..|Filter(p, init)|] == Filter(p, init);
      }
    }
  }

  lemma {:induction false} FilterDistinct(p: Sample -> bool, ss: seq<Sample>)
    requires DistinctIds(ss)
    ensures DistinctIds(Filter(p, ss))
  {
    if ss != [] {
      FilterDistinct(p, ss[..|ss| - 1]);
      FilterMembers(p, ss[..|ss| - 1]);
      var r := Filter(p, ss[..|ss| - 1]);
      forall i | 0 <= i < |r| ensures r[i].id < ss[|ss| - 1].id {
        assert r[i] in r;
      }
    }
  }

  lemma RemainingOrdered(raw: seq<Sample>, server: string, before: Option<int>)
    requires DistinctIds(raw)
    ensures Ordered(Remaining(raw, server, before))
  {
    FilterDistinct(Match(server, before), raw);
    SortOrdered(Filter(Match(server, before), raw));
  }

  lemma {:induction false} NewestFirst(raw: seq<Sample>, server: string, limit: nat, before: Option<int>)
    requires DistinctIds(raw)
    ensures var rows := Remaining(raw, server, before);
      IsNewest(if |rows| <= limit then rows else rows[..limit], raw, server, limit, before)
  {
    var rows := Remaining(raw, server, before);
    RemainingOrdered(raw, server, before);
    RemainingMembers(raw, server, before);
    CutIsNewest(rows, raw, server, limit, before);
  }

  lemma {:induction false} CutIsNewest(rows: seq<Sample>, raw: seq<Sample>, server: string, limit: nat, before: Option<int>)
    requires Ordered(rows) && forall x :: x in rows <==> x in raw && x.server == server && (before.Some? ==> x.at < before.value)
    ensures IsNewest(if |rows| <= limit then rows else rows[..limit], raw, server, limit, before)
  {
    var out := if |rows| <= limit then rows else rows[..limit];
    forall i, j | 0 <= i < j < |out| ensures Newer(out[i], out[j]) {
      assert Precedes(rows[i], rows[j]);
    }
    forall x | x in rows && x !in out ensures |out| == limit && forall y :: y in out ==> Newer(y, x) {
      var tail := rows[|out|..];
      assert rows == out + tail && x in tail;
      var k :| 0 <= k < |tail| && tail[k] == x;
      forall y | y in out ensures Newer(y, x) {
        var i :| 0 <= i < |out| && out[i] == y;
        assert Precedes(rows[i], rows[|out| + k]);
      }
    }
  }

  /** Asking with a cursor drops exactly the rows that are not older than it. */
  lemma RemainingAfter(raw: seq<Sample>, server: string, before: Option<int>, cursor: int)
    requires DistinctIds(raw) && (before.Some? ==> cursor <= before.value)
    ensures Remaining(raw, server, Some(cursor)) == Filter(Before(cursor), Remaining(raw, server, before))
  {
    var p, q := Match(server, before), Before(cursor);
    FilterDistinct(p, raw);
    FilterSort(q, Filter(p, raw));
    FilterTwice(p, q, raw);
    FilterSame(Both(p, q), Match(server, Some(cursor)), raw);
  }

  // ---------------------------------------------------------------- following

  /** Pages until `has_more` is false, over the rows that remain. */
  function Pages(rows: seq<Sample>, limit: pos): seq<seq<Sample>>
    decreases |rows|
  {
    if |rows| <= limit then [rows]
    else
      CursorShrinks(rows, limit);
      [rows[..limit]] + Pages(Filter(Before(rows[limit - 1].at), rows), limit)
  }

  lemma {:induction false} FilterShorter(p: Sample -> bool, s: seq<Sample>, x: Sample)
    requires x in s && !p(x)
    ensures |Filter(p, s)| < |s|
  {
    var init, last := s[..|s| - 1], s[|s| - 1];
    assert s == init + [last];
    if last != x {
      FilterShorter(p, init, x);
    }
  }

  lemma CursorShrinks(rows: seq<Sample>, limit: pos)
    requires |rows| > limit
    ensures |Filter(Before(rows[limit - 1].at), rows)| < |rows|
  {
    FilterShorter(Before(rows[limit - 1].at), rows, rows[limit - 1]);
  }

  /** No page with a successor ends at Go's zero time. */
  predicate NoZeroCursor(rows: seq<Sample>, limit: pos)
    decreases |rows|
  {
    if |rows| <= limit then true
    else
      CursorShrinks(rows, limit);
      rows[limit - 1].at != ZERO_TIME && NoZeroCursor(Filter(Before(rows[limit - 1].at), rows), limit)
  }

  /** A client that follows `next_cursor`, on a table that does not change. */
  function Follow(raw: seq<Sample>, server: string, limit: pos, before: Option<int>): seq<seq<Sample>>
    requires DistinctIds(raw) && NoZeroCursor(Remaining(raw, server, before), limit)
    decreases |Remaining(raw, server, before)|
  {
    var rows := Remaining(raw, server, before);
    var page := PageOf(rows, limit);
    if !page.hasMore then [page.data]
    else
      CursorAdvances(raw, server, limit, before);
      [page.data] + Follow(raw, server, limit, CursorTime(page.next.value))
  }

  lemma RemainingMembers(raw: seq<Sample>, server: string, before: Option<int>)
    requires DistinctIds(raw)
    ensures forall x :: x in Remaining(raw, server, before) <==> x in raw && Match(server, before)(x)
  {
    FilterDistinct(Match(server, before), raw);
    SortOrdered(Filter(Match(server, before), raw));
    FilterMembers(Match(server, before), raw);
  }

  lemma CursorAdvances(raw: seq<Sample>, server: string, limit: pos, before: Option<int>)
    requires DistinctIds(raw) && |Remaining(raw, server, before)| > limit
    ensures var rows := Remaining(raw, server, before); var cursor := rows[limit - 1].at;
      && rows[limit - 1] in raw && rows[limit - 1].server == server
      && Remaining(raw, server, Some(cursor)) == Filter(Before(cursor), rows)
      && |Remaining(raw, server, Some(cursor))| < |rows|
  {
    var rows := Remaining(raw, server, before);
    RemainingMembers(raw, server, before);
    assert rows[limit - 1] in rows;
    RemainingAfter(raw, server, before, rows[limit - 1].at);
    CursorShrinks(rows, limit);
  }

  lemma {:induction false} FollowIsPages(raw: seq<Sample>, server: string, limit: pos, before: Option<int>)
    requires DistinctIds(raw) && NoZeroCursor(Remaining(raw, server, before), limit)
    ensures Follow(raw, server, limit, before) == Pages(Remaining(raw, server, before), limit)
    decreases |Remaining(raw, server, before)|
  {
    var rows := Remaining(raw, server, before);
    if |rows| > limit {
      CursorAdvances(raw, server, limit, before);
      FollowIsPages(raw, server, limit, Some(rows[limit - 1].at));
    }
  }

  // ------------------------------------------------------------ when it ends

  /** What a client asks for next: a page before some time, the first page, or nothing more. */
  datatype Request = Ask(before: Option<int>) | Stop

  function NextRequest(raw: seq<Sample>, server: string, limit: pos, r: Request): Request {
    match r
    case Stop => Stop
    case Ask(before) =>
      var page := PageOf(Remaining(raw, server, before), limit);
      if page.hasMore then Ask(CursorTime(page.next.value)) else Stop
  }

  /** The answer to one request decides the next. */
  function Answers(raw: seq<Sample>, server: string, limit: pos): Request -> Request {
    r => NextRequest(raw, server, limit, r)
  }

  /** The request after `n` answers, starting with the first page. */
  function RequestAt(answers: Request -> Request, n: nat): Request {
    if n == 0 then Ask(None) else answers(RequestAt(answers, n - 1))
  }

  ghost predicate WalkEnds(raw: seq<Sample>, server: string, limit: pos) {
    exists n: nat :: RequestAt(Answers(raw, server, limit), n).Stop?
  }

  lemma OneRequest(answers: Request -> Request, n: nat)
    ensures RequestAt(answers, n + 1) == answers(RequestAt(answers, n))
  {
  }

  /** What follows a page with a successor, and what follows the last page. */
  lemma {:induction false} AfterPage(raw: seq<Sample>, server: string, limit: pos, before: Option<int>, n: nat)
    requires DistinctIds(raw) && RequestAt(Answers(raw, server, limit), n) == Ask(before)
    ensures var rows := Remaining(raw, server, before);
      RequestAt(Answers(raw, server, limit), n + 1)
      == if |rows| > limit then Ask(CursorTime(rows[limit - 1].at)) else Stop
  {
    OneRequest(Answers(raw, server, limit), n);
  }

  lemma {:induction false} WalkOn(raw: seq<Sample>, server: string, limit: pos, before: Option<int>, n: nat)
    requires DistinctIds(raw) && RequestAt(Answers(raw, server, limit), n) == Ask(before)
    requires NoZeroCursor(Remaining(raw, server, before), limit)
    ensures WalkEnds(raw, server, limit)
    decreases |Remaining(raw, server, before)|
  {
    var rows := Remaining(raw, server, before);
    AfterPage(raw, server, limit, before, n);
    if |rows| > limit {
      CursorAdvances(raw, server, limit, before);
      WalkOn(raw, server, limit, Some(rows[limit - 1].at), n + 1);
    }
  }

  /** No answer from `n` to `m` is the last one. */
  ghost predicate AsksOn(answers: Request -> Request, n: nat, m: nat) {
    forall k: nat :: n <= k <= m ==> RequestAt(answers, k).Ask?
  }

  lemma {:induction false} StepToZero(raw: seq<Sample>, server: string, limit: pos, before: Option<int>, n: nat) returns (next: Option<int>)
    requires DistinctIds(raw) && RequestAt(Answers(raw, server, limit), n) == Ask(before)
    requires !NoZeroCursor(Remaining(raw, server, before), limit)
    ensures RequestAt(Answers(raw, server, limit), n + 1) == Ask(next)
    ensures next.Some? ==>
              && |Remaining(raw, server, next)| < |Remaining(raw, server, before)|
              && !NoZeroCursor(Remaining(raw, server, next), limit)
  {
    var rows := Remaining(raw, server, before);
    AfterPage(raw, server, limit, before, n);
    next := CursorTime(rows[limit - 1].at);
    CursorAdvances(raw, server, limit, before);
  }

  lemma {:induction false} AskedFrom(answers: Request -> Request, n: nat, m: nat)
    requires RequestAt(answers, n).Ask? && RequestAt(answers, n + 1).Ask? && (m == n + 1 || AsksOn(answers, n + 1, m))
    ensures AsksOn(answers, n, m)
  {
  }

  /** A walk that meets a zero cursor asks for the first page again. */
  lemma {:induction false} ReachesZero(raw: seq<Sample>, server: string, limit: pos, before: Option<int>, n: nat) returns (m: nat)
    requires DistinctIds(raw) && RequestAt(Answers(raw, server, limit), n) == Ask(before)
    requires !NoZeroCursor(Remaining(raw, server, before), limit)
    ensures n < m && RequestAt(Answers(raw, server, limit), m) == Ask(None) && AsksOn(Answers(raw, server, limit), n, m)
    decreases |Remaining(raw, server, before)|
  {
    var next := StepToZero(raw, server, limit, before, n);
    m := n + 1;
    if next.Some? {
      m := ReachesZero(raw, server, limit, next, n + 1);
    }
    AskedFrom(Answers(raw, server, limit), n, m);
  }

  lemma {:induction false} WalkRepeats(answers: Request -> Request, m: nat, k: nat)
    requires RequestAt(answers, m) == Ask(None)
    ensures RequestAt(answers, m + k) == RequestAt(answers, k)
  {
    if k > 0 {
      WalkRepeats(answers, m, k - 1);
    }
  }

  lemma {:induction false} NeverStops(answers: Request -> Request, m: nat, n: nat)
    requires 0 < m && RequestAt(answers, m) == Ask(None) && AsksOn(answers, 0, m)
    ensures RequestAt(answers, n).Ask?
  {
    if n > m {
      WalkRepeats(answers, m, n - m);
      NeverStops(answers, m, n - m);
    }
  }

  /**
   * A client that follows the cursors comes to an end exactly when no page with a successor ends at
   * Go's zero time; otherwise it is sent round in a circle.
   */
  lemma WalkEndsIff(raw: seq<Sample>, server: string, limit: pos)
    requires DistinctIds(raw)
    ensures WalkEnds(raw, server, limit) <==> NoZeroCursor(Remaining(raw, server, None), limit)
  {
    if NoZeroCursor(Remaining(raw, server, None), limit) {
      WalkOn(raw, server, limit, None, 0);
    } else {
      var m := ReachesZero(raw, server, limit, None, 0);
      forall n: nat ensures RequestAt(Answers(raw, server, limit), n).Ask? {
        NeverStops(Answers(raw, server, limit), m, n);
      }
    }
  }

  function Flatten(pages: seq<seq<Sample>>): seq<Sample> {
    if pages == [] then [] else pages[0] + Flatten(pages[1..])
  }

  /** `x` shares the time of the last row of some page that has a successor, but sorts after it. */
  ghost predicate Skipped(pages: seq<seq<Sample>>, x: Sample) {
    exists i :: 0 <= i < |pages| - 1 && pages[i] != []
      && var last := pages[i][|pages[i]| - 1]; x.at == last.at && Precedes(last, x)
  }

  lemma SkippedStep(page: seq<Sample>, rest: seq<seq<Sample>>, x: Sample)
    requires page != [] && rest != []
    ensures Skipped([page] + rest, x) <==>
              (x.at == page[|page| - 1].at && Precedes(page[|page| - 1], x)) || Skipped(rest, x)
  {
    var pages := [page] + rest;
    if x.at == page[|page| - 1].at && Precedes(page[|page| - 1], x) {
      assert pages[0] == page;
    }
    if Skipped(rest, x) {
      var i :| 0 <= i < |rest| - 1 && rest[i] != []
        && var last := rest[i][|rest[i]| - 1]; x.at == last.at && Precedes(last, x);
      assert pages[i + 1] == rest[i];
    }
    if Skipped(pages, x) {
      var i :| 0 <= i < |pages| - 1 && pages[i] != []
        && var last := pages[i][|pages[i]| - 1]; x.at == last.at && Precedes(last, x);
      if i > 0 {
        assert pages[i] == rest[i - 1];
      }
    }
  }

  lemma {:induction false} PagesVisit(rows: seq<Sample>, limit: pos)
    requires Ordered(rows)
    ensures Pages(rows, limit) != [] && Ordered(Flatten(Pages(rows, limit)))
    ensures forall x :: x in Flatten(Pages(rows, limit)) <==> x in rows && !Skipped(Pages(rows, limit), x)
    decreases |rows|
  {
    if |rows| <= limit {
      assert Pages(rows, limit)[1..] == [] && Flatten(Pages(rows, limit)) == rows + [];
    } else {
      var older := Filter(Before(rows[limit - 1].at), rows);
      CursorShrinks(rows, limit);
      FilterOrdered(Before(rows[limit - 1].at), rows);
      PagesVisit(older, limit);
      FirstPageThenRest(rows, limit);
    }
  }

  lemma {:induction false} FirstPageThenRest(rows: seq<Sample>, limit: pos)
    requires Ordered(rows) && |rows| > limit
    requires var rest := Pages(Filter(Before(rows[limit - 1].at), rows), limit);
      && rest != [] && Ordered(Flatten(rest))
      && forall x :: x in Flatten(rest) <==> x in Filter(Before(rows[limit - 1].at), rows) && !Skipped(rest, x)
    ensures Ordered(Flatten(Pages(rows, limit)))
    ensures forall x :: x in Flatten(Pages(rows, limit)) <==> x in rows && !Skipped(Pages(rows, limit), x)
  {
    var page, older := rows[..limit], Filter(Before(rows[limit - 1].at), rows);
    var rest := Pages(older, limit);
    FilterMembers(Before(rows[limit - 1].at), rows);
    assert Pages(rows, limit) == [page] + rest && ([page] + rest)[1..] == rest;
    FirstPageOrdered(rows, limit, Flatten(rest));
    forall x ensures x in page + Flatten(rest) <==> x in rows && !Skipped([page] + rest, x) {
      FirstPageMember(rows, limit, older, x);
    }
  }

  lemma {:induction false} FirstPageOrdered(rows: seq<Sample>, limit: pos, tail: seq<Sample>)
    requires Ordered(rows) && |rows| > limit && Ordered(tail) && forall x :: x in tail ==> x.at < rows[limit - 1].at
    ensures Ordered(rows[..limit] + tail)
  {
    var page := rows[..limit];
    forall i, j | 0 <= i < |page| && 0 <= j < |tail| ensures Precedes(page[i], tail[j]) {
      assert tail[j] in tail;
      PageOrOlder(rows, limit, page[i]);
    }
    OrderedJoin(page, tail);
  }

  lemma {:induction false} FirstPageMember(rows: seq<Sample>, limit: pos, older: seq<Sample>, x: Sample)
    requires Ordered(rows) && |rows| > limit && forall y :: y in older <==> y in rows && y.at < rows[limit - 1].at
    requires var rest := Pages(older, limit);
      rest != [] && (x in Flatten(rest) <==> x in older && !Skipped(rest, x))
    ensures var rest := Pages(older, limit);
      x in rows[..limit] + Flatten(rest) <==> x in rows && !Skipped([rows[..limit]] + rest, x)
  {
    SkippedStep(rows[..limit], Pages(older, limit), x);
    PageOrOlder(rows, limit, x);
    SkippedHasTwin(older, limit, x);
  }

  lemma OrderedJoin(a: seq<Sample>, b: seq<Sample>)
    requires Ordered(a) && Ordered(b)
    requires forall i, j :: 0 <= i < |a| && 0 <= j < |b| ==> Precedes(a[i], b[j])
    ensures Ordered(a + b)
  {
  }

  /** Each row is on the page, tied with its last row, or older. */
  lemma PageOrOlder(rows: seq<Sample>, limit: pos, x: Sample)
    requires Ordered(rows) && |rows| > limit
    ensures var page, last := rows[..limit], rows[limit - 1];
      && (x in rows ==> x in page || (x.at == last.at && Precedes(last, x)) || x.at < last.at)
      && (x in page ==> x in rows && !(x.at == last.at && Precedes(last, x)) && !(x.at < last.at))
  {
    if x in rows {
      var i :| 0 <= i < |rows| && rows[i] == x;
      if i < limit {
        assert rows[..limit][i] == x;
      } else {
        assert Precedes(rows[limit - 1], rows[i]);
      }
    }
    if x in rows[..limit] {
      var i :| 0 <= i < limit && rows[i] == x;
      if i < limit - 1 {
        assert Precedes(rows[i], rows[limit - 1]);
      }
    }
  }

  /** A row can only be skipped by a page whose last row has its time. */
  lemma SkippedHasTwin(rows: seq<Sample>, limit: pos, x: Sample)
    ensures Skipped(Pages(rows, limit), x) ==> exists y :: y in rows && y != x && y.at == x.at
  {
    var pages := Pages(rows, limit);
    if Skipped(pages, x) {
      var i :| 0 <= i < |pages| - 1 && pages[i] != []
        && var last := pages[i][|pages[i]| - 1]; x.at == last.at && Precedes(last, x);
      PageRows(rows, limit, i);
      assert pages[i][|pages[i]| - 1] in pages[i];
    }
  }

  lemma {:induction false} PageRows(rows: seq<Sample>, limit: pos, i: nat)
    requires i < |Pages(rows, limit)|
    ensures forall x :: x in Pages(rows, limit)[i] ==> x in rows
    decreases |rows|
  {
    if |rows| > limit {
      var older := Filter(Before(rows[limit - 1].at), rows);
      CursorShrinks(rows, limit);
      FilterMembers(Before(rows[limit - 1].at), rows);
      if i > 0 {
        PageRows(older, limit, i - 1);
      }
    }
  }

  // ----------------------------------------------------------------- theorems

  /** The ids of the raw table ascend in insertion order, in every run. */
  lemma {:induction false} RawIdsAscend(trace: seq<Event>)
    ensures DistinctIds(Replay(trace).tables.raw)
  {
    if trace != [] {
      var before, e := trace[..|trace| - 1], trace[|trace| - 1];
      RawIdsAscend(before);
      var raw := Replay(before).tables.raw;
      match e {
        case Save(_, _, _) => MaxIdIsMax(raw);
        case RollUpRaw(call) => FilterDistinct(AtLeast(call.Cutoffs().raw), raw);
        case Remove(server, _) => FilterDistinct(NotOf(server), raw);
        case _ =>
      }
    }
  }

  /**
   * Following the cursors of any reachable table ends, visits rows in strictly descending order
   * without repeats, and leaves out exactly the rows that share the time of some page's last row
   * but sort after it.
   */
  lemma PagingIsExactUpToTies(trace: seq<Event>, server: string, limit: pos)
    requires NoZeroCursor(Remaining(Replay(trace).tables.raw, server, None), limit)
    ensures DistinctIds(Replay(trace).tables.raw)
    ensures var raw := Replay(trace).tables.raw; var pages := Follow(raw, server, limit, None);
      && Ordered(Flatten(pages))
      && forall x :: x in Flatten(pages) <==> x in raw && x.server == server && !Skipped(pages, x)
  {
    var raw := Replay(trace).tables.raw;
    RawIdsAscend(trace);
    FollowIsPages(raw, server, limit, None);
    RemainingMembers(raw, server, None);
    RemainingOrdered(raw, server, None);
    PagesVisit(Remaining(raw, server, None), limit);
  }

  /** Rows of one server that all have different times. */
  ghost predicate NoTies(raw: seq<Sample>, server: string) {
    forall x, y :: x in raw && y in raw && x.server == server && y.server == server && x != y ==> x.at != y.at
  }

  lemma NoTiesNoSkips(rows: seq<Sample>, limit: pos, x: Sample)
    requires NoTies(rows, x.server) && x in rows && forall y :: y in rows ==> y.server == x.server
    ensures !Skipped(Pages(rows, limit), x)
  {
    SkippedHasTwin(rows, limit, x);
  }

  lemma VisitsEveryRow(rows: seq<Sample>, limit: pos, server: string)
    requires Ordered(rows) && NoTies(rows, server) && forall y :: y in rows ==> y.server == server
    ensures Flatten(Pages(rows, limit)) == rows
  {
    PagesVisit(rows, limit);
    forall x | x in rows ensures !Skipped(Pages(rows, limit), x) {
      NoTiesNoSkips(rows, limit, x);
    }
    SameOrder(Flatten(Pages(rows, limit)), rows);
  }

  /** With distinct times, the pages are the whole history of the server, in order. */
  lemma DistinctTimesMissNothing(trace: seq<Event>, server: string, limit: pos)
    requires NoZeroCursor(Remaining(Replay(trace).tables.raw, server, None), limit)
    requires NoTies(Replay(trace).tables.raw, server)
    ensures DistinctIds(Replay(trace).tables.raw)
    ensures var raw := Replay(trace).tables.raw;
      Flatten(Follow(raw, server, limit, None)) == Sort(Filter(Match(server, None), raw))
  {
    var raw := Replay(trace).tables.raw;
    RawIdsAscend(trace);
    FollowIsPages(raw, server, limit, None);
    RemainingMembers(raw, server, None);
    RemainingOrdered(raw, server, None);
    VisitsEveryRow(Remaining(raw, server, None), limit, server);
  }

  lemma {:induction false} SameOrder(a: seq<Sample>, b: seq<Sample>)
    requires Ordered(a) && Ordered(b) && forall x :: x in a <==> x in b
    ensures a == b
  {
    if a != [] {
      assert a[0] in a;
    }
    if b != [] {
      assert b[0] in b;
    }
    if a != [] {
      var x, y := a[|a| - 1], b[|b| - 1];
      assert x in b && y in a;
      var i :| 0 <= i < |a| && a[i] == y;
      var j :| 0 <= j < |b| && b[j] == x;
      assert x == y;
      var front, rear := a[..|a| - 1], b[..|b| - 1];
      forall z ensures z in front <==> z in rear {
        InitMembers(a, z);
        InitMembers(b, z);
      }
      SameOrder(front, rear);
      assert a == front + [x] && b == rear + [y];
    }
  }

  lemma InitMembers(s: seq<Sample>, z: Sample)
    requires s != [] && Ordered(s)
    ensures z in s[..|s| - 1] <==> z in s && z != s[|s| - 1]
  {
    if z in s && z != s[|s| - 1] {
      var i :| 0 <= i < |s| && s[i] == z;
      assert s[..|s| - 1][i] == z;
    }
    if z in s[..|s| - 1] {
      var i :| 0 <= i < |s| - 1 && s[i] == z;
      assert Precedes(s[i], s[|s| - 1]);
    }
  }

  /** Every row of `p` is listed before every row of `q`. */
  ghost predicate Continues(p: Page, q: Page) {
    forall x, y :: x in p.data && y in q.data ==> Precedes(x, y)
  }

  function NextPage(raw: seq<Sample>, server: string, limit: pos, p: Page): Page
    requires p.next.Some?
  {
    PageOf(Remaining(raw, server, CursorTime(p.next.value)), limit)
  }

  /**
   * What one cursor does, for every table: the next page continues after this one exactly when
   * the cursor is not Go's zero time, which the handler reads as no cursor at all.
   */
  lemma CursorProgressesIff(raw: seq<Sample>, server: string, limit: pos, before: Option<int>)
    requires DistinctIds(raw) && PageOf(Remaining(raw, server, before), limit).hasMore
    ensures var page := PageOf(Remaining(raw, server, before), limit);
      Continues(page, NextPage(raw, server, limit, page)) <==> page.next.value != ZERO_TIME
  {
    if Remaining(raw, server, before)[limit - 1].at == ZERO_TIME {
      ZeroCursorRestarts(raw, server, limit, before);
    } else {
      OtherCursorsContinue(raw, server, limit, before);
    }
  }

  lemma OtherCursorsContinue(raw: seq<Sample>, server: string, limit: pos, before: Option<int>)
    requires DistinctIds(raw) && |Remaining(raw, server, before)| > limit
    requires Remaining(raw, server, before)[limit - 1].at != ZERO_TIME
    ensures var page := PageOf(Remaining(raw, server, before), limit);
      Continues(page, NextPage(raw, server, limit, page))
  {
    var rows := Remaining(raw, server, before);
    var cursor := rows[limit - 1].at;
    var later := Remaining(raw, server, Some(cursor));
    RemainingMembers(raw, server, Some(cursor));
    RemainingOrdered(raw, server, before);
    forall x, y | x in rows[..limit] && y in PageOf(later, limit).data ensures Precedes(x, y) {
      var i :| 0 <= i < limit && rows[i] == x;
      assert y in later;
      if i < limit - 1 {
        assert Precedes(rows[i], rows[limit - 1]);
      }
    }
  }

  /** The first page holds the newest row, which no page can follow. */
  lemma ZeroCursorRestarts(raw: seq<Sample>, server: string, limit: pos, before: Option<int>)
    requires DistinctIds(raw) && |Remaining(raw, server, before)| > limit
    requires Remaining(raw, server, before)[limit - 1].at == ZERO_TIME
    ensures var page := PageOf(Remaining(raw, server, before), limit);
      !Continues(page, NextPage(raw, server, limit, page))
  {
    var rows, all := Remaining(raw, server, before), Remaining(raw, server, None);
    RemainingMembers(raw, server, before);
    RemainingMembers(raw, server, None);
    RemainingOrdered(raw, server, None);
    assert rows[0] in rows;
    FirstComesFirst(all, rows[0]);
    assert all[0] in PageOf(all, limit).data && rows[0] in rows[..limit];
    assert !Precedes(rows[0], all[0]);
  }

  lemma FirstComesFirst(s: seq<Sample>, x: Sample)
    requires Ordered(s) && x in s
    ensures !Precedes(x, s[0])
  {
    var i :| 0 <= i < |s| && s[i] == x;
    if i > 0 {
      assert Precedes(s[0], s[i]);
    }
  }

  /** Registers one server and saves two samples of the zero time. */
  function ZeroRun(v: Values): seq<Event> {
    [Register("s", 7), Save("s", v, ZERO_TIME), Save("s", v, ZERO_TIME)]
  }

  lemma {:induction false} SaveAppends(db: Db, v: Values)
    requires "s" in db.servers
    ensures var after := Step(db, Save("s", v, ZERO_TIME));
      && after.servers == db.servers
      && after.tables.raw == db.tables.raw + [Sample(MaxId(db.tables.raw) + 1, "s", v, ZERO_TIME)]
  {
  }

  lemma {:induction false} ZeroRunTable(v: Values)
    ensures Replay(ZeroRun(v)).tables.raw == [Sample(1, "s", v, ZERO_TIME), Sample(2, "s", v, ZERO_TIME)]
  {
    var none: seq<Event> := [];
    var r1 := none + [Register("s", 7)];
    var r2 := r1 + [Save("s", v, ZERO_TIME)];
    OneMore(none, Register("s", 7));
    OneMore(r1, Save("s", v, ZERO_TIME));
    OneMore(r2, Save("s", v, ZERO_TIME));
    SaveAppends(Replay(r1), v);
    SaveAppends(Replay(r2), v);
    assert ZeroRun(v) == r2 + [Save("s", v, ZERO_TIME)];
    FirstTwoIds(v);
  }

  lemma {:induction false} FirstTwoIds(v: Values)
    ensures var a := Sample(1, "s", v, ZERO_TIME);
      MaxId([]) == 0 && [] + [a] == [a] && MaxId([a]) == 1
  {
    var a := Sample(1, "s", v, ZERO_TIME);
    assert [a][..0] == [];
  }

  lemma {:induction false} ZeroPageRepeats(raw: seq<Sample>, rows: seq<Sample>)
    requires rows == Remaining(raw, "s", None) && |rows| == 2 && rows[0].at == ZERO_TIME
    ensures var page := PageOf(Remaining(raw, "s", None), 1);
      page.hasMore && page.data != [] && NextPage(raw, "s", 1, page) == page
  {
    assert PageOf(rows, 1) == Page([rows[0]], true, Some(ZERO_TIME)) && CursorTime(ZERO_TIME) == None;
  }

  /** After that run, with a page of one, the client is sent back to the first page for ever. */
  lemma {:induction false} ZeroTimeCursorRepeats(v: Values)
    ensures var raw := Replay(ZeroRun(v)).tables.raw;
      var page := PageOf(Remaining(raw, "s", None), 1);
      page.hasMore && page.data != [] && NextPage(raw, "s", 1, page) == page
  {
    ZeroRunTable(v);
    var raw := [Sample(1, "s", v, ZERO_TIME), Sample(2, "s", v, ZERO_TIME)];
    FilterAll(Match("s", None), raw);
    assert DistinctIds(raw);
    SortOrdered(raw);
    assert Sort(raw)[0] in Sort(raw);
    ZeroPageRepeats(raw, Sort(raw));
  }
}
