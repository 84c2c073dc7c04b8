/**
 * Point-in-time identity. Snapshot rows are collapsed per route into persist-until-changed
 * intervals overlapping a window, exported, indexed again and searched by instant.
 */
module Identity {
  import opened Wrappers
  import opened Sorting

  datatype Route = Route(exchange: string, nativeId: string)

  datatype Row = Row(exchange: string, marketType: string, nativeId: string,
                     key: string, status: string, capturedAt: int)
  {
    function On(): Route { Route(exchange, nativeId) }
    /** What must change for a new interval to begin. */
    function Stated(): (string, string, string) { (key, marketType, status) }
  }

  datatype Span = Span(validFrom: int, validTo: Option<int>, key: string, capturedAt: int)
  {
    predicate Covers(at: int) { validFrom <= at && (validTo.None? || at < validTo.value) }
  }

  datatype Record = Record(route: Route, marketType: string, status: string, span: Span)

  // ---- the model of one route ---------------------------------------------------------

  function OnRoute(r: Route): Row -> bool { (row: Row) => row.On() == r }

  predicate CapturedLe(a: Row, b: Row) { a.capturedAt <= b.capturedAt }

  /** A route's rows in capture order, equal times in arrival order. */
  function History(rows: seq<Row>, r: Route): seq<Row> {
    StableSort(Filter(rows, OnRoute(r)), CapturedLe)
  }

  /** Rows that begin an interval. */
  function Runs(h: seq<Row>): (runs: seq<Row>)
    ensures h != [] ==> runs != [] && runs[|runs| - 1].Stated() == h[|h| - 1].Stated()
    ensures |runs| <= |h|
  {
    if h == [] then []
    else
      var runs, row := Runs(h[..|h| - 1]), h[|h| - 1];
      if runs != [] && runs[|runs| - 1].Stated() == row.Stated() then runs else runs + [row]
  }

  function SpanOf(runs: seq<Row>, i: nat): Span
    requires i < |runs|
  {
    Span(runs[i].capturedAt, if i + 1 < |runs| then Some(runs[i + 1].capturedAt) else None,
         runs[i].key, runs[i].capturedAt)
  }

  predicate Overlaps(s: Span, windowStart: int, windowEnd: int) {
    s.validFrom < windowEnd && (s.validTo.None? || windowStart < s.validTo.value)
  }

  /** The record of run i, when its interval reaches into the window. */
  ghost predicate IsRecord(rec: Record, rows: seq<Row>, windowStart: int, windowEnd: int) {
    var runs := Runs(History(rows, rec.route));
    exists i :: 0 <= i < |runs| && rec == RecordOf(rec.route, runs, i) && Overlaps(rec.span, windowStart, windowEnd)
  }

  function RecordOf(r: Route, runs: seq<Row>, i: nat): Record
    requires i < |runs|
  {
    Record(r, runs[i].marketType, runs[i].status, SpanOf(runs, i))
  }

  // ---- the reference: what was last captured at or before an instant ------------------

  /** The latest row of a route captured at or before `at`; of equal times, the last to arrive. */
  function Latest(rows: seq<Row>, r: Route, at: int): Option<Row> {
    if rows == [] then None
    else
      var best, row := Latest(rows[..|rows| - 1], r, at), rows[|rows| - 1];
      if row.On() != r || row.capturedAt > at then best
      else if best.Some? && best.value.capturedAt > row.capturedAt then best
      else Some(row)
  }

  // ---- runs -----------------------------------------------------------------------------

  lemma {:induction false} RunsMembers(h: seq<Row>)
    ensures forall row :: row in Runs(h) ==> row in h
  {
    if h != [] {
      RunsMembers(h[..|h| - 1]);
      assert h == h[..|h| - 1] + [h[|h| - 1]];
    }
  }

  /** The runs of a prefix come first; every later run begins with a later row. */
  lemma {:induction false} RunsSplit(a: seq<Row>, b: seq<Row>)
    ensures Runs(a) <= Runs(a + b)
    ensures forall i :: |Runs(a)| <= i < |Runs(a + b)| ==> Runs(a + b)[i] in b
  {
    if b == [] {
      assert a + b == a;
    } else {
      var front, last := b[..|b| - 1], b[|b| - 1];
      RunsSplit(a, front);
      assert (a + b)[..|a + b| - 1] == a + front;
      assert b == front + [last];
    }
  }

  /** How many rows of a sorted history were captured at or before `at`. */
  function Known(h: seq<Row>, at: int): (n: nat)
    requires Sorted(h, CapturedLe)
    ensures n <= |h|
    ensures forall i :: 0 <= i < n ==> h[i].capturedAt <= at
    ensures forall i :: n <= i < |h| ==> h[i].capturedAt > at
  {
    if h == [] then 0
    else if h[|h| - 1].capturedAt <= at then |h|
    else
      var front := h[..|h| - 1];
      assert Sorted(front, CapturedLe);
      Known(front, at)
  }

  /** The runs of the rows known at an instant are exactly the runs that have begun by then. */
  lemma {:induction false} RunsBegunBy(h: seq<Row>, at: int)
    requires Sorted(h, CapturedLe)
    ensures var begun := |Runs(h[..Known(h, at)])|;
      && begun <= |Runs(h)|
      && (forall k :: 0 <= k < begun ==> Runs(h)[k].capturedAt <= at && Runs(h)[k] == Runs(h[..Known(h, at)])[k])
      && (forall k :: begun <= k < |Runs(h)| ==> Runs(h)[k].capturedAt > at)
  {
    var n := Known(h, at);
    var a, b := h[..n], h[n..];
    assert h == a + b;
    RunsSplit(a, b);
    RunsMembers(a);
    forall k | 0 <= k < |Runs(a)| ensures Runs(h)[k].capturedAt <= at {
      assert Runs(a)[k] in a;
    }
    forall k | |Runs(a)| <= k < |Runs(h)| ensures Runs(h)[k].capturedAt > at {
      assert Runs(h)[k] in b;
    }
  }

  lemma {:induction false} SpanCovers(runs: seq<Row>, begun: nat, at: int, i: nat)
    requires i < |runs| && begun <= |runs|
    requires forall k :: 0 <= k < begun ==> runs[k].capturedAt <= at
    requires forall k :: begun <= k < |runs| ==> runs[k].capturedAt > at
    ensures SpanOf(runs, i).Covers(at) <==> i == begun - 1
  {
  }

  /** Run i covers an instant exactly when it is the last run of the rows known then. */
  lemma {:induction false} CoversIffLastKnownRun(h: seq<Row>, at: int, i: nat)
    requires Sorted(h, CapturedLe) && i < |Runs(h)|
    ensures SpanOf(Runs(h), i).Covers(at) <==> i == |Runs(h[..Known(h, at)])| - 1
  {
    RunsBegunBy(h, at);
    SpanCovers(Runs(h), |Runs(h[..Known(h, at)])|, at, i);
  }

  function KnownBy(at: int): Row -> bool { (row: Row) => row.capturedAt <= at }

  lemma {:induction false} KnownIsPrefix(h: seq<Row>, at: int)
    requires Sorted(h, CapturedLe)
    ensures Filter(h, KnownBy(at)) == h[..Known(h, at)]
  {
    if h != [] {
      var front, last := h[..|h| - 1], h[|h| - 1];
      if last.capturedAt <= at {
        assert h[..|h|] == h;
        FilterAll(h, KnownBy(at));
      } else {
        KnownIsPrefix(front, at);
        assert front[..Known(front, at)] == h[..Known(h, at)];
      }
    }
  }

  function KnownOnRoute(r: Route, at: int): Row -> bool {
    (row: Row) => row.On() == r && row.capturedAt <= at
  }

  function LastOf(s: seq<Row>): Option<Row> {
    if s == [] then None else Some(s[|s| - 1])
  }

  lemma {:induction false} LastOfSortedSnoc(s: seq<Row>, row: Row)
    ensures LastOf(StableSort(s + [row], CapturedLe))
         == var last := LastOf(StableSort(s, CapturedLe));
            if last.Some? && last.value.capturedAt > row.capturedAt then last else Some(row)
  {
    LastOfSort(s, row, CapturedLe);
  }

  lemma {:induction false} LatestIsLastSorted(rows: seq<Row>, r: Route, at: int)
    ensures Latest(rows, r, at) == LastOf(StableSort(Filter(rows, KnownOnRoute(r, at)), CapturedLe))
  {
    if rows != [] {
      var front, row := rows[..|rows| - 1], rows[|rows| - 1];
      LatestIsLastSorted(front, r, at);
      LastOfSortedSnoc(Filter(front, KnownOnRoute(r, at)), row);
    }
  }

  /** The last known row of the sorted history is the reference answer. */
  lemma {:induction false} LastKnownIsLatest(rows: seq<Row>, r: Route, at: int)
    ensures Sorted(History(rows, r), CapturedLe)
    ensures var h := History(rows, r); var n := Known(h, at);
      Latest(rows, r, at) == if n == 0 then None else Some(h[n - 1])
  {
    var h := History(rows, r);
    StableSortSorted(Filter(rows, OnRoute(r)), CapturedLe);
    KnownIsPrefix(h, at);
    FilterStableSort(Filter(rows, OnRoute(r)), KnownBy(at), CapturedLe);
    FilterFilter(rows, OnRoute(r), KnownBy(at), KnownOnRoute(r, at));
    LatestIsLastSorted(rows, r, at);
  }

  /** Where the trailing stretch of rows that state the same thing begins. */
  function StretchStart(h: seq<Row>): (i: nat)
    requires h != []
    ensures i < |h| && forall j :: i <= j < |h| ==> h[j].Stated() == h[|h| - 1].Stated()
    ensures i == 0 || h[i - 1].Stated() != h[|h| - 1].Stated()
  {
    if |h| == 1 || h[|h| - 2].Stated() != h[|h| - 1].Stated() then |h| - 1
    else StretchStart(h[..|h| - 1])
  }

  lemma {:induction false} LastRunBeginsStretch(h: seq<Row>)
    requires h != []
    ensures Runs(h)[|Runs(h)| - 1] == h[StretchStart(h)]
  {
    if |h| > 1 { LastRunBeginsStretch(h[..|h| - 1]); }
  }

  /** When the identity known at an instant was first stated, without a change since. */
  function Established(rows: seq<Row>, r: Route, at: int): Option<int> {
    var known := Filter(History(rows, r), KnownBy(at));
    if known == [] then None else Some(known[StretchStart(known)].capturedAt)
  }

  lemma {:induction false} CoveringRun(h: seq<Row>, at: int, i: nat)
    requires Sorted(h, CapturedLe) && i < |Runs(h)| && SpanOf(Runs(h), i).Covers(at)
    ensures var known := h[..Known(h, at)];
      known != [] && Runs(h)[i].key == known[|known| - 1].key && Runs(h)[i] == known[StretchStart(known)]
  {
    var known := h[..Known(h, at)];
    CoversIffLastKnownRun(h, at, i);
    RunsBegunBy(h, at);
    assert known != [];
    assert Runs(h)[i] == Runs(known)[|Runs(known)| - 1];
    LastRunBeginsStretch(known);
  }

  lemma {:induction false} CoveringRunExists(h: seq<Row>, at: int) returns (i: nat)
    requires Sorted(h, CapturedLe) && Known(h, at) > 0
    ensures i < |Runs(h)| && SpanOf(Runs(h), i).Covers(at)
  {
    RunsBegunBy(h, at);
    i := |Runs(h[..Known(h, at)])| - 1;
    CoversIffLastKnownRun(h, at, i);
  }

  lemma {:induction false} EstablishedIs(rows: seq<Row>, r: Route, at: int)
    requires Sorted(History(rows, r), CapturedLe)
    ensures var h := History(rows, r); var known := h[..Known(h, at)];
      Established(rows, r, at) == if known == [] then None else Some(known[StretchStart(known)].capturedAt)
  {
    KnownIsPrefix(History(rows, r), at);
  }

  lemma {:induction false} RunKey(rows: seq<Row>, r: Route, at: int, i: nat)
    requires Sorted(History(rows, r), CapturedLe) && i < |Runs(History(rows, r))|
      && SpanOf(Runs(History(rows, r)), i).Covers(at)
    ensures Latest(rows, r, at).Some? && Runs(History(rows, r))[i].key == Latest(rows, r, at).value.key
  {
    LastKnownIsLatest(rows, r, at);
    CoveringRun(History(rows, r), at, i);
  }

  lemma {:induction false} RunTime(rows: seq<Row>, r: Route, at: int, i: nat)
    requires Sorted(History(rows, r), CapturedLe) && i < |Runs(History(rows, r))|
      && SpanOf(Runs(History(rows, r)), i).Covers(at)
    ensures Established(rows, r, at) == Some(Runs(History(rows, r))[i].capturedAt)
  {
    EstablishedIs(rows, r, at);
    CoveringRun(History(rows, r), at, i);
  }

  /** A covering record carries the reference row's key and the time it was first stated. */
  lemma {:induction false} CoveringRecordAnswers(rec: Record, rows: seq<Row>, windowStart: int, windowEnd: int, at: int)
    requires IsRecord(rec, rows, windowStart, windowEnd) && rec.span.Covers(at)
    ensures Latest(rows, rec.route, at).Some? && rec.span.key == Latest(rows, rec.route, at).value.key
    ensures Established(rows, rec.route, at) == Some(rec.span.capturedAt)
  {
    var h := History(rows, rec.route);
    StableSortSorted(Filter(rows, OnRoute(rec.route)), CapturedLe);
    var i :| 0 <= i < |Runs(h)| && rec == RecordOf(rec.route, Runs(h), i);
    RunKey(rows, rec.route, at, i);
    RunTime(rows, rec.route, at, i);
  }

  /** Inside the window, a known route has a covering record. */
  lemma {:induction false} CoveringRecordExists(rows: seq<Row>, windowStart: int, windowEnd: int, r: Route, at: int)
    returns (rec: Record)
    requires windowStart <= at < windowEnd && Latest(rows, r, at).Some?
    ensures IsRecord(rec, rows, windowStart, windowEnd) && rec.route == r && rec.span.Covers(at)
  {
    LastKnownIsLatest(rows, r, at);
    var i := CoveringRunExists(History(rows, r), at);
    rec := RecordOf(r, Runs(History(rows, r)), i);
  }

  // ---- the export -----------------------------------------------------------------------

  method GroupByRoute(rows: seq<Row>) returns (byRoute: map<Route, seq<Row>>, order: seq<Route>)
    ensures forall r :: r in byRoute <==> r in order
    ensures forall r :: r in byRoute ==> byRoute[r] == Filter(rows, OnRoute(r))
    ensures forall r :: r !in byRoute ==> Filter(rows, OnRoute(r)) == []
  {
    byRoute, order := map[], [];
    for i := 0 to |rows|
      invariant forall r :: r in byRoute <==> r in order
      invariant forall r :: r in byRoute ==> byRoute[r] == Filter(rows[..i], OnRoute(r))
      invariant forall r :: r !in byRoute ==> Filter(rows[..i], OnRoute(r)) == []
    {
      var row := rows[i];
      var own := row.On();
      assert rows[..i + 1] == rows[..i] + [row];
      forall r ensures Filter(rows[..i + 1], OnRoute(r))
                    == if r == own then Filter(rows[..i], OnRoute(r)) + [row] else Filter(rows[..i], OnRoute(r)) {
        FilterSnoc(rows[..i], row, OnRoute(r));
      }
      if own !in byRoute {
        order := order + [own];
        byRoute := byRoute[own := [row]];
      } else {
        byRoute := byRoute[own := byRoute[own] + [row]];
      }
    }
    assert rows[..|rows|] == rows;
  }

  method CollapseRuns(h: seq<Row>) returns (runs: seq<Row>)
    ensures runs == Runs(h)
  {
    runs := [];
    for i := 0 to |h|
      invariant runs == Runs(h[..i])
    {
      assert h[..i + 1][..i] == h[..i];
      if runs == [] || runs[|runs| - 1].Stated() != h[i].Stated() { runs := runs + [h[i]]; }
    }
    assert h[..|h|] == h;
  }

  /** The records of one route's runs that overlap the window. */
  method RouteRecords(r: Route, runs: seq<Row>, windowStart: int, windowEnd: int) returns (records: seq<Record>)
    ensures forall rec :: rec in records <==>
      exists i :: 0 <= i < |runs| && rec == RecordOf(r, runs, i) && Overlaps(rec.span, windowStart, windowEnd)
  {
    records := [];
    for i := 0 to |runs|
      invariant forall rec :: rec in records <==>
        exists j :: 0 <= j < i && rec == RecordOf(r, runs, j) && Overlaps(rec.span, windowStart, windowEnd)
    {
      var validFrom := runs[i].capturedAt;
      var validTo := if i + 1 < |runs| then Some(runs[i + 1].capturedAt) else None;
      if validFrom >= windowEnd { continue; }
      if validTo.Some? && validTo.value <= windowStart { continue; }
      var rec := Record(r, runs[i].marketType, runs[i].status, Span(validFrom, validTo, runs[i].key, validFrom));
      assert rec == RecordOf(r, runs, i);
      records := records + [rec];
    }
  }

  predicate RecordLe(a: Record, b: Record) {
    if a.route.exchange != b.route.exchange then StrLe(a.route.exchange, b.route.exchange)
    else if a.route.nativeId != b.route.nativeId then StrLe(a.route.nativeId, b.route.nativeId)
    else a.span.validFrom <= b.span.validFrom
  }

  method RecordsOn(r: Route, routeRows: seq<Row>, ghost rows: seq<Row>, windowStart: int, windowEnd: int)
    returns (own: seq<Record>)
    requires routeRows == Filter(rows, OnRoute(r))
    ensures forall rec :: rec in own <==> rec.route == r && IsRecord(rec, rows, windowStart, windowEnd)
  {
    var runs := CollapseRuns(StableSort(routeRows, CapturedLe));
    own := RouteRecords(r, runs, windowStart, windowEnd);
    assert runs == Runs(History(rows, r));
  }

  method BuildIdentityRecords(rows: seq<Row>, windowStart: int, windowEnd: int) returns (records: seq<Record>)
    ensures Sorted(records, RecordLe)
    ensures forall rec :: rec in records <==> IsRecord(rec, rows, windowStart, windowEnd)
  {
    var byRoute, order := GroupByRoute(rows);
    var all: seq<Record> := [];
    for k := 0 to |order|
      invariant forall rec :: rec in all <==> rec.route in order[..k] && IsRecord(rec, rows, windowStart, windowEnd)
    {
      var r := order[k];
      assert r in order;
      var own := RecordsOn(r, byRoute[r], rows, windowStart, windowEnd);
      assert order[..k + 1] == order[..k] + [r];
      all := all + own;
    }
    assert order[..|order|] == order;
    StrLeOrder();
    StableSortSorted(all, RecordLe);
    SameMembers(StableSort(all, RecordLe), all);
    records := StableSort(all, RecordLe);
  }

  // ---- the resolver ---------------------------------------------------------------------

  predicate ValidFromLe(a: Span, b: Span) { a.validFrom <= b.validFrom }

  method LoadIndex(records: seq<Record>) returns (index: map<Route, seq<Span>>)
    ensures forall r :: r in index ==> Sorted(index[r], ValidFromLe)
    ensures forall rec :: rec in records ==> rec.route in index && rec.span in index[rec.route]
    ensures forall r, s :: r in index && s in index[r] ==>
      exists rec :: rec in records && rec.route == r && rec.span == s
  {
    var raw: map<Route, seq<Span>> := map[];
    for i := 0 to |records|
      invariant forall rec :: rec in records[..i] ==> rec.route in raw && rec.span in raw[rec.route]
      invariant forall r, s :: r in raw && s in raw[r] ==>
        exists rec :: rec in records && rec.route == r && rec.span == s
    {
      var rec := records[i];
      assert rec in records && records[..i + 1] == records[..i] + [rec];
      var spans := if rec.route in raw then raw[rec.route] else [];
      raw := raw[rec.route := spans + [rec.span]];
    }
    assert records[..|records|] == records;
    index := map r | r in raw :: StableSort(raw[r], ValidFromLe);
    forall r | r in raw ensures Sorted(index[r], ValidFromLe) && forall s :: s in index[r] <==> s in raw[r] {
      StableSortSorted(raw[r], ValidFromLe);
      SameMembers(StableSort(raw[r], ValidFromLe), raw[r]);
    }
  }

  /** First covering span, in index order. */
  method FindSpan(index: map<Route, seq<Span>>, r: Route, at: int) returns (found: Option<Span>)
    ensures found.Some? ==> r in index && found.value in index[r] && found.value.Covers(at)
    ensures found.None? && r in index ==> forall s :: s in index[r] ==> !s.Covers(at)
  {
    var spans := if r in index then index[r] else [];
    for i := 0 to |spans|
      invariant forall j :: 0 <= j < i ==> !spans[j].Covers(at)
    {
      if spans[i].Covers(at) { return Some(spans[i]); }
    }
    found := None;
  }

  /**
   * Export then resolve: at every instant of the window the resolver returns the identity
   * of the latest row captured at or before it (the last to arrive among equal times),
   * nothing before the route's first row, and as snapshot time the row that first stated it.
   */
  method ExportAndResolve(rows: seq<Row>, windowStart: int, windowEnd: int, r: Route, at: int)
    returns (key: Option<string>, snapshotAt: Option<int>)
    requires windowStart <= at < windowEnd
    ensures key == match Latest(rows, r, at) case None => None case Some(row) => Some(row.key)
    ensures snapshotAt == Established(rows, r, at)
  {
    var records := BuildIdentityRecords(rows, windowStart, windowEnd);
    var index := LoadIndex(records);
    var span := FindSpan(index, r, at);
    if span.Some? {
      ghost var rec :| rec in records && rec.route == r && rec.span == span.value;
      CoveringRecordAnswers(rec, rows, windowStart, windowEnd, at);
      key, snapshotAt := Some(span.value.key), Some(span.value.capturedAt);
    } else {
      key, snapshotAt := None, None;
      NothingKnown(rows, windowStart, windowEnd, r, at, records);
    }
  }

  lemma {:induction false} NothingKnown(rows: seq<Row>, windowStart: int, windowEnd: int, r: Route, at: int,
        records: seq<Record>)
    requires windowStart <= at < windowEnd
    requires forall rec :: rec in records <==> IsRecord(rec, rows, windowStart, windowEnd)
    requires forall rec :: rec in records && rec.route == r ==> !rec.span.Covers(at)
    ensures Latest(rows, r, at).None? && Established(rows, r, at).None?
  {
    LastKnownIsLatest(rows, r, at);
    KnownIsPrefix(History(rows, r), at);
    if Latest(rows, r, at).Some? {
      var rec := CoveringRecordExists(rows, windowStart, windowEnd, r, at);
      assert false;
    }
  }
}
