/**
 * Feature assembly of the abnormal-flow study: one instrument's minute bars become one
 * decision per minute, each from the 61 bars that end with its own. Times are seconds.
 */
module FeatureAssembly {
  import opened Wrappers
  import opened Sorting

  const LOOKBACK: nat := 60
  const MINUTE: int := 60

  datatype Bar = Bar(start: int, createdAt: int,
                     open: Option<real>, high: Option<real>, low: Option<real>, close: Option<real>,
                     buyUsd: real, sellUsd: real,
                     oi: Option<real>, oiValue: Option<real>, oiObservedAt: Option<int>, lastTradeAt: Option<int>,
                     priceComplete: bool, tradesComplete: bool, oiComplete: bool)

  /** The registered scan parameters; `resolve` is point-in-time identity. */
  datatype Rules = Rules(scanLagMinutes: nat, executionWindow: nat, oiFreshness: nat, resolve: int -> Option<string>)

  datatype Reason = UnresolvedIdentity | LookbackGap | IncompleteLookback | NotFinalized | LateTrades | StaleOi

  datatype Features = Features(oiGrowth: Option<real>, buyPressure: Option<real>, containment: Option<real>,
                               turnover: Option<real>)

  datatype Verdict = Unavailable(reason: Reason) | Available(features: Features)

  datatype Row = Row(decisionAt: int, canonical: string, verdict: Verdict,
                     oi: Option<real>, oiValue: Option<real>, price: Option<real>)

  // ---- the frozen feature forms -------------------------------------------------------------

  function OiGrowth(start: Option<real>, end: Option<real>): Option<real> {
    if start.None? || end.None? || start.value <= 0.0 || end.value < 0.0 then None
    else Some((end.value - start.value) / start.value * 100.0)
  }

  function BuyPressure(buy: real, sell: real): Option<real> {
    if buy < 0.0 || sell < 0.0 || buy + sell <= 0.0 then None else Some(buy / (buy + sell))
  }

  function BuySum(bars: seq<Bar>): real {
    if bars == [] then 0.0 else BuySum(bars[..|bars| - 1]) + bars[|bars| - 1].buyUsd
  }

  function SellSum(bars: seq<Bar>): real {
    if bars == [] then 0.0 else SellSum(bars[..|bars| - 1]) + bars[|bars| - 1].sellUsd
  }

  function Abs(x: real): real { if x < 0.0 then -x else x }
  function Max(a: real, b: real): real { if a >= b then a else b }

  /** The largest deviation of any bar's high or low from the window's opening price. */
  function WorstDeviation(open: real, bars: seq<Bar>): Option<real>
    requires open > 0.0
  {
    if bars == [] then Some(0.0)
    else
      var rest, b := WorstDeviation(open, bars[..|bars| - 1]), bars[|bars| - 1];
      if rest.None? || b.high.None? || b.low.None? then None
      else Some(Max(rest.value, Max(Abs(b.high.value - open), Abs(b.low.value - open)) / open))
  }

  function Containment(flow: seq<Bar>): Option<real> {
    if flow == [] || flow[0].open.None? || flow[0].open.value <= 0.0 then None
    else WorstDeviation(flow[0].open.value, flow)
  }

  function FeaturesOf(span: seq<Bar>, rules: Rules): Features
    requires |span| == LOOKBACK + 1
  {
    var flow := span[1..];
    var exec := LastN(span, rules.executionWindow);
    var turnover := BuySum(exec) + SellSum(exec);
    Features(OiGrowth(span[0].oi, span[LOOKBACK].oi), BuyPressure(BuySum(flow), SellSum(flow)),
             Containment(flow), if turnover > 0.0 then Some(turnover) else None)
  }

  // ---- one decision -------------------------------------------------------------------------

  function DecisionTime(end: Bar, rules: Rules): int {
    end.start + MINUTE * (1 + rules.scanLagMinutes)
  }

  predicate Contiguous(span: seq<Bar>) {
    forall j :: 1 <= j < |span| ==> span[j].start - span[j - 1].start == MINUTE
  }

  predicate AllComplete(span: seq<Bar>) {
    forall j :: 0 <= j < |span| ==> span[j].priceComplete && span[j].tradesComplete && span[j].oiComplete
  }

  predicate AllFinal(span: seq<Bar>, at: int) {
    forall j :: 0 <= j < |span| ==> span[j].createdAt <= at
  }

  predicate NoLateTrade(span: seq<Bar>, at: int) {
    forall j :: 0 <= j < |span| ==> span[j].lastTradeAt.None? || span[j].lastTradeAt.value <= at
  }

  predicate OiFresh(b: Bar, freshness: nat, at: int) {
    b.oiObservedAt.Some? && b.start - freshness <= b.oiObservedAt.value <= at
  }

  /** The decision timed after the last bar of the span. */
  function Decide(span: seq<Bar>, rules: Rules): Row
    requires |span| == LOOKBACK + 1
  {
    var end := span[LOOKBACK];
    var at := DecisionTime(end, rules);
    var canonical := rules.resolve(at);
    var named := if canonical.None? || canonical.value == [] then "" else canonical.value;
    var verdict :=
      if named == "" then Unavailable(UnresolvedIdentity)
      else if !Contiguous(span) then Unavailable(LookbackGap)
      else if !AllComplete(span) then Unavailable(IncompleteLookback)
      else if !AllFinal(span, at) then Unavailable(NotFinalized)
      else if !NoLateTrade(span, at) then Unavailable(LateTrades)
      else if !OiFresh(span[0], rules.oiFreshness, at) || !OiFresh(end, rules.oiFreshness, at) then Unavailable(StaleOi)
      else Available(FeaturesOf(span, rules));
    Row(at, named, verdict, end.oi, end.oiValue, end.close)
  }

  // ---- all decisions ------------------------------------------------------------------------

  predicate StartLe(a: Bar, b: Bar) { a.start <= b.start }

  function Ordered(bars: seq<Bar>): seq<Bar> { StableSort(bars, StartLe) }

  /** One row per element that has `w` elements before it, from that window of w + 1. */
  function Windowed<T(!new), R>(s: seq<T>, w: nat, f: seq<T> --> R): (rows: seq<R>)
    requires forall span :: |span| == w + 1 ==> f.requires(span)
    ensures |rows| == if |s| > w then |s| - w else 0
    ensures forall k :: 0 <= k < |rows| ==> rows[k] == f(s[k..k + w + 1])
  {
    if |s| <= w then [] else seq(|s| - w, k requires 0 <= k < |s| - w => f(s[k..k + w + 1]))
  }

  function Decider(rules: Rules): (f: seq<Bar> --> Row)
    ensures forall span :: |span| == LOOKBACK + 1 ==> f.requires(span) && f(span) == Decide(span, rules)
  {
    (span: seq<Bar>) requires |span| == LOOKBACK + 1 => Decide(span, rules)
  }

  /** Rows of an ordered list: one per bar that has 60 bars before it. */
  function RowsOf(ordered: seq<Bar>, rules: Rules): seq<Row> {
    Windowed(ordered, LOOKBACK, Decider(rules))
  }

  method WalkWindows<T(!new), R>(s: seq<T>, w: nat, f: seq<T> --> R) returns (out: seq<R>)
    requires forall span :: |span| == w + 1 ==> f.requires(span)
    ensures out == Windowed(s, w, f)
  {
    out := [];
    if |s| > w {
      for i := w to |s|
        invariant |out| == i - w
        invariant forall k :: 0 <= k < |out| ==> out[k] == f(s[k..k + w + 1])
      {
        out := out + [f(s[i - w..i + 1])];
      }
    }
  }

  method AssembleDecisions(bars: seq<Bar>, rules: Rules) returns (out: seq<Row>)
    ensures out == RowsOf(Ordered(bars), rules)
    ensures |out| == if |bars| > LOOKBACK then |bars| - LOOKBACK else 0
    ensures forall k :: 0 <= k < |out| ==> RestsOn(out[k], Ordered(bars)[k..k + LOOKBACK + 1], rules)
  {
    out := WalkWindows(Ordered(bars), LOOKBACK, Decider(rules));
    forall k | 0 <= k < |out| ensures RestsOn(out[k], Ordered(bars)[k..k + LOOKBACK + 1], rules) {
      AvailableIff(Ordered(bars), rules, k);
    }
  }

  /** A row is available exactly on 61 contiguous, complete bars, all known when it is decided. */
  ghost predicate RestsOn(row: Row, span: seq<Bar>, rules: Rules)
    requires |span| == LOOKBACK + 1
  {
    && row.decisionAt == DecisionTime(span[LOOKBACK], rules)
    && (row.verdict.Available? <==>
          && rules.resolve(row.decisionAt).Some? && rules.resolve(row.decisionAt).value != ""
          && Contiguous(span) && AllComplete(span)
          && AllFinal(span, row.decisionAt) && NoLateTrade(span, row.decisionAt)
          && OiFresh(span[0], rules.oiFreshness, row.decisionAt)
          && OiFresh(span[LOOKBACK], rules.oiFreshness, row.decisionAt))
    && (row.verdict.Available? ==> row.verdict.features == FeaturesOf(span, rules))
  }

  lemma {:induction false} AvailableIff(ordered: seq<Bar>, rules: Rules, k: nat)
    requires k + LOOKBACK < |ordered|
    ensures RestsOn(RowsOf(ordered, rules)[k], ordered[k..k + LOOKBACK + 1], rules)
  {
    assert RowsOf(ordered, rules)[k] == Decide(ordered[k..k + LOOKBACK + 1], rules);
  }

  // ---- no lookahead -------------------------------------------------------------------------

  function StartedBy(t: int): Bar -> bool { (b: Bar) => b.start <= t }

  function DecidedBy(t: int): Row -> bool { (r: Row) => r.decisionAt <= t }

  lemma {:induction false} WindowsPrefix<T(!new), R>(s: seq<T>, n: nat, w: nat, f: seq<T> --> R)
    requires n <= |s| && forall span :: |span| == w + 1 ==> f.requires(span)
    ensures Windowed(s[..n], w, f) <= Windowed(s, w, f)
  {
    forall k | 0 <= k < |Windowed(s[..n], w, f)| ensures Windowed(s[..n], w, f)[k] == Windowed(s, w, f)[k] {
      assert s[..n][k..k + w + 1] == s[k..k + w + 1];
    }
  }

  lemma {:induction false} RowTime(ordered: seq<Bar>, rules: Rules, k: nat)
    requires k + LOOKBACK < |ordered|
    ensures RowsOf(ordered, rules)[k].decisionAt == DecisionTime(ordered[k + LOOKBACK], rules)
  {
    assert RowsOf(ordered, rules)[k] == Decide(ordered[k..k + LOOKBACK + 1], rules);
    assert ordered[k..k + LOOKBACK + 1][LOOKBACK] == ordered[k + LOOKBACK];
  }

  lemma {:induction false} PrefixIsFilter<T(!new)>(s: seq<T>, p: T -> bool, n: nat)
    requires n <= |s| && forall k :: 0 <= k < |s| ==> (k < n <==> p(s[k]))
    ensures Filter(s, p) == s[..n]
  {
    assert s == s[..n] + s[n..];
    FilterAppend(s[..n], s[n..], p);
    FilterAll(s[..n], p);
    FilterNone(s[n..], p);
  }

  /** Rows that look back from before position n are the rows of the first n elements. */
  lemma {:induction false} WindowsBefore<T(!new), R(!new)>(s: seq<T>, n: nat, w: nat, f: seq<T> --> R, p: R -> bool)
    requires n <= |s| && forall span :: |span| == w + 1 ==> f.requires(span)
    requires forall k :: 0 <= k < |s| - w ==> (p(Windowed(s, w, f)[k]) <==> k + w < n)
    ensures Filter(Windowed(s, w, f), p) == Windowed(s[..n], w, f)
  {
    var rows, early := Windowed(s, w, f), Windowed(s[..n], w, f);
    WindowsPrefix(s, n, w, f);
    PrefixIsFilter(rows, p, |early|);
    assert rows[..|early|] == early;
  }

  lemma {:induction false} RowDecidedBy(ordered: seq<Bar>, rules: Rules, t: int, k: nat)
    requires k + LOOKBACK < |ordered|
    ensures DecidedBy(t + MINUTE * (1 + rules.scanLagMinutes))(RowsOf(ordered, rules)[k])
       <==> StartedBy(t)(ordered[k + LOOKBACK])
  {
    RowTime(ordered, rules, k);
  }

  /** The decisions taken by the end of minute t come from the bars that have started by t. */
  lemma {:induction false} RowsUpTo(ordered: seq<Bar>, rules: Rules, t: int)
    requires Sorted(ordered, StartLe)
    ensures Filter(RowsOf(ordered, rules), DecidedBy(t + MINUTE * (1 + rules.scanLagMinutes)))
         == RowsOf(Filter(ordered, StartedBy(t)), rules)
  {
    var p := DecidedBy(t + MINUTE * (1 + rules.scanLagMinutes));
    var n := FilterIsPrefix(ordered, StartedBy(t), StartLe);
    forall k | 0 <= k < |ordered| - LOOKBACK ensures p(RowsOf(ordered, rules)[k]) <==> k + LOOKBACK < n {
      RowDecidedBy(ordered, rules, t, k);
    }
    WindowsBefore(ordered, n, LOOKBACK, Decider(rules), p);
  }

  /**
   * No lookahead. Two histories, in any arrival order, that agree on the bars started by t
   * give the same decisions up to the one taken on bar t, whatever came later in either.
   */
  lemma {:induction false} NoLookahead(a: seq<Bar>, b: seq<Bar>, rules: Rules, t: int)
    requires Filter(a, StartedBy(t)) == Filter(b, StartedBy(t))
    ensures var limit := t + MINUTE * (1 + rules.scanLagMinutes);
      Filter(RowsOf(Ordered(a), rules), DecidedBy(limit)) == Filter(RowsOf(Ordered(b), rules), DecidedBy(limit))
  {
    StableSortSorted(a, StartLe);
    StableSortSorted(b, StartLe);
    FilterStableSort(a, StartedBy(t), StartLe);
    FilterStableSort(b, StartedBy(t), StartLe);
    RowsUpTo(Ordered(a), rules, t);
    RowsUpTo(Ordered(b), rules, t);
  }

  /** Appending bars no earlier than every bar seen leaves all earlier decisions as they were. */
  lemma {:induction false} AppendingKeepsDecisions(bars: seq<Bar>, later: seq<Bar>, rules: Rules)
    requires forall x, y :: x in bars && y in later ==> x.start <= y.start
    ensures RowsOf(Ordered(bars), rules) <= RowsOf(Ordered(bars + later), rules)
  {
    SortConcat(bars, later, StartLe);
    assert (Ordered(bars) + Ordered(later))[..|bars|] == Ordered(bars);
    WindowsPrefix(Ordered(bars + later), |bars|, LOOKBACK, Decider(rules));
  }
}
