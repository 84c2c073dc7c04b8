/**
 * Pricing of one carry position: spot bought and perpetual sold at the entry fill, both
 * closed at the exit fill, a later common fill, or a liquidation.
 */
module CarryMoney {
  import opened Wrappers
  import opened CarrySignal
  import opened CarryTrades

  const BAR_MS: int := 4 * HOUR_MS
  const NOTIONAL_USD: real := 50.0
  const FEE_BPS_PER_FILL: real := 10.0
  const LIQUIDATION_HIGH_RATIO: real := 4.0

  /** Closes and perpetual highs are keyed by bar start. */
  datatype Series = Series(funding: seq<Settlement>, spot: map<int, real>, perp: map<int, real>, high: map<int, real>)

  function PriceAt(closes: map<int, real>, t: int): Option<real> {
    if t - BAR_MS in closes then Some(closes[t - BAR_MS]) else None
  }

  /** Both legs can be filled at `t`. */
  predicate Both(s: Series, t: int) {
    PriceAt(s.spot, t).Some? && PriceAt(s.perp, t).Some?
  }

  /** The loader records a perpetual high only together with that bar's close. */
  ghost predicate HighsHaveCloses(s: Series) {
    forall b :: b in s.high ==> b in s.perp
  }

  ghost predicate NonzeroCloses(s: Series) {
    (forall b :: b in s.spot ==> s.spot[b] != 0.0) && (forall b :: b in s.perp ==> s.perp[b] != 0.0)
  }

  // ---- exits ----------------------------------------------------------------------------

  lemma {:induction false} MaxExists(s: set<int>, x: int)
    requires x in s
    ensures exists m :: m in s && forall y :: y in s ==> y <= m
    decreases s
  {
    if y :| y in s && y > x {
      MaxExists(s - {x}, y);
      var m :| m in s - {x} && forall z :: z in s - {x} ==> z <= m;
      forall z | z in s ensures z <= m { assert z == x || z in s - {x}; assert y in s - {x}; }
      assert m in s;
    } else {
      assert x in s && forall y :: y in s ==> y <= x;
    }
  }

  function MaxOf(s: set<int>): (m: int)
    requires exists x :: x in s
    ensures m in s && forall x :: x in s ==> x <= m
  {
    assert exists m :: m in s && forall y :: y in s ==> y <= m by {
      var x :| x in s;
      MaxExists(s, x);
    }
    var m :| m in s && forall x :: x in s ==> x <= m;
    m
  }

  /** The last fill at which both legs have a close. */
  function LastCommonFill(s: Series): (r: Option<int>)
    ensures r.None? ==> forall t :: !Both(s, t)
    ensures r.Some? ==> Both(s, r.value) && forall t :: Both(s, t) ==> t <= r.value
  {
    var both := s.spot.Keys * s.perp.Keys;
    assert forall t :: Both(s, t) ==> t - BAR_MS in both;
    if exists b :: b in both then Some(MaxOf(both) + BAR_MS) else None
  }

  /** `r` is `t` or a whole number of bars after it. */
  predicate BarsAfter(r: int, t: int) {
    t <= r && (r - t) % BAR_MS == 0
  }

  /** `r` is the first fill at or after `intended`, in whole bars, with both closes, if any. */
  ghost predicate IsResolved(s: Series, intended: int, r: Option<int>) {
    match r
    case Some(u) => BarsAfter(u, intended) && Both(s, u) && forall w :: BarsAfter(w, intended) && w < u ==> !Both(s, w)
    case None => forall w :: BarsAfter(w, intended) ==> !Both(s, w)
  }

  function NextFill(s: Series, t: int): (r: Option<int>)
    ensures IsResolved(s, t, r)
    decreases var end := LastCommonFill(s); if end.Some? && t <= end.value then end.value - t + 1 else 0
  {
    var end := LastCommonFill(s);
    if end.None? || t > end.value then None
    else if Both(s, t) then Some(t)
    else
      BarSteps(t);
      NextFill(s, t + BAR_MS)
  }

  method ResolveExit(s: Series, intended: int) returns (r: Option<int>)
    ensures r == NextFill(s, intended)
  {
    var end := LastCommonFill(s);
    var t := intended;
    while end.Some? && t <= end.value
      invariant NextFill(s, intended) == NextFill(s, t)
      decreases if end.Some? then end.value - t else 0
    {
      if PriceAt(s.spot, t).Some? && PriceAt(s.perp, t).Some? { return Some(t); }
      t := t + BAR_MS;
    }
    r := None;
  }

  /** Whole bars after t: t itself, or whole bars after the next bar. */
  lemma {:induction false} BarSteps(t: int)
    ensures forall u :: BarsAfter(u, t) <==> u == t || BarsAfter(u, t + BAR_MS)
  {
    forall u ensures BarsAfter(u, t) <==> u == t || BarsAfter(u, t + BAR_MS) {
      if BarsAfter(u, t) && u != t { StepDown(u, t); }
      if BarsAfter(u, t + BAR_MS) { StepUp(u, t); }
    }
  }

  /** The close the search reaches, or None when the final lookup has no such bar. */
  function FirstCloseValue(closes: map<int, real>, t: int, limit: int): Option<real>
    decreases if t < limit then limit - t else 0
  {
    if PriceAt(closes, t).Some? then PriceAt(closes, t)
    else if t < limit then FirstCloseValue(closes, t + BAR_MS, limit)
    else PriceAt(closes, limit)
  }

  method FirstClose(closes: map<int, real>, from: int, limit: int) returns (r: Option<real>)
    ensures r == FirstCloseValue(closes, from, limit)
  {
    var t := from;
    while PriceAt(closes, t).None? && t < limit
      invariant FirstCloseValue(closes, from, limit) == FirstCloseValue(closes, t, limit)
      decreases if t < limit then limit - t else 0
    {
      t := t + BAR_MS;
    }
    r := if PriceAt(closes, t).Some? then PriceAt(closes, t) else PriceAt(closes, limit);
  }

  /** With a close at the limit the search never fails, whatever the alignment. */
  lemma {:induction false} FirstCloseFound(closes: map<int, real>, t: int, limit: int)
    requires PriceAt(closes, limit).Some?
    ensures FirstCloseValue(closes, t, limit).Some?
    decreases if t < limit then limit - t else 0
  {
    if PriceAt(closes, t).None? && t < limit { FirstCloseFound(closes, t + BAR_MS, limit); }
  }

  /** On aligned bars it is the close of the first boundary from `t` on that has one. */
  lemma {:induction false} FirstCloseIsFirst(closes: map<int, real>, t: int, limit: int) returns (u: int)
    requires PriceAt(closes, limit).Some? && BarsAfter(limit, t)
    ensures BarsAfter(u, t) && u <= limit && FirstCloseValue(closes, t, limit) == PriceAt(closes, u)
    ensures PriceAt(closes, u).Some? && forall w :: BarsAfter(w, t) && w < u ==> PriceAt(closes, w).None?
    decreases if t < limit then limit - t else 0
  {
    if PriceAt(closes, t).Some? {
      u := t;
    } else {
      assert limit != t;
      BarSteps(t);
      u := FirstCloseIsFirst(closes, t + BAR_MS, limit);
    }
  }

  lemma {:induction false} StepDown(r: int, t: int)
    requires BarsAfter(r, t) && r != t
    ensures BarsAfter(r, t + BAR_MS)
  {
    var a := (r - t) / BAR_MS;
    assert r == t + a * BAR_MS && a >= 1;
    assert r - (t + BAR_MS) == (a - 1) * BAR_MS;
  }

  lemma {:induction false} StepUp(r: int, t: int)
    requires BarsAfter(r, t + BAR_MS)
    ensures BarsAfter(r, t)
  {
    var a := (r - (t + BAR_MS)) / BAR_MS;
    assert r - t == (a + 1) * BAR_MS;
  }

  // ---- liquidation ----------------------------------------------------------------------

  /** The first bar of [t, exit) whose perpetual high reaches the liquidation price. */
  function LiquidationBar(s: Series, t: int, exit: int, p0: real): (r: Option<int>)
    ensures r.Some? ==> BarsAfter(r.value, t) && r.value < exit && r.value in s.high
    ensures r.Some? ==> s.high[r.value] >= LIQUIDATION_HIGH_RATIO * p0
    decreases exit - t
  {
    if t >= exit then None
    else if t in s.high && s.high[t] >= LIQUIDATION_HIGH_RATIO * p0 then Some(t)
    else
      BarSteps(t);
      LiquidationBar(s, t + BAR_MS, exit, p0)
  }

  /** No bar before the liquidation, or before the exit when there is none, reaches that price. */
  lemma {:induction false} LiquidationIsFirst(s: Series, t: int, exit: int, p0: real, w: int)
    requires BarsAfter(w, t) && w < exit && w in s.high
    requires LiquidationBar(s, t, exit, p0).None? || w < LiquidationBar(s, t, exit, p0).value
    ensures s.high[w] < LIQUIDATION_HIGH_RATIO * p0
    decreases exit - t
  {
    if w != t {
      StepDown(w, t);
      LiquidationIsFirst(s, t + BAR_MS, exit, p0, w);
    }
  }

  function HigherOf(a: Option<real>, b: Option<real>): Option<real> {
    if a.None? then b else if b.None? || a.value >= b.value then a else b
  }

  /** The highest perpetual high the position saw, up to and including a liquidating bar. */
  function MaxHigh(s: Series, t: int, exit: int, p0: real): Option<real>
    decreases exit - t
  {
    if t >= exit then None
    else if t !in s.high then MaxHigh(s, t + BAR_MS, exit, p0)
    else if s.high[t] >= LIQUIDATION_HIGH_RATIO * p0 then Some(s.high[t])
    else HigherOf(Some(s.high[t]), MaxHigh(s, t + BAR_MS, exit, p0))
  }

  lemma {:induction false} LiquidatedIffHigh(s: Series, t: int, exit: int, p0: real)
    ensures LiquidationBar(s, t, exit, p0).Some? <==>
      MaxHigh(s, t, exit, p0).Some? && MaxHigh(s, t, exit, p0).value >= LIQUIDATION_HIGH_RATIO * p0
    decreases exit - t
  {
    if t < exit { LiquidatedIffHigh(s, t + BAR_MS, exit, p0); }
  }

  method ScanHighs(s: Series, entry: int, exit: int, p0: real) returns (bar: Option<int>, top: Option<real>)
    ensures bar == LiquidationBar(s, entry, exit, p0) && top == MaxHigh(s, entry, exit, p0)
  {
    top := None;
    var start := entry;
    while start < exit
      invariant LiquidationBar(s, entry, exit, p0) == LiquidationBar(s, start, exit, p0)
      invariant MaxHigh(s, entry, exit, p0) == HigherOf(top, MaxHigh(s, start, exit, p0))
      invariant top.Some? ==> top.value < LIQUIDATION_HIGH_RATIO * p0
      decreases exit - start
    {
      if start in s.high {
        if s.high[start] >= LIQUIDATION_HIGH_RATIO * p0 {
          return Some(start), HigherOf(top, Some(s.high[start]));
        }
        top := HigherOf(top, Some(s.high[start]));
      }
      start := start + BAR_MS;
    }
    bar := None;
  }

  // ---- funding --------------------------------------------------------------------------

  /** The 4 h boundary at or after `ts`. */
  function Boundary(ts: int): (b: int)
    ensures b % BAR_MS == 0 && ts <= b < ts + BAR_MS
  {
    -((-ts) / BAR_MS) * BAR_MS
  }

  /** One settlement's payment, None when its mark cannot be found. */
  function Payment(s: Series, x: Settlement, exit: int, quantity: real): Option<real> {
    var mark := FirstCloseValue(s.perp, Boundary(x.ts), exit);
    if mark.None? then None else Some(Amount(quantity, mark.value, x.rate))
  }

  function Amount(quantity: real, mark: real, rate: real): real {
    quantity * mark * rate
  }

  function Plus(a: Option<real>, b: Option<real>): Option<real> {
    if a.None? || b.None? then None else Some(a.value + b.value)
  }

  /** Payments of the settlements strictly between the fills. */
  function FundingUsd(s: Series, funding: seq<Settlement>, entry: int, exit: int, quantity: real): Option<real> {
    if funding == [] then Some(0.0)
    else
      var rest, x := FundingUsd(s, funding[..|funding| - 1], entry, exit, quantity), funding[|funding| - 1];
      if entry < x.ts < exit then Plus(rest, Payment(s, x, exit, quantity)) else rest
  }

  lemma {:induction false} FundingSkips(s: Series, funding: seq<Settlement>, lo: nat, hi: nat, entry: int, exit: int,
        quantity: real)
    requires lo <= hi <= |funding| && forall i :: lo <= i < hi ==> !(entry < funding[i].ts < exit)
    ensures FundingUsd(s, funding[..lo], entry, exit, quantity) == FundingUsd(s, funding[..hi], entry, exit, quantity)
  {
    if lo < hi {
      FundingSkips(s, funding, lo, hi - 1, entry, exit, quantity);
      assert funding[..hi][..hi - 1] == funding[..hi - 1];
    }
  }

  /** Only the settlements between two bisections are visited; the others would add nothing. */
  method SumFunding(s: Series, entry: int, exit: int, quantity: real) returns (r: Option<real>)
    requires InOrder(s.funding)
    ensures r == FundingUsd(s, s.funding, entry, exit, quantity)
  {
    var lo, hi := BisectRight(s.funding, entry), BisectRight(s.funding, exit - 1);
    FundingSkips(s, s.funding, 0, lo, entry, exit, quantity);
    r := Some(0.0);
    if lo < hi { r := SumBetween(s, lo, hi, entry, exit, quantity); }
    FundingSkips(s, s.funding, if lo < hi then hi else lo, |s.funding|, entry, exit, quantity);
    assert s.funding[..|s.funding|] == s.funding;
  }

  method PayOne(s: Series, x: Settlement, exit: int, quantity: real) returns (r: Option<real>)
    ensures r == Payment(s, x, exit, quantity)
  {
    var mark := FirstClose(s.perp, Boundary(x.ts), exit);
    r := if mark.None? then None else Some(Amount(quantity, mark.value, x.rate));
  }

  lemma {:induction false} FundingSnoc(s: Series, funding: seq<Settlement>, i: nat, entry: int, exit: int,
        quantity: real)
    requires i < |funding|
    ensures FundingUsd(s, funding[..i + 1], entry, exit, quantity)
         == var before := FundingUsd(s, funding[..i], entry, exit, quantity);
            if entry < funding[i].ts < exit then Plus(before, Payment(s, funding[i], exit, quantity)) else before
  {
    assert funding[..i + 1][..i] == funding[..i];
  }

  method SumBetween(s: Series, lo: nat, hi: nat, entry: int, exit: int, quantity: real) returns (r: Option<real>)
    requires lo <= hi <= |s.funding|
    requires FundingUsd(s, s.funding[..lo], entry, exit, quantity) == Some(0.0)
    ensures r == FundingUsd(s, s.funding[..hi], entry, exit, quantity)
  {
    r := Some(0.0);
    for i := lo to hi
      invariant r == FundingUsd(s, s.funding[..i], entry, exit, quantity)
    {
      FundingSnoc(s, s.funding, i, entry, exit, quantity);
      var x := s.funding[i];
      if entry < x.ts < exit {
        var payment := PayOne(s, x, exit, quantity);
        r := Plus(r, payment);
      }
    }
  }

  // ---- one position ---------------------------------------------------------------------

  datatype Outcome =
    | Formed(trade: Trade)
    | FillPriceMissing
    | ExitUnresolved
    | LookupFailed    // a price lookup for a bar that is not there
    | DivisionByZero  // a zero entry price

  datatype ExitPlan = ExitPlan(fill: int, resolved: int, delayed: bool, liquidated: bool)

  /** The intended fill, or the first later one with both closes. */
  function ExitFill(s: Series, intended: int): (r: Option<int>)
    ensures IsResolved(s, intended, r)
  {
    if Both(s, intended) then Some(intended) else NextFill(s, intended)
  }

  function PlanExit(s: Series, entry: int, intended: int, p0: real): Option<ExitPlan> {
    var resolved := ExitFill(s, intended);
    if resolved.None? then None
    else
      var bar := LiquidationBar(s, entry, resolved.value, p0);
      Some(ExitPlan(if bar.Some? then bar.value + BAR_MS else resolved.value, resolved.value,
                    !Both(s, intended), bar.Some?))
  }

  function Larger(a: real, b: real): real { if a >= b then a else b }

  function Quantity(s0: real, p0: real): real
    requires Larger(s0, p0) != 0.0
  {
    NOTIONAL_USD / Larger(s0, p0)
  }

  function ToBps(usd: real): real { usd * (10_000.0 / NOTIONAL_USD) }

  function BasisUsd(q: real, s0: real, p0: real, s1: real, p1: real): real {
    q * ((s1 - s0) - (p1 - p0))
  }

  function FeeUsd(q: real, s0: real, p0: real, s1: real, p1: real): real {
    FEE_BPS_PER_FILL / 10_000.0 * q * (s0 + p0 + s1 + p1)
  }

  function Ratio(high: Option<real>, p0: real): Option<real>
    requires high.Some? ==> p0 != 0.0
  {
    if high.None? then None else Some(high.value / p0)
  }

  /** Where the spot leg is sold: the next close after a liquidation, else the exit fill. */
  function SpotExit(s: Series, plan: ExitPlan): Option<real> {
    if plan.liquidated then FirstCloseValue(s.spot, plan.fill, plan.resolved) else PriceAt(s.spot, plan.resolved)
  }

  function PerpExit(s: Series, plan: ExitPlan, p0: real): Option<real> {
    if plan.liquidated then Some(LIQUIDATION_HIGH_RATIO * p0) else PriceAt(s.perp, plan.resolved)
  }

  function Price(s: Series, symbol: string, entry: int, plan: ExitPlan, atEnd: bool, s0: real, p0: real): Outcome {
    var s1, p1 := SpotExit(s, plan), PerpExit(s, plan, p0);
    if s1.None? || p1.None? then LookupFailed
    else if Larger(s0, p0) == 0.0 then DivisionByZero
    else
      var q, high := Quantity(s0, p0), MaxHigh(s, entry, plan.resolved, p0);
      var funding := FundingUsd(s, s.funding, entry, plan.fill, q);
      if funding.None? then LookupFailed
      else if high.Some? && p0 == 0.0 then DivisionByZero
      else Formed(Trade(symbol, entry, plan.fill, ToBps(funding.value),
                        ToBps(BasisUsd(q, s0, p0, s1.value, p1.value)),
                        ToBps(FeeUsd(q, s0, p0, s1.value, p1.value)),
                        atEnd, plan.delayed, Ratio(high, p0), plan.liquidated))
  }

  function MoneyOf(s: Series, symbol: string, entry: int, intended: int, atEnd: bool): Outcome {
    var s0, p0 := PriceAt(s.spot, entry), PriceAt(s.perp, entry);
    if s0.None? || p0.None? then FillPriceMissing
    else
      var plan := PlanExit(s, entry, intended, p0.value);
      if plan.None? then ExitUnresolved
      else Price(s, symbol, entry, plan.value, atEnd, s0.value, p0.value)
  }

  method Money(s: Series, symbol: string, entry: int, intended: int, atEnd: bool) returns (r: Outcome)
    requires InOrder(s.funding)
    ensures r == MoneyOf(s, symbol, entry, intended, atEnd)
    ensures r.Formed? ==> IsCash(s, entry, intended, r.trade)
  {
    r := PricePosition(s, symbol, entry, intended, atEnd);
    if r.Formed? { NetIsCash(s, symbol, entry, intended, atEnd, r.trade); }
  }

  method PricePosition(s: Series, symbol: string, entry: int, intended: int, atEnd: bool) returns (r: Outcome)
    requires InOrder(s.funding)
    ensures r == MoneyOf(s, symbol, entry, intended, atEnd)
  {
    var s0, p0 := PriceAt(s.spot, entry), PriceAt(s.perp, entry);
    if s0.None? || p0.None? { return FillPriceMissing; }
    var exit, delayed := intended, false;
    if PriceAt(s.spot, exit).None? || PriceAt(s.perp, exit).None? {
      var resolved := ResolveExit(s, exit);
      if resolved.None? { return ExitUnresolved; }
      exit, delayed := resolved.value, true;
    }
    var s1, p1 := PriceAt(s.spot, exit), PriceAt(s.perp, exit);
    var bar, top := ScanHighs(s, entry, exit, p0.value);
    if bar.Some? {
      var signalExit := exit;
      exit := bar.value + BAR_MS;
      p1 := Some(LIQUIDATION_HIGH_RATIO * p0.value);
      s1 := FirstClose(s.spot, exit, signalExit);
      if s1.None? { return LookupFailed; }
    }
    if Larger(s0.value, p0.value) == 0.0 { return DivisionByZero; }
    var quantity := Quantity(s0.value, p0.value);
    var funding := SumFunding(s, entry, exit, quantity);
    if funding.None? { return LookupFailed; }
    if top.Some? && p0.value == 0.0 { return DivisionByZero; }
    r := Formed(Trade(symbol, entry, exit, ToBps(funding.value),
                      ToBps(BasisUsd(quantity, s0.value, p0.value, s1.value, p1.value)),
                      ToBps(FeeUsd(quantity, s0.value, p0.value, s1.value, p1.value)),
                      atEnd, delayed, Ratio(top, p0.value), bar.Some?));
  }

  // ---- what a priced position keeps -----------------------------------------------------

  lemma {:induction false} FundingFound(s: Series, funding: seq<Settlement>, entry: int, exit: int, quantity: real)
    requires PriceAt(s.perp, exit).Some?
    ensures FundingUsd(s, funding, entry, exit, quantity).Some?
  {
    if funding != [] {
      FundingFound(s, funding[..|funding| - 1], entry, exit, quantity);
      FirstCloseFound(s.perp, Boundary(funding[|funding| - 1].ts), exit);
    }
  }

  /** Every mark and close a position needs is found, after a liquidation too. */
  lemma {:induction false} LookupsNeverFail(s: Series, symbol: string, entry: int, intended: int, atEnd: bool)
    requires HighsHaveCloses(s)
    ensures MoneyOf(s, symbol, entry, intended, atEnd) != LookupFailed
  {
    if Both(s, entry) {
      var s0, p0 := PriceAt(s.spot, entry).value, PriceAt(s.perp, entry).value;
      var plan := PlanExit(s, entry, intended, p0);
      if plan.Some? {
        FirstCloseFound(s.spot, plan.value.fill, plan.value.resolved);
        if Larger(s0, p0) != 0.0 { FundingFound(s, s.funding, entry, plan.value.fill, Quantity(s0, p0)); }
      }
    }
  }

  /** Only a zero entry price divides by zero. */
  lemma {:induction false} DividesByEntryPrice(s: Series, symbol: string, entry: int, intended: int, atEnd: bool)
    requires MoneyOf(s, symbol, entry, intended, atEnd) == DivisionByZero
    ensures PriceAt(s.spot, entry) == Some(0.0) || PriceAt(s.perp, entry) == Some(0.0)
  {
  }

  /** Without that guarantee a liquidating bar with no close of its own does lose its funding mark. */
  lemma {:induction false} HighWithoutCloseFails() returns (s: Series)
    ensures NonzeroCloses(s) && MoneyOf(s, "X", BAR_MS, 3 * BAR_MS, false) == LookupFailed
  {
    s := Series([Settlement(BAR_MS + 1, 1.0)], map[0 := 1.0, 2 * BAR_MS := 1.0], map[0 := 1.0, 2 * BAR_MS := 1.0],
      map[BAR_MS := 4.0]);
    var plan := PlanExit(s, BAR_MS, 3 * BAR_MS, 1.0);
    assert LiquidationBar(s, BAR_MS, 3 * BAR_MS, 1.0) == Some(BAR_MS);
    assert plan == Some(ExitPlan(2 * BAR_MS, 3 * BAR_MS, false, true));
    assert Boundary(BAR_MS + 1) == 2 * BAR_MS;
    assert FirstCloseValue(s.perp, 2 * BAR_MS, 2 * BAR_MS) == None;
    var x := s.funding[0];
    assert Payment(s, x, 2 * BAR_MS, Quantity(1.0, 1.0)) == None;
    assert s.funding[..0] == [];
    assert FundingUsd(s, s.funding, BAR_MS, 2 * BAR_MS, Quantity(1.0, 1.0)) == None;
  }

  /**
   * Times of a formed trade. It lasts; it exits no later than any common fill reachable in
   * whole bars from the intended exit, delayed and liquidated exits included.
   */
  lemma {:induction false} TradeTimes(s: Series, symbol: string, entry: int, intended: int, atEnd: bool, tr: Trade)
    requires entry < intended
    requires MoneyOf(s, symbol, entry, intended, atEnd) == Formed(tr)
    ensures tr.symbol == symbol && tr.entryFill == entry < tr.exitFill
    ensures BarsAfter(intended, entry) ==> BarsAfter(tr.exitFill, entry)
    ensures BarsAfter(intended, entry) ==> forall f :: BarsAfter(f, intended) && Both(s, f) ==> tr.exitFill <= f
  {
    var p0 := PriceAt(s.perp, entry).value;
    var plan := PlanExit(s, entry, intended, p0).value;
    var bar := LiquidationBar(s, entry, plan.resolved, p0);
    if BarsAfter(intended, entry) {
      BarsCompose(plan.resolved, intended, entry);
      if bar.Some? { BarBefore(plan.resolved, bar.value, entry); }
    }
  }

  lemma {:induction false} BarsCompose(r: int, m: int, t: int)
    requires BarsAfter(r, m) && BarsAfter(m, t)
    ensures BarsAfter(r, t)
  {
    var a, b := (r - m) / BAR_MS, (m - t) / BAR_MS;
    assert r - t == (a + b) * BAR_MS;
  }

  lemma {:induction false} BarBefore(r: int, b: int, t: int)
    requires BarsAfter(r, t) && BarsAfter(b, t) && b < r
    ensures b + BAR_MS <= r && BarsAfter(b + BAR_MS, t)
  {
    var x, y := (r - t) / BAR_MS, (b - t) / BAR_MS;
    assert r == t + x * BAR_MS && b == t + y * BAR_MS;
    assert y + 1 <= x;
    assert b + BAR_MS - t == (y + 1) * BAR_MS;
  }

  /** An unresolved exit means no common fill from the intended exit on. */
  lemma {:induction false} UnresolvedIsFinal(s: Series, symbol: string, entry: int, intended: int, atEnd: bool, f: int)
    requires MoneyOf(s, symbol, entry, intended, atEnd) == ExitUnresolved
    requires BarsAfter(f, intended)
    ensures !Both(s, f)
  {
  }

  lemma {:induction false} RatioReached(h: real, p0: real)
    requires p0 != 0.0
    ensures h >= LIQUIDATION_HIGH_RATIO * p0
       <==> if p0 > 0.0 then h / p0 >= LIQUIDATION_HIGH_RATIO else h / p0 <= LIQUIDATION_HIGH_RATIO
  {
    var r := h / p0;
    assert r * p0 == h;
    OrderByFactor(r, LIQUIDATION_HIGH_RATIO, p0);
  }

  lemma {:induction false} OrderByFactor(a: real, b: real, p: real)
    requires p != 0.0
    ensures a * p >= b * p <==> if p > 0.0 then a >= b else a <= b
  {
    if p > 0.0 {
      if a > b { Strictly(b, a, p); } else if a < b { Strictly(a, b, p); }
    } else {
      if a > b { Strictly(b, a, -p); } else if a < b { Strictly(a, b, -p); }
      assert a * -p == -(a * p) && b * -p == -(b * p);
    }
  }

  lemma {:induction false} Strictly(a: real, b: real, p: real)
    requires p > 0.0 && a < b
    ensures a * p < b * p
  {
  }

  /**
   * A trade is liquidated exactly when its recorded highest ratio reaches the limit; with a
   * negative entry price, where the ratio turns the order round, when it is at most that.
   */
  lemma {:induction false} LiquidatedIffRatio(s: Series, symbol: string, entry: int, intended: int, atEnd: bool,
        tr: Trade)
    requires MoneyOf(s, symbol, entry, intended, atEnd) == Formed(tr)
    ensures tr.liquidated <==> tr.maxHighRatio.Some?
                               && if PriceAt(s.perp, entry).value > 0.0
                                  then tr.maxHighRatio.value >= LIQUIDATION_HIGH_RATIO
                                  else tr.maxHighRatio.value <= LIQUIDATION_HIGH_RATIO
  {
    var p0 := PriceAt(s.perp, entry).value;
    var resolved := ExitFill(s, intended).value;
    LiquidatedIffHigh(s, entry, resolved, p0);
    var high := MaxHigh(s, entry, resolved, p0);
    if high.Some? { RatioReached(high.value, p0); }
  }

  // ---- the money of a trade -------------------------------------------------------------------

  /** Cash in and out of the four fills: buy spot and sell perpetual, then the reverse. */
  function CashFlow(q: real, s0: real, p0: real, s1: real, p1: real): real {
    (q * s1 - q * s0) + (q * p0 - q * p1)
  }

  /** The taker fee on each of the four fills. */
  function FillFees(q: real, s0: real, p0: real, s1: real, p1: real): real {
    Fee(q * s0) + Fee(q * p0) + Fee(q * s1) + Fee(q * p1)
  }

  function Fee(notional: real): real { notional * FEE_BPS_PER_FILL / 10_000.0 }

  lemma {:induction false} BasisIsCashFlow(q: real, s0: real, p0: real, s1: real, p1: real)
    ensures BasisUsd(q, s0, p0, s1, p1) == CashFlow(q, s0, p0, s1, p1)
    ensures FeeUsd(q, s0, p0, s1, p1) == FillFees(q, s0, p0, s1, p1)
  {
  }

  /** The larger leg is exactly the target notional and the smaller one at most that. */
  lemma {:induction false} QuantityFillsTarget(s0: real, p0: real)
    requires s0 > 0.0 && p0 > 0.0
    ensures Quantity(s0, p0) > 0.0 && Quantity(s0, p0) * Larger(s0, p0) == NOTIONAL_USD
    ensures Quantity(s0, p0) * s0 <= NOTIONAL_USD && Quantity(s0, p0) * p0 <= NOTIONAL_USD
  {
    var q, top := Quantity(s0, p0), Larger(s0, p0);
    assert q * top == NOTIONAL_USD;
    assert q > 0.0;
    ProductMonotone(q, s0, top);
    ProductMonotone(q, p0, top);
  }

  lemma {:induction false} ProductMonotone(q: real, a: real, b: real)
    requires q > 0.0 && a <= b
    ensures q * a <= q * b
  {
  }

  function Net(tr: Trade): real { tr.fundingBps + tr.basisBps - tr.feeBps }

  lemma {:induction false} ScaleSum(a: real, b: real, c: real)
    ensures ToBps(a) + ToBps(b) - ToBps(c) == ToBps(a + b - c)
  {
  }

  /**
   * A trade's net is its cash: funding received plus the four fills, less a fee on each; and
   * with positive entry prices its larger leg is exactly the target notional.
   */
  ghost predicate IsCash(s: Series, entry: int, intended: int, tr: Trade) {
    && Both(s, entry)
    && var s0, p0 := PriceAt(s.spot, entry).value, PriceAt(s.perp, entry).value;
    var plan := PlanExit(s, entry, intended, p0);
    && plan.Some? && Larger(s0, p0) != 0.0
    && var q, s1, p1 := Quantity(s0, p0), SpotExit(s, plan.value), PerpExit(s, plan.value, p0);
    var funding := FundingUsd(s, s.funding, entry, tr.exitFill, q);
    && s1.Some? && p1.Some? && funding.Some?
    && Net(tr) == ToBps(funding.value + CashFlow(q, s0, p0, s1.value, p1.value)
                        - FillFees(q, s0, p0, s1.value, p1.value))
    && (s0 > 0.0 && p0 > 0.0 ==> q > 0.0 && q * Larger(s0, p0) == NOTIONAL_USD)
  }

  lemma {:induction false} NetIsCash(s: Series, symbol: string, entry: int, intended: int, atEnd: bool, tr: Trade)
    requires MoneyOf(s, symbol, entry, intended, atEnd) == Formed(tr)
    ensures IsCash(s, entry, intended, tr)
  {
    var s0, p0 := PriceAt(s.spot, entry).value, PriceAt(s.perp, entry).value;
    var plan := PlanExit(s, entry, intended, p0).value;
    var q, s1, p1 := Quantity(s0, p0), SpotExit(s, plan).value, PerpExit(s, plan, p0).value;
    BasisIsCashFlow(q, s0, p0, s1, p1);
    ScaleSum(FundingUsd(s, s.funding, entry, plan.fill, q).value, BasisUsd(q, s0, p0, s1, p1),
      FeeUsd(q, s0, p0, s1, p1));
    if s0 > 0.0 && p0 > 0.0 { QuantityFillsTarget(s0, p0); }
  }
}
