/**
 * The outcome-blind decision record of the abnormal-flow replay and the pure rules that
 * read it: open-interest notional, participation, eligibility, the four cells, band keys.
 */
module FlowDecisions {
  import opened Wrappers

  /** Native route and instant: what identifies one candidate row. */
  datatype RouteKey = RouteKey(exchange: string, marketType: string, nativeId: string,
                               captureVersion: string, decisionAt: int)

  /** Features known at the decision instant; `None` is an unavailable feature. */
  datatype Decision = Decision(
    exchange: string, marketType: string, nativeId: string, captureVersion: string,
    symbol: string, canonicalAsset: string,
    decisionAt: int,  // minutes
    oiGrowth: Option<real>, buyPressure: Option<real>, containment: Option<real>,
    oiAmount: Option<real>, oiValueUsd: Option<real>, decisionPrice: Option<real>,
    turnoverUsd: Option<real>, isoWeek: string, unavailable: Option<string>)
  {
    function Route(): RouteKey {
      RouteKey(exchange, marketType, nativeId, captureVersion, decisionAt)
    }
  }

  datatype Contract = Contract(
    minOiNotional: Option<real>, maxParticipation: Option<real>, positionUsd: Option<real>,
    minOiGrowth: Option<real>, minBuyPressure: Option<real>, maxContainment: Option<real>,
    cooldownMinutes: int, horizonMinutes: int,
    controlsPerEpisode: Option<nat>, maxSlots: Option<nat>)

  function Lower(s: string): string {
    seq(|s|, i requires 0 <= i < |s| =>
      if 'A' <= s[i] <= 'Z' then (s[i] as int + 32) as char else s[i])
  }

  /** Bybit publishes a USD value; Binance needs amount times price; others have none. */
  function OiNotional(d: Decision): Option<real> {
    if Lower(d.exchange) == "bybit" then
      if d.oiValueUsd.Some? && d.oiValueUsd.value >= 0.0 then d.oiValueUsd else None
    else if Lower(d.exchange) == "binance" then
      if d.oiAmount.Some? && d.oiAmount.value >= 0.0
         && d.decisionPrice.Some? && d.decisionPrice.value > 0.0
      then Some(d.oiAmount.value * d.decisionPrice.value) else None
    else None
  }

  function Participation(c: Contract, d: Decision): Option<real> {
    if c.positionUsd.None? || c.positionUsd.value <= 0.0 then None
    else if d.turnoverUsd.None? || d.turnoverUsd.value <= 0.0 then None
    else Some(c.positionUsd.value / d.turnoverUsd.value)
  }

  predicate Eligible(c: Contract, d: Decision) {
    && d.unavailable.None?
    && OiNotional(d).Some? && Participation(c, d).Some?
    && c.minOiNotional.Some? && c.maxParticipation.Some?
    && OiNotional(d).value >= c.minOiNotional.value
    && Participation(c, d).value <= c.maxParticipation.value
  }

  predicate AtLeast(x: Option<real>, floor: Option<real>) {
    x.Some? && floor.Some? && x.value >= floor.value
  }

  predicate AtMost(x: Option<real>, cap: Option<real>) {
    x.Some? && cap.Some? && x.value <= cap.value
  }

  predicate PrimaryFires(c: Contract, d: Decision) {
    && AtLeast(d.oiGrowth, c.minOiGrowth)
    && AtLeast(d.buyPressure, c.minBuyPressure)
    && AtMost(d.containment, c.maxContainment)
  }

  predicate NoOiFires(c: Contract, d: Decision) {
    AtLeast(d.buyPressure, c.minBuyPressure) && AtMost(d.containment, c.maxContainment)
  }

  predicate NoBuyFires(c: Contract, d: Decision) {
    AtLeast(d.oiGrowth, c.minOiGrowth) && AtMost(d.containment, c.maxContainment)
  }

  predicate NoContainmentFires(c: Contract, d: Decision) {
    AtLeast(d.oiGrowth, c.minOiGrowth) && AtLeast(d.buyPressure, c.minBuyPressure)
  }

  // ---- band keys ----------------------------------------------------------------------

  function Pow10(n: int): (r: real)
    ensures r > 0.0
    decreases if n < 0 then -n else n
  {
    if n == 0 then 1.0 else if n > 0 then 10.0 * Pow10(n - 1) else Pow10(n + 1) / 10.0
  }

  function LogMeasure(y: real): nat
    requires y > 0.0
  {
    if y >= 10.0 then y.Floor else if y < 1.0 then (1.0 / y).Floor else 0
  }

  lemma {:induction false} LogMeasureDrops(y: real)
    requires y > 0.0
    ensures y >= 10.0 ==> LogMeasure(y / 10.0) < LogMeasure(y)
    ensures y < 1.0 ==> LogMeasure(y * 10.0) < LogMeasure(y)
  {
    if y < 1.0 {
      var inv := 1.0 / y;
      assert inv * y == 1.0;
      assert inv > 1.0;
      if y * 10.0 < 1.0 {
        assert 1.0 / (y * 10.0) == inv / 10.0;
      }
    }
  }

  /** The decade of `y`: the only `n` with 10^n <= y < 10^(n+1). */
  function FloorLog10(y: real): (n: int)
    requires y > 0.0
    ensures Pow10(n) <= y < Pow10(n + 1)
    decreases LogMeasure(y)
  {
    LogMeasureDrops(y);
    if y >= 10.0 then FloorLog10(y / 10.0) + 1
    else if y < 1.0 then FloorLog10(y * 10.0) - 1
    else 0
  }

  datatype Band = Band(exchange: string, isoWeek: string, liquidity: int, movement: int)

  function Times(x: real, y: real): (r: real)
    requires x > 0.0 && y > 0.0
    ensures r > 0.0
  {
    x * y
  }

  /** floor(2 log10 x) is floor(log10 x^2): the half-decade of turnover. */
  function LiquidityBand(turnover: Option<real>): Option<int> {
    if turnover.Some? && turnover.value > 0.0
    then Some(FloorLog10(Times(turnover.value, turnover.value))) else None
  }

  function MovementBand(containment: Option<real>): Option<int> {
    if containment.Some? && containment.value >= 0.0
    then Some((containment.value * 100.0).Floor) else None
  }

  function BandKey(d: Decision): Option<Band> {
    var liquidity, movement := LiquidityBand(d.turnoverUsd), MovementBand(d.containment);
    if liquidity.None? || movement.None? then None
    else Some(Band(d.exchange, d.isoWeek, liquidity.value, movement.value))
  }
}
