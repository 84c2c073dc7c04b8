/**
 * The two carry simulations over the 4 h decision grid: every pair on its own, and one
 * slot of capital that takes the pair with the highest F24.
 */
module CarrySimulation {
  import opened Wrappers
  import opened Sorting
  import opened CarrySignal
  import opened CarryTrades
  import opened CarryMoney

  const DECISIONS_FROM_MS: int := 1_727_740_800_000  // 2024-10-01
  const LAST_FILL_MS: int := 1_790_640_000_000  // 2026-09-29
  const GRID: nat := 4368  // 4 h decisions from the first to one bar before the last fill

  /** Decision i, and the fill one bar later. */
  function DecisionAt(i: int): int { DECISIONS_FROM_MS + i * BAR_MS }
  function FillAt(i: int): int { DecisionAt(i) + BAR_MS }

  lemma {:induction false} GridEnds()
    ensures FillAt(GRID - 1) == LAST_FILL_MS
  {
  }

  lemma {:induction false} FillsAreBarsApart(i: int, j: int)
    requires i <= j
    ensures BarsAfter(FillAt(j), FillAt(i)) && (i < j ==> FillAt(i) + BAR_MS <= FillAt(j))
  {
    assert FillAt(j) - FillAt(i) == (j - i) * BAR_MS;
  }

  ghost predicate ValidSeries(s: Series) {
    NonzeroCloses(s) && HighsHaveCloses(s) && InOrder(s.funding)
  }

  type Path = seq<Option<real>>  // F24 at each decision

  predicate Enters(s: Series, path: Path, threshold: int, i: int)
    requires 0 <= i < |path|
  {
    path[i].Some? && path[i].value >= threshold as real && Both(s, FillAt(i))
  }

  predicate Leaves(path: Path, threshold: int, i: int)
    requires 0 <= i < |path|
  {
    path[i].None? || path[i].value < threshold as real / 2.0
  }

  /** A position entered on decision `enter` and left on decision `leave`; the grid's end closes it too. */
  datatype Held = Held(enter: nat, leave: nat, outcome: Outcome)

  datatype Missing = Missing(entryPrice: nat, fillPrice: nat, exitUnresolved: nat, noExitBar: nat)

  ghost predicate IsHeld(s: Series, symbol: string, path: Path, threshold: int, h: Held) {
    && h.enter < h.leave < |path|
    && Enters(s, path, threshold, h.enter) && Leaves(path, threshold, h.leave)
    && (forall i :: h.enter < i < h.leave ==> !Leaves(path, threshold, i))
    && h.outcome == MoneyOf(s, symbol, FillAt(h.enter), FillAt(h.leave), false)
  }

  ghost predicate IsHeldToEnd(s: Series, symbol: string, path: Path, threshold: int, h: Held) {
    && h.enter < h.leave == |path|
    && Enters(s, path, threshold, h.enter)
    && (forall i :: h.enter < i < |path| ==> !Leaves(path, threshold, i))
    && LastCommonFill(s).Some? && LastCommonFill(s).value > FillAt(h.enter)
    && h.outcome == MoneyOf(s, symbol, FillAt(h.enter), LastCommonFill(s).value, true)
  }

  function Formed(held: seq<Held>): seq<Trade> {
    if held == [] then []
    else Formed(held[..|held| - 1])
         + if held[|held| - 1].outcome.Formed? then [held[|held| - 1].outcome.trade] else []
  }

  /** Decisions a..b-1 open no position. */
  ghost predicate Idle(s: Series, path: Path, threshold: int, a: nat, b: nat) {
    b <= |path| && forall i :: a <= i < b ==> !Enters(s, path, threshold, i)
  }

  function NextFree(held: seq<Held>): nat {
    if held == [] then 0 else held[|held| - 1].leave + 1
  }

  /** The positions closed so far: in order, each one the first that could be opened. */
  ghost predicate IsHistory(s: Series, symbol: string, path: Path, threshold: int, held: seq<Held>) {
    held != [] ==>
      var before, h := held[..|held| - 1], held[|held| - 1];
      && IsHistory(s, symbol, path, threshold, before)
      && IsHeld(s, symbol, path, threshold, h)
      && NextFree(before) <= h.enter && Idle(s, path, threshold, NextFree(before), h.enter)
  }

  /** Every trade so far has exited by `f`. */
  ghost predicate AllOutBy(trades: seq<Trade>, f: int) {
    forall k :: 0 <= k < |trades| ==> trades[k].exitFill <= f
  }

  /** Every trade so far has exited by any fill still possible from decision i on. */
  ghost predicate ClearFrom(s: Series, trades: seq<Trade>, i: int) {
    forall j :: i <= j && Both(s, FillAt(j)) ==> AllOutBy(trades, FillAt(j))
  }

  ghost predicate DeadFrom(s: Series, i: int) {
    forall j :: i <= j ==> !Both(s, FillAt(j))
  }

  lemma {:induction false} ClosingClears(s: Series, symbol: string, trades: seq<Trade>, enter: nat, i: nat)
    requires ValidSeries(s) && enter < i && Both(s, FillAt(enter))
    requires Exclusive(trades) && AllOutBy(trades, FillAt(enter))
    ensures var r := MoneyOf(s, symbol, FillAt(enter), FillAt(i), false);
      match r
      case Formed(tr) => Exclusive(trades + [tr]) && ClearFrom(s, trades + [tr], i)
      case ExitUnresolved => DeadFrom(s, i)
      case _ => false
  {
    var r := MoneyOf(s, symbol, FillAt(enter), FillAt(i), false);
    LookupsNeverFail(s, symbol, FillAt(enter), FillAt(i), false);
    if r == DivisionByZero { DividesByEntryPrice(s, symbol, FillAt(enter), FillAt(i), false); }
    FillsAreBarsApart(enter, i);
    match r
    case Formed(tr) =>
      TradeTimes(s, symbol, FillAt(enter), FillAt(i), false, tr);
      forall j | i <= j && Both(s, FillAt(j)) ensures AllOutBy(trades + [tr], FillAt(j)) {
        FillsAreBarsApart(i, j);
        FillsAreBarsApart(enter, j);
      }
    case ExitUnresolved =>
      forall j | i <= j ensures !Both(s, FillAt(j)) {
        FillsAreBarsApart(i, j);
        UnresolvedIsFinal(s, symbol, FillAt(enter), FillAt(i), false, FillAt(j));
      }
    case _ =>
  }

  /** The last common fill closes whatever is still open. */
  lemma {:induction false} ClosingAtEnd(s: Series, symbol: string, trades: seq<Trade>, enter: nat, end: int)
    requires ValidSeries(s) && Both(s, FillAt(enter)) && LastCommonFill(s) == Some(end) && end > FillAt(enter)
    requires Exclusive(trades) && AllOutBy(trades, FillAt(enter))
    ensures var r := MoneyOf(s, symbol, FillAt(enter), end, true);
      r.Formed? && Exclusive(trades + [r.trade])
  {
    var r := MoneyOf(s, symbol, FillAt(enter), end, true);
    LookupsNeverFail(s, symbol, FillAt(enter), end, true);
    if MoneyOf(s, symbol, FillAt(enter), end, true) == DivisionByZero {
      DividesByEntryPrice(s, symbol, FillAt(enter), end, true);
    }
    TradeTimes(s, symbol, FillAt(enter), end, true, r.trade);
  }

  lemma {:induction false} FormedSnoc(held: seq<Held>, h: Held)
    ensures Formed(held + [h]) == Formed(held) + if h.outcome.Formed? then [h.outcome.trade] else []
  {
    assert (held + [h])[..|held|] == held;
  }

  /** The last position's exit never resolved. */
  ghost predicate Stuck(held: seq<Held>) {
    held != [] && held[|held| - 1].outcome == ExitUnresolved
  }

  ghost predicate OnlyLastUnresolved(held: seq<Held>) {
    forall k :: 0 <= k < |held| - 1 ==> held[k].outcome.Formed?
  }

  /** Where the walk over the grid stands before decision i. */
  ghost predicate PairState(s: Series, symbol: string, path: Path, threshold: int,
                            held: seq<Held>, open: Option<nat>, i: nat) {
    && IsHistory(s, symbol, path, threshold, held) && Exclusive(Formed(held))
    && NextFree(held) <= i <= |path|
    && OnlyLastUnresolved(held) && (Stuck(held) ==> open.None? && DeadFrom(s, i - 1))
    && (held != [] && !Stuck(held) ==> held[|held| - 1].outcome.Formed?)
    && match open
       case None => Idle(s, path, threshold, NextFree(held), i) && ClearFrom(s, Formed(held), i - 1)
       case Some(e) =>
         && NextFree(held) <= e < i && Enters(s, path, threshold, e)
         && Idle(s, path, threshold, NextFree(held), e)
         && (forall k :: e < k < i ==> !Leaves(path, threshold, k))
         && AllOutBy(Formed(held), FillAt(e))
  }

  /** A decision while flat: enter, or stay flat. */
  lemma {:induction false} FlatStep(s: Series, symbol: string, path: Path, threshold: int, held: seq<Held>, i: nat)
    requires i < |path| && PairState(s, symbol, path, threshold, held, None, i)
    ensures PairState(s, symbol, path, threshold, held,
                      if Enters(s, path, threshold, i) then Some(i) else None, i + 1)
  {
  }

  /** A decision while holding that keeps the position. */
  lemma {:induction false} KeepStep(s: Series, symbol: string, path: Path, threshold: int, held: seq<Held>, e: nat,
        i: nat)
    requires i < |path| && PairState(s, symbol, path, threshold, held, Some(e), i) && !Leaves(path, threshold, i)
    ensures PairState(s, symbol, path, threshold, held, Some(e), i + 1)
  {
  }

  /** A decision that closes the position. */
  lemma {:induction false} LeaveStep(s: Series, symbol: string, path: Path, threshold: int, held: seq<Held>, e: nat,
        i: nat, h: Held)
    requires ValidSeries(s) && i < |path| && PairState(s, symbol, path, threshold, held, Some(e), i)
    requires Leaves(path, threshold, i)
    requires h == Held(e, i, MoneyOf(s, symbol, FillAt(e), FillAt(i), false))
    ensures PairState(s, symbol, path, threshold, held + [h], None, i + 1)
    ensures h.outcome.Formed? || h.outcome == ExitUnresolved
  {
    ClosingClears(s, symbol, Formed(held), e, i);
    assert (held + [h])[..|held|] == held;
    FormedSnoc(held, h);
  }

  /** One pass over the grid, closing on signals only. */
  method WalkPair(s: Series, symbol: string, threshold: int, path: Path)
    returns (trades: seq<Trade>, missing: Missing, entry: Option<nat>, ghost held: seq<Held>)
    requires ValidSeries(s) && |path| == GRID
    ensures PairState(s, symbol, path, threshold, held, entry, GRID) && trades == Formed(held)
    ensures missing.exitUnresolved == (if Stuck(held) then 1 else 0) && missing.fillPrice == 0
  {
    trades, missing, held, entry := [], Missing(0, 0, 0, 0), [], None;
    for i := 0 to GRID
      invariant PairState(s, symbol, path, threshold, held, entry, i) && trades == Formed(held)
      invariant missing.exitUnresolved == (if Stuck(held) then 1 else 0) && missing.fillPrice == 0
    {
      var value := path[i];
      if entry.None? {
        FlatStep(s, symbol, path, threshold, held, i);
        if value.Some? && value.value >= threshold as real {
          if PriceAt(s.spot, FillAt(i)).None? || PriceAt(s.perp, FillAt(i)).None? {
            missing := missing.(entryPrice := missing.entryPrice + 1);
            continue;
          }
          entry := Some(i);
        }
      } else if value.None? || value.value < threshold as real / 2.0 {
        var result := Money(s, symbol, FillAt(entry.value), FillAt(i), false);
        ghost var h := Held(entry.value, i, result);
        LeaveStep(s, symbol, path, threshold, held, entry.value, i, h);
        FormedSnoc(held, h);
        trades, missing := Keep(result, trades, missing);
        held := held + [h];
        entry := None;
      } else {
        KeepStep(s, symbol, path, threshold, held, entry.value, i);
      }
    }
  }

  /** A position still open after the last decision is closed at the last common fill, if later. */
  method CloseAtEnd(s: Series, symbol: string, enter: nat, trades: seq<Trade>, missing: Missing)
    returns (trades': seq<Trade>, missing': Missing)
    requires ValidSeries(s) && Both(s, FillAt(enter)) && Exclusive(trades) && AllOutBy(trades, FillAt(enter))
    ensures Exclusive(trades')
    ensures LastCommonFill(s).value > FillAt(enter) ==>
      && MoneyOf(s, symbol, FillAt(enter), LastCommonFill(s).value, true).Formed?
      && trades' == trades + [MoneyOf(s, symbol, FillAt(enter), LastCommonFill(s).value, true).trade]
      && missing' == missing
    ensures LastCommonFill(s).value <= FillAt(enter) ==>
      trades' == trades && missing' == missing.(noExitBar := missing.noExitBar + 1)
  {
    var end := LastCommonFill(s);
    if end.Some? && end.value > FillAt(enter) {
      ClosingAtEnd(s, symbol, trades, enter, end.value);
      var result := Money(s, symbol, FillAt(enter), end.value, true);
      trades', missing' := Keep(result, trades, missing);
    } else {
      trades', missing' := trades, missing.(noExitBar := missing.noExitBar + 1);
    }
  }

  /**
   * One pair over the whole grid. The result's trades come from the positions of the
   * history: each opened at the first decision that could open one, closed at the first
   * that asks for it, never overlapping. An unresolved exit is the last position of all.
   */
  method SimulatePair(s: Series, symbol: string, threshold: int, path: Path)
    returns (trades: seq<Trade>, missing: Missing, ghost held: seq<Held>, ghost last: Option<Held>)
    requires ValidSeries(s) && |path| == GRID
    ensures Exclusive(trades)
    ensures trades == Formed(held) + if last.Some? && last.value.outcome.Formed? then [last.value.outcome.trade] else []
    ensures IsHistory(s, symbol, path, threshold, held) && OnlyLastUnresolved(held)
    ensures last.Some? ==>
      IsHeldToEnd(s, symbol, path, threshold, last.value) && Idle(s, path, threshold, NextFree(held), last.value.enter)
    ensures last.Some? ==> last.value.outcome.Formed? && !Stuck(held)
    ensures missing.exitUnresolved == (if Stuck(held) then 1 else 0) && missing.fillPrice == 0
  {
    var entry;
    trades, missing, entry, held := WalkPair(s, symbol, threshold, path);
    last := None;
    if entry.Some? {
      ghost var end := LastCommonFill(s);
      trades, missing := CloseAtEnd(s, symbol, entry.value, trades, missing);
      if end.value > FillAt(entry.value) {
        last := Some(Held(entry.value, GRID, MoneyOf(s, symbol, FillAt(entry.value), end.value, true)));
      }
    }
  }

  /** A formed trade is kept; anything else is counted. */
  method Keep(result: Outcome, trades: seq<Trade>, missing: Missing) returns (trades': seq<Trade>, missing': Missing)
    requires result.Formed? || result == ExitUnresolved || result == FillPriceMissing
    ensures result.Formed? ==> trades' == trades + [result.trade] && missing' == missing
    ensures result == ExitUnresolved ==>
      trades' == trades && missing' == missing.(exitUnresolved := missing.exitUnresolved + 1)
    ensures result == FillPriceMissing ==>
      trades' == trades && missing' == missing.(fillPrice := missing.fillPrice + 1)
  {
    match result
    case Formed(tr) => return trades + [tr], missing;
    case ExitUnresolved => return trades, missing.(exitUnresolved := missing.exitUnresolved + 1);
    case FillPriceMissing => return trades, missing.(fillPrice := missing.fillPrice + 1);
  }

  // ---- one slot -------------------------------------------------------------------------

  datatype Instrument = Instrument(symbol: string, series: Series, path: Path)

  /** The data of a run, in symbol order, one F24 path per pair. */
  ghost predicate ValidMarket(market: seq<Instrument>) {
    && (forall k :: 0 <= k < |market| ==> ValidSeries(market[k].series) && |market[k].path| == GRID)
    && (forall j, k :: 0 <= j < k < |market| ==>
          StrLe(market[j].symbol, market[k].symbol) && market[j].symbol != market[k].symbol)
  }

  /** The pair is eligible at decision i: F24 at the threshold and both fill prices there. */
  predicate Offers(m: Instrument, threshold: int, i: nat) {
    i < |m.path| && Enters(m.series, m.path, threshold, i)
  }

  /** The pick among the first n pairs: a later one must beat the earlier strictly. */
  function BestOf(market: seq<Instrument>, threshold: int, i: nat, n: nat): (best: Option<nat>)
    requires n <= |market|
    ensures best.Some? ==> best.value < n && Offers(market[best.value], threshold, i)
  {
    if n == 0 then None
    else
      var best := BestOf(market, threshold, i, n - 1);
      if !Offers(market[n - 1], threshold, i) then best
      else if best.Some? && market[n - 1].path[i].value <= market[best.value].path[i].value then best
      else Some(n - 1)
  }

  function BestAt(market: seq<Instrument>, threshold: int, i: nat): Option<nat> {
    BestOf(market, threshold, i, |market|)
  }

  /**
   * The pick is the eligible pair with the highest F24, the first symbol among equals; none
   * only if none is eligible.
   */
  lemma {:induction false} BestIsBest(market: seq<Instrument>, threshold: int, i: nat, n: nat, k: nat)
    requires n <= |market| && k < n && Offers(market[k], threshold, i)
    ensures BestOf(market, threshold, i, n).Some?
    ensures var b := BestOf(market, threshold, i, n).value;
      market[k].path[i].value < market[b].path[i].value
      || (market[k].path[i].value == market[b].path[i].value && b <= k)
  {
    if k < n - 1 { BestIsBest(market, threshold, i, n - 1, k); }
  }

  method PickBest(market: seq<Instrument>, threshold: int, i: nat) returns (best: Option<nat>)
    requires ValidMarket(market) && i < GRID
    ensures best == BestAt(market, threshold, i)
  {
    best := None;
    for k := 0 to |market|
      invariant best == BestOf(market, threshold, i, k)
    {
      var value := market[k].path[i];
      if value.None? || value.value < threshold as real { continue; }
      if best.Some? && value.value <= market[best.value].path[i].value { continue; }
      if PriceAt(market[k].series.spot, FillAt(i)).None? || PriceAt(market[k].series.perp, FillAt(i)).None? {
        continue;
      }
      best := Some(k);
    }
  }

  /** When the capital of a closed position is free again: never, if its exit is unresolved. */
  function BusyUntil(result: Outcome, signalExit: int): int {
    match result
    case Formed(tr) => if tr.exitFill >= signalExit then tr.exitFill else signalExit
    case ExitUnresolved => LAST_FILL_MS + BAR_MS
    case _ => signalExit
  }

  datatype SlotHeld = SlotHeld(pair: nat, pos: Held)

  function Positions(held: seq<SlotHeld>): (r: seq<Held>)
    ensures |r| == |held| && forall k :: 0 <= k < |held| ==> r[k] == held[k].pos
  {
    seq(|held|, k requires 0 <= k < |held| => held[k].pos)
  }

  function FreeFrom(held: seq<SlotHeld>): int {
    if held == [] then 0 else BusyUntil(held[|held| - 1].pos.outcome, FillAt(held[|held| - 1].pos.leave))
  }

  /** Decisions a..b-1 find no eligible pair once the slot's capital is free. */
  ghost predicate SlotIdle(market: seq<Instrument>, threshold: int, freeFrom: int, a: nat, b: nat) {
    forall i :: a <= i < b && FillAt(i) >= freeFrom ==> BestAt(market, threshold, i).None?
  }

  /** One closed position after `before`: the best pair, at the first decision with free capital and a pair. */
  ghost predicate FollowsSlot(market: seq<Instrument>, threshold: int, before: seq<SlotHeld>, h: SlotHeld) {
    && h.pair < |market|
    && IsHeld(market[h.pair].series, market[h.pair].symbol, market[h.pair].path, threshold, h.pos)
    && BestAt(market, threshold, h.pos.enter) == Some(h.pair)
    && FillAt(h.pos.enter) >= FreeFrom(before) && NextFree(Positions(before)) <= h.pos.enter
    && SlotIdle(market, threshold, FreeFrom(before), NextFree(Positions(before)), h.pos.enter)
  }

  ghost predicate IsSlotHistory(market: seq<Instrument>, threshold: int, held: seq<SlotHeld>) {
    held != [] ==>
      && IsSlotHistory(market, threshold, held[..|held| - 1])
      && FollowsSlot(market, threshold, held[..|held| - 1], held[|held| - 1])
  }

  datatype Slot = Flat | Holding(pair: nat, enter: nat)

  /** The closed positions of the slot and the capital they leave. */
  ghost predicate Ledger(market: seq<Instrument>, threshold: int, held: seq<SlotHeld>) {
    && IsSlotHistory(market, threshold, held)
    && SlotTrades(held)
  }

  ghost predicate SlotTrades(held: seq<SlotHeld>) {
    && Exclusive(Formed(Positions(held))) && AllOutBy(Formed(Positions(held)), FreeFrom(held))
    && OnlyLastUnresolved(Positions(held))
    && (held != [] && !Stuck(Positions(held)) ==> held[|held| - 1].pos.outcome.Formed?)
  }

  /** Where the single slot stands before decision i. */
  ghost predicate Standing(market: seq<Instrument>, threshold: int, freeFrom: int, since: nat, slot: Slot, i: nat) {
    && since <= i <= GRID
    && match slot
       case Flat => SlotIdle(market, threshold, freeFrom, since, i)
       case Holding(b, e) =>
         && b < |market| && since <= e < i <= |market[b].path|
         && FillAt(e) >= freeFrom
         && BestAt(market, threshold, e) == Some(b)
         && SlotIdle(market, threshold, freeFrom, since, e)
         && forall k :: e < k < i ==> !Leaves(market[b].path, threshold, k)
  }

  ghost predicate SlotState(market: seq<Instrument>, threshold: int, held: seq<SlotHeld>, slot: Slot, i: nat) {
    && Ledger(market, threshold, held)
    && Standing(market, threshold, FreeFrom(held), NextFree(Positions(held)), slot, i)
  }

  lemma {:induction false} FlatStanding(market: seq<Instrument>, threshold: int, freeFrom: int, since: nat, i: nat,
        best: Option<nat>)
    requires ValidMarket(market) && i < GRID && Standing(market, threshold, freeFrom, since, Flat, i)
    requires FillAt(i) >= freeFrom ==> best == BestAt(market, threshold, i)
    ensures Standing(market, threshold, freeFrom, since,
      if FillAt(i) >= freeFrom && best.Some? then Holding(best.value, i) else Flat, i + 1)
  {
  }

  lemma {:induction false} HoldingStanding(market: seq<Instrument>, threshold: int, freeFrom: int, since: nat, b: nat,
        e: nat, i: nat)
    requires ValidMarket(market) && i < GRID && Standing(market, threshold, freeFrom, since, Holding(b, e), i)
    requires !Leaves(market[b].path, threshold, i)
    ensures Standing(market, threshold, freeFrom, since, Holding(b, e), i + 1)
  {
  }

  /** A stuck slot never trades again: its capital is busy past the last fill. */
  lemma {:induction false} StuckSlot(held: seq<SlotHeld>, i: nat)
    requires i < GRID && Stuck(Positions(held))
    ensures FillAt(i) < FreeFrom(held)
  {
    GridEnds();
    FillsAreBarsApart(i, GRID - 1);
  }

  lemma {:induction false} PositionsSnoc(held: seq<SlotHeld>, h: SlotHeld)
    ensures Positions(held + [h]) == Positions(held) + [h.pos]
  {
  }

  lemma {:induction false} StuckSlotContra(held: seq<SlotHeld>, e: nat)
    requires e < GRID && FillAt(e) >= FreeFrom(held)
    ensures !Stuck(Positions(held))
  {
    if Stuck(Positions(held)) { StuckSlot(held, e); }
  }

  lemma {:induction false} SlotHistorySnoc(market: seq<Instrument>, threshold: int, held: seq<SlotHeld>, h: SlotHeld)
    requires IsSlotHistory(market, threshold, held) && FollowsSlot(market, threshold, held, h)
    ensures IsSlotHistory(market, threshold, held + [h])
  {
    assert (held + [h])[..|held|] == held;
  }

  lemma {:induction false} LeavingFollows(market: seq<Instrument>, threshold: int, held: seq<SlotHeld>, b: nat, e: nat,
        i: nat, h: SlotHeld)
    requires ValidMarket(market) && i < GRID
    requires Standing(market, threshold, FreeFrom(held), NextFree(Positions(held)), Holding(b, e), i)
    requires Leaves(market[b].path, threshold, i)
    requires h == SlotHeld(b, Held(e, i, MoneyOf(market[b].series, market[b].symbol, FillAt(e), FillAt(i), false)))
    ensures FollowsSlot(market, threshold, held, h)
  {
  }

  /** Closing frees the slot after the new trade's exit, or never. */
  lemma {:induction false} LeavingTrades(held: seq<SlotHeld>, e: nat, i: nat, h: SlotHeld)
    requires e < i < GRID && FillAt(e) >= FreeFrom(held) && h.pos.leave == i
    requires SlotTrades(held) && !Stuck(Positions(held))
    requires h.pos.outcome.Formed? || h.pos.outcome == ExitUnresolved
    requires h.pos.outcome.Formed? ==> Exclusive(Formed(Positions(held)) + [h.pos.outcome.trade])
    ensures SlotTrades(held + [h])
  {
    PositionsSnoc(held, h);
    FormedSnoc(Positions(held), h.pos);
    GridEnds();
    FillsAreBarsApart(e, i);
    FillsAreBarsApart(i, GRID - 1);
  }

  /** A decision that closes the slot's position. */
  lemma {:induction false} SlotLeave(market: seq<Instrument>, threshold: int, held: seq<SlotHeld>, b: nat, e: nat,
        i: nat, h: SlotHeld)
    requires ValidMarket(market) && i < GRID && SlotState(market, threshold, held, Holding(b, e), i)
    requires Leaves(market[b].path, threshold, i)
    requires h == SlotHeld(b, Held(e, i, MoneyOf(market[b].series, market[b].symbol, FillAt(e), FillAt(i), false)))
    ensures SlotState(market, threshold, held + [h], Flat, i + 1)
    ensures (h.pos.outcome.Formed? || h.pos.outcome == ExitUnresolved) && !Stuck(Positions(held))
  {
    StuckSlotContra(held, e);
    ClosingClears(market[b].series, market[b].symbol, Formed(Positions(held)), e, i);
    LeavingFollows(market, threshold, held, b, e, i, h);
    SlotHistorySnoc(market, threshold, held, h);
    LeavingTrades(held, e, i, h);
  }

  lemma {:induction false} BooksSnoc(held: seq<SlotHeld>, h: SlotHeld, freeFrom: int, trades: seq<Trade>,
        missing: Missing)
    requires SlotBooks(held, freeFrom, trades, missing) && !Stuck(Positions(held))
    ensures var next := BusyUntil(h.pos.outcome, FillAt(h.pos.leave));
      && (h.pos.outcome.Formed? ==> SlotBooks(held + [h], next, trades + [h.pos.outcome.trade], missing))
      && (h.pos.outcome == ExitUnresolved ==>
            SlotBooks(held + [h], next, trades, missing.(exitUnresolved := missing.exitUnresolved + 1)))
  {
    PositionsSnoc(held, h);
    FormedSnoc(Positions(held), h.pos);
  }

  /** A decision while holding: close on signal, or keep the position. */
  method SlotHoldingStep(market: seq<Instrument>, threshold: int, slot: Slot, i: nat, freeFrom: int,
                         trades: seq<Trade>, missing: Missing, ghost held: seq<SlotHeld>)
    returns (slot': Slot, freeFrom': int, trades': seq<Trade>, missing': Missing, ghost held': seq<SlotHeld>)
    requires ValidMarket(market) && i < GRID && slot.Holding?
    requires SlotState(market, threshold, held, slot, i)
    requires SlotBooks(held, freeFrom, trades, missing)
    ensures SlotState(market, threshold, held', slot', i + 1)
    ensures SlotBooks(held', freeFrom', trades', missing')
  {
    slot', freeFrom', trades', missing', held' := slot, freeFrom, trades, missing, held;
    var m := market[slot.pair];
    var value := m.path[i];
    if value.None? || value.value < threshold as real / 2.0 {
      var result := Money(m.series, m.symbol, FillAt(slot.enter), FillAt(i), false);
      ghost var h := SlotHeld(slot.pair, Held(slot.enter, i, result));
      SlotLeave(market, threshold, held, slot.pair, slot.enter, i, h);
      BooksSnoc(held, h, freeFrom, trades, missing);
      trades', missing' := Keep(result, trades, missing);
      freeFrom' := BusyUntil(result, FillAt(i));
      held' := held + [h];
      slot' := Flat;
    } else {
      HoldingStanding(market, threshold, FreeFrom(held), NextFree(Positions(held)), slot.pair, slot.enter, i);
    }
  }

  /** A decision while flat: wait for the capital, or take the best pair. */
  method SlotFlatStep(market: seq<Instrument>, threshold: int, i: nat, freeFrom: int, ghost since: nat)
    returns (slot: Slot)
    requires ValidMarket(market) && i < GRID && Standing(market, threshold, freeFrom, since, Flat, i)
    ensures Standing(market, threshold, freeFrom, since, slot, i + 1)
  {
    if FillAt(i) < freeFrom {
      FlatStanding(market, threshold, freeFrom, since, i, None);
      return Flat;
    }
    var best := PickBest(market, threshold, i);
    FlatStanding(market, threshold, freeFrom, since, i, best);
    slot := if best.Some? then Holding(best.value, i) else Flat;
  }

  /** The running totals agree with the closed positions. */
  ghost predicate SlotBooks(held: seq<SlotHeld>, freeFrom: int, trades: seq<Trade>, missing: Missing) {
    && freeFrom == FreeFrom(held) && trades == Formed(Positions(held))
    && missing.exitUnresolved == (if Stuck(Positions(held)) then 1 else 0) && missing.fillPrice == 0
  }

  /** One position at a time: the eligible pair with the highest F24, ties by symbol. */
  method WalkSlot(market: seq<Instrument>, threshold: int)
    returns (trades: seq<Trade>, missing: Missing, slot: Slot, ghost held: seq<SlotHeld>)
    requires ValidMarket(market)
    ensures SlotState(market, threshold, held, slot, GRID)
    ensures exists freeFrom :: SlotBooks(held, freeFrom, trades, missing)
  {
    trades, missing, slot, held := [], Missing(0, 0, 0, 0), Flat, [];
    var freeFrom := 0;
    for i := 0 to GRID
      invariant SlotState(market, threshold, held, slot, i)
      invariant SlotBooks(held, freeFrom, trades, missing)
    {
      if slot.Holding? {
        slot, freeFrom, trades, missing, held :=
          SlotHoldingStep(market, threshold, slot, i, freeFrom, trades, missing, held);
      } else {
        slot := SlotFlatStep(market, threshold, i, freeFrom, NextFree(Positions(held)));
      }
    }
  }

  /**
   * The position still held after the last decision: the best pair when it was entered, closed
   * at its last common fill.
   */
  ghost predicate EndsSlot(market: seq<Instrument>, threshold: int, before: seq<SlotHeld>, h: SlotHeld) {
    && h.pair < |market|
    && IsHeldToEnd(market[h.pair].series, market[h.pair].symbol, market[h.pair].path, threshold, h.pos)
    && BestAt(market, threshold, h.pos.enter) == Some(h.pair) && FillAt(h.pos.enter) >= FreeFrom(before)
    && SlotIdle(market, threshold, FreeFrom(before), NextFree(Positions(before)), h.pos.enter)
  }

  /**
   * The one-slot simulation: positions follow one another without overlap, each the best
   * pair at the first decision with free capital; after an unresolved exit nothing follows.
   */
  method SimulateOneSlot(market: seq<Instrument>, threshold: int)
    returns (trades: seq<Trade>, missing: Missing, ghost held: seq<SlotHeld>, ghost last: Option<SlotHeld>)
    requires ValidMarket(market)
    ensures Exclusive(trades)
    ensures trades == Formed(Positions(held))
                    + if last.Some? && last.value.pos.outcome.Formed? then [last.value.pos.outcome.trade] else []
    ensures IsSlotHistory(market, threshold, held) && OnlyLastUnresolved(Positions(held))
    ensures last.Some? ==>
      last.value.pos.outcome.Formed? && !Stuck(Positions(held)) && EndsSlot(market, threshold, held, last.value)
    ensures missing.exitUnresolved == (if Stuck(Positions(held)) then 1 else 0) && missing.fillPrice == 0
  {
    var slot;
    trades, missing, slot, held := WalkSlot(market, threshold);
    last := None;
    if slot.Holding? {
      var m := market[slot.pair];
      StuckSlotContra(held, slot.enter);
      trades, missing := CloseAtEnd(m.series, m.symbol, slot.enter, trades, missing);
      ghost var end := LastCommonFill(m.series);
      if end.value > FillAt(slot.enter) {
        last := Some(SlotHeld(slot.pair, Held(slot.enter, GRID,
          MoneyOf(m.series, m.symbol, FillAt(slot.enter), end.value, true))));
      }
    }
  }

  /** The summary's concurrency figure never exceeds one on the one-slot trades. */
  method OneSlotConcurrency(market: seq<Instrument>, threshold: int) returns (peak: int)
    requires ValidMarket(market)
    ensures 0 <= peak <= 1
  {
    var trades, missing, held, last := SimulateOneSlot(market, threshold);
    peak := MaxConcurrent(trades);
    ExclusivePeak(trades, peak);
  }
}
