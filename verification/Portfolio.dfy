/**
 * The slot rule on its own: walk rows in entry order and take a row unless every slot is
 * busy at its entry. `at` gives a row's entry time.
 */
module SlotRule {
  import opened Sorting

  function StillOpen(t: int, horizon: int): int -> bool { (e: int) => e + horizon > t }

  /** Positions among `entries` whose horizon has not ended at `t`. */
  function Busy(entries: seq<int>, t: int, horizon: int): nat {
    |Filter(entries, StillOpen(t, horizon))|
  }

  function HeldAt(t: int, horizon: int): int -> bool { (e: int) => e <= t < e + horizon }

  /** Positions held at instant `t`. */
  function Held(entries: seq<int>, t: int, horizon: int): nat {
    |Filter(entries, HeldAt(t, horizon))|
  }

  function Entries<T>(rows: seq<T>, at: T -> int): (r: seq<int>)
    ensures |r| == |rows| && forall i :: 0 <= i < |rows| ==> r[i] == at(rows[i])
  {
    seq(|rows|, i requires 0 <= i < |rows| => at(rows[i]))
  }

  ghost predicate InTime<T>(rows: seq<T>, at: T -> int) {
    forall i, j :: 0 <= i < j < |rows| ==> at(rows[i]) <= at(rows[j])
  }

  function Select<T>(rows: seq<T>, at: T -> int, slots: nat, horizon: int): (taken: seq<T>)
    ensures |taken| <= |rows|
  {
    if rows == [] then []
    else
      var taken, row := Select(rows[..|rows| - 1], at, slots, horizon), rows[|rows| - 1];
      if Busy(Entries(taken, at), at(row), horizon) >= slots then taken else taken + [row]
  }

  lemma {:induction false} SelectSnoc<T>(rows: seq<T>, row: T, at: T -> int, slots: nat, horizon: int)
    ensures Select(rows + [row], at, slots, horizon)
         == var taken := Select(rows, at, slots, horizon);
            if Busy(Entries(taken, at), at(row), horizon) >= slots then taken else taken + [row]
  {
    assert (rows + [row])[..|rows|] == rows;
  }

  lemma {:induction false} EntriesSnoc<T>(rows: seq<T>, row: T, at: T -> int)
    ensures Entries(rows + [row], at) == Entries(rows, at) + [at(row)]
  {
  }

  // ---- the source's list of active ends -------------------------------------------------

  function After(t: int): int -> bool { (x: int) => x > t }

  /** From `seen` on, the list of ends prunes down to one end per busy position. */
  ghost predicate TracksBusy(ends: seq<int>, entries: seq<int>, seen: int, horizon: int) {
    forall t :: t >= seen ==> |Filter(ends, After(t))| == Busy(entries, t, horizon)
  }

  lemma {:induction false} Prune(ends: seq<int>, entries: seq<int>, seen: int, t: int, horizon: int)
    requires TracksBusy(ends, entries, seen, horizon) && seen <= t
    ensures TracksBusy(Filter(ends, After(t)), entries, t, horizon)
    ensures |Filter(ends, After(t))| == Busy(entries, t, horizon)
  {
    forall u | u >= t ensures |Filter(Filter(ends, After(t)), After(u))| == Busy(entries, u, horizon) {
      FilterFilter(ends, After(t), After(u), After(u));
    }
  }

  lemma {:induction false} AddEnd(ends: seq<int>, entries: seq<int>, seen: int, e: int, horizon: int)
    requires TracksBusy(ends, entries, seen, horizon)
    ensures TracksBusy(ends + [e + horizon], entries + [e], seen, horizon)
  {
    forall t | t >= seen ensures |Filter(ends + [e + horizon], After(t))| == Busy(entries + [e], t, horizon) {
      FilterSnoc(ends, e + horizon, After(t));
      FilterSnoc(entries, e, StillOpen(t, horizon));
      assert |Filter(ends, After(t))| == Busy(entries, t, horizon);
    }
  }

  /** One row of the loop: prune the ends, then either every slot is busy or one more end is added. */
  lemma {:induction false} OfferRow(ends: seq<int>, entries: seq<int>, seen: int, e: int, horizon: int)
    requires TracksBusy(ends, entries, seen, horizon) && seen <= e
    ensures |Filter(ends, After(e))| == Busy(entries, e, horizon)
    ensures TracksBusy(Filter(ends, After(e)), entries, e, horizon)
    ensures TracksBusy(Filter(ends, After(e)) + [e + horizon], entries + [e], e, horizon)
  {
    Prune(ends, entries, seen, e, horizon);
    AddEnd(Filter(ends, After(e)), entries, e, e, horizon);
  }

  /** The loop's variables after the rows seen so far. */
  ghost predicate SelectState<T>(rows: seq<T>, at: T -> int, slots: nat, horizon: int, taken: seq<T>, ends: seq<int>,
        seen: int) {
    taken == Select(rows, at, slots, horizon) && TracksBusy(ends, Entries(taken, at), seen, horizon)
  }

  lemma {:induction false} SelectStep<T>(rows: seq<T>, row: T, at: T -> int, slots: nat, horizon: int,
                                         taken: seq<T>, ends: seq<int>, seen: int)
    requires SelectState(rows, at, slots, horizon, taken, ends, seen) && seen <= at(row)
    ensures var left := Filter(ends, After(at(row)));
      if |left| >= slots then SelectState(rows + [row], at, slots, horizon, taken, left, at(row))
      else SelectState(rows + [row], at, slots, horizon, taken + [row], left + [at(row) + horizon], at(row))
  {
    OfferRow(ends, Entries(taken, at), seen, at(row), horizon);
    SelectSnoc(rows, row, at, slots, horizon);
    EntriesSnoc(taken, row, at);
  }

  lemma {:induction false} SelectNext<T>(ordered: seq<T>, i: nat, at: T -> int, slots: nat, horizon: int,
                                         taken: seq<T>, ends: seq<int>, seen: int)
    requires i < |ordered| && SelectState(ordered[..i], at, slots, horizon, taken, ends, seen) && seen <= at(ordered[i])
    ensures var row, left := ordered[i], Filter(ends, After(at(ordered[i])));
      if |left| >= slots then SelectState(ordered[..i + 1], at, slots, horizon, taken, left, at(row))
      else SelectState(ordered[..i + 1], at, slots, horizon, taken + [row], left + [at(row) + horizon], at(row))
  {
    SelectStep(ordered[..i], ordered[i], at, slots, horizon, taken, ends, seen);
    assert ordered[..i + 1] == ordered[..i] + [ordered[i]];
  }

  /** One row: prune the ends, then skip it or take it. */
  method OfferOne<T>(ordered: seq<T>, i: nat, at: T -> int, slots: nat, horizon: int,
                     taken: seq<T>, ends: seq<int>, ghost seen: int)
    returns (taken': seq<T>, ends': seq<int>, skipped: bool)
    requires i < |ordered| && SelectState(ordered[..i], at, slots, horizon, taken, ends, seen) && seen <= at(ordered[i])
    ensures SelectState(ordered[..i + 1], at, slots, horizon, taken', ends', at(ordered[i]))
    ensures |taken'| + (if skipped then 1 else 0) == |taken| + 1
  {
    var row := ordered[i];
    SelectNext(ordered, i, at, slots, horizon, taken, ends, seen);
    ends' := Filter(ends, After(at(row)));
    if |ends'| >= slots { return taken, ends', true; }
    taken', ends', skipped := taken + [row], ends' + [at(row) + horizon], false;
  }

  method SelectOrdered<T>(ordered: seq<T>, at: T -> int, slots: nat, horizon: int) returns (taken: seq<T>, skipped: nat)
    requires InTime(ordered, at)
    ensures taken == Select(ordered, at, slots, horizon)
    ensures |taken| + skipped == |ordered|
  {
    var activeEnds: seq<int> := [];
    taken, skipped := [], 0;
    ghost var seen := if ordered == [] then 0 else at(ordered[0]);
    for i := 0 to |ordered|
      invariant SelectState(ordered[..i], at, slots, horizon, taken, activeEnds, seen) && |taken| + skipped == i
      invariant i < |ordered| ==> seen <= at(ordered[i])
    {
      var full;
      taken, activeEnds, full := OfferOne(ordered, i, at, slots, horizon, taken, activeEnds, seen);
      if full { skipped := skipped + 1; }
      seen := at(ordered[i]);
    }
    assert ordered[..|ordered|] == ordered;
  }

  // ---- what a selection keeps -------------------------------------------------------------

  /** In time order, everything taken so far was entered no later than the last row. */
  lemma {:induction false} SelectInTime<T(!new)>(rows: seq<T>, at: T -> int, slots: nat, horizon: int)
    requires InTime(rows, at)
    ensures InTime(Select(rows, at, slots, horizon), at)
    ensures forall i :: 0 <= i < |Select(rows, at, slots, horizon)| ==>
      at(Select(rows, at, slots, horizon)[i]) <= at(rows[|rows| - 1])
  {
    if |rows| > 1 { SelectInTime(rows[..|rows| - 1], at, slots, horizon); }
  }

  /** Every taken row found a free slot among those taken before it. */
  lemma {:induction false} TakenFits<T>(rows: seq<T>, at: T -> int, slots: nat, horizon: int, k: nat)
    requires k < |Select(rows, at, slots, horizon)|
    ensures var taken := Select(rows, at, slots, horizon);
      Busy(Entries(taken[..k], at), at(taken[k]), horizon) < slots
  {
    var front := rows[..|rows| - 1];
    var before, taken := Select(front, at, slots, horizon), Select(rows, at, slots, horizon);
    if k < |before| {
      TakenFits(front, at, slots, horizon, k);
      assert taken[..k] == before[..k];
    } else {
      assert taken[..k] == before;
    }
  }

  /** At no instant are more positions held than there are slots. */
  lemma {:induction false} NeverOverSlots<T>(rows: seq<T>, at: T -> int, slots: nat, horizon: int, t: int)
    ensures Held(Entries(Select(rows, at, slots, horizon), at), t, horizon) <= slots
  {
    if rows != [] {
      var front, row := rows[..|rows| - 1], rows[|rows| - 1];
      var before := Select(front, at, slots, horizon);
      NeverOverSlots(front, at, slots, horizon, t);
      EntriesSnoc(before, row, at);
      FilterSnoc(Entries(before, at), at(row), HeldAt(t, horizon));
      if at(row) <= t {
        FilterGrows(Entries(before, at), HeldAt(t, horizon), StillOpen(at(row), horizon));
      }
    }
  }

  /** Positions entered by `t` are busy at `t` exactly when they are held at `t`. */
  lemma {:induction false} BusyIsHeld(entries: seq<int>, t: int, horizon: int)
    requires forall i :: 0 <= i < |entries| ==> entries[i] <= t
    ensures Busy(entries, t, horizon) == Held(entries, t, horizon)
  {
    if entries != [] {
      BusyIsHeld(entries[..|entries| - 1], t, horizon);
    }
  }

  /** A row is skipped exactly when all slots are held, by positions entered no later. */
  lemma {:induction false} SkippedOnlyWhenFull<T(!new)>(rows: seq<T>, at: T -> int, slots: nat, horizon: int, i: nat)
    requires InTime(rows, at) && i < |rows|
    ensures var before, now := Select(rows[..i], at, slots, horizon), Select(rows[..i + 1], at, slots, horizon);
      if |now| == |before| then now == before && Held(Entries(before, at), at(rows[i]), horizon) == slots
      else now == before + [rows[i]] && Held(Entries(before, at), at(rows[i]), horizon) < slots
  {
    var before := Select(rows[..i], at, slots, horizon);
    assert rows[..i + 1] == rows[..i] + [rows[i]];
    SelectSnoc(rows[..i], rows[i], at, slots, horizon);
    SelectInTime(rows[..i], at, slots, horizon);
    NeverOverSlots(rows[..i], at, slots, horizon, at(rows[i]));
    BusyIsHeld(Entries(before, at), at(rows[i]), horizon);
  }
}

/**
 * Slot-limited portfolio: the outcome-blind selection of decisions, and the dollar
 * simulation that later repeats the slot rule on the selected ones.
 */
module Portfolio {
  import opened Wrappers
  import opened Sorting
  import opened FlowDecisions
  import opened SlotRule

  /** Entry is one minute after the decision. */
  function EntryAt(d: Decision): int { d.decisionAt + 1 }

  function Slots(c: Contract): nat { if c.maxSlots.None? || c.maxSlots.value == 0 then 1 else c.maxSlots.value }

  predicate TextKeyLe(a: Decision, b: Decision) {
    if a.exchange != b.exchange then StrLe(a.exchange, b.exchange)
    else if a.marketType != b.marketType then StrLe(a.marketType, b.marketType)
    else if a.nativeId != b.nativeId then StrLe(a.nativeId, b.nativeId)
    else StrLe(a.captureVersion, b.captureVersion)
  }

  /** Entry time, then the full route key. */
  predicate SelectionLe(a: Decision, b: Decision) {
    a.decisionAt < b.decisionAt || (a.decisionAt == b.decisionAt && TextKeyLe(a, b))
  }

  lemma {:induction false} SelectionOrder(ds: seq<Decision>)
    ensures InTime(StableSort(ds, SelectionLe), EntryAt)
  {
    StrLeOrder();
    StableSortSorted(ds, SelectionLe);
  }

  function Selected(c: Contract, ds: seq<Decision>): seq<Decision> {
    Select(StableSort(ds, SelectionLe), EntryAt, Slots(c), c.horizonMinutes)
  }

  method SelectPortfolio(c: Contract, ds: seq<Decision>) returns (taken: seq<Decision>, skipped: nat)
    ensures taken == Selected(c, ds)
    ensures |taken| + skipped == |ds|
  {
    SelectionOrder(ds);
    taken, skipped := SelectOrdered(StableSort(ds, SelectionLe), EntryAt, Slots(c), c.horizonMinutes);
  }

  // ---- the dollar simulation --------------------------------------------------------------

  /** A selected decision's time and net return; None while its outcome is unresolved. */
  datatype Pick = Pick(at: int, pnl: Option<real>)

  datatype Bank = Bank(bank: real, position: real, slots: nat, horizon: int)

  /**
   * A run: entry times of the trades taken, returns of the resolved ones, and the capital
   * before the first and after each of those; skips split by cause.
   */
  datatype Run = Run(entered: seq<int>, pnls: seq<real>, capitals: seq<real>,
                     capacitySkips: nat, capitalSkips: nat, unresolved: bool)
  {
    function Capital(): real
      requires capitals != []
    {
      capitals[|capitals| - 1]
    }
  }

  function TimeOf(p: Pick): int { p.at }

  function Smaller(a: real, b: real): real { if a <= b then a else b }

  function Usd(size: real, pnl: real): real { size * pnl }

  function Step(b: Bank, run: Run, at: int, pnl: Option<real>): (r: Run)
    requires run.capitals != []
    ensures r.capitals != []
  {
    var size := Smaller(b.position, run.Capital());
    if Busy(run.entered, at, b.horizon) >= b.slots then run.(capacitySkips := run.capacitySkips + 1)
    else if size <= 0.0 then run.(capitalSkips := run.capitalSkips + 1)
    else if pnl.None? then run.(entered := run.entered + [at], unresolved := true)
    else run.(entered := run.entered + [at], pnls := run.pnls + [pnl.value],
              capitals := run.capitals + [run.Capital() + Usd(size, pnl.value)])
  }

  function Simulate(b: Bank, picks: seq<Pick>): (r: Run)
    ensures r.capitals != []
  {
    if picks == [] then Run([], [], [b.bank], 0, 0, false)
    else
      var p := picks[|picks| - 1];
      Step(b, Simulate(b, picks[..|picks| - 1]), TimeOf(p), p.pnl)
  }

  /** Every pick is taken or skipped for exactly one cause. */
  lemma {:induction false} SimulateCounts(b: Bank, picks: seq<Pick>)
    ensures var run := Simulate(b, picks);
      |run.entered| + run.capacitySkips + run.capitalSkips == |picks|
  {
    if picks != [] { SimulateCounts(b, picks[..|picks| - 1]); }
  }

  lemma {:induction false} StepEnters(b: Bank, run: Run, at: int, pnl: Option<real>)
    requires run.capitals != []
    ensures var next := Step(b, run, at, pnl);
      && (next.entered == run.entered || next.entered == run.entered + [at])
      && (Busy(run.entered, at, b.horizon) < b.slots ==> next.capacitySkips == run.capacitySkips)
  {
  }

  /** The trades entered are at most as busy as all the picks would be. */
  lemma {:induction false} EnteredWithinPicks(b: Bank, picks: seq<Pick>, t: int)
    ensures Busy(Simulate(b, picks).entered, t, b.horizon) <= Busy(Entries(picks, TimeOf), t, b.horizon)
  {
    if picks != [] {
      var front, p := picks[..|picks| - 1], picks[|picks| - 1];
      EnteredWithinPicks(b, front, t);
      assert picks == front + [p];
      EntriesSnoc(front, p, TimeOf);
      FilterSnoc(Entries(front, TimeOf), p.at, StillOpen(t, b.horizon));
      FilterSnoc(Simulate(b, front).entered, p.at, StillOpen(t, b.horizon));
      StepEnters(b, Simulate(b, front), p.at, p.pnl);
    }
  }

  ghost predicate FitSlots(b: Bank, picks: seq<Pick>) {
    forall k :: 0 <= k < |picks| ==> Busy(Entries(picks[..k], TimeOf), TimeOf(picks[k]), b.horizon) < b.slots
  }

  lemma {:induction false} FittingPicksNeverSkipForCapacity(b: Bank, picks: seq<Pick>)
    requires FitSlots(b, picks)
    ensures Simulate(b, picks).capacitySkips == 0
  {
    if picks != [] {
      var front, p := picks[..|picks| - 1], picks[|picks| - 1];
      assert forall k :: 0 <= k < |front| ==> front[..k] == picks[..k];
      FittingPicksNeverSkipForCapacity(b, front);
      EnteredWithinPicks(b, front, p.at);
      StepEnters(b, Simulate(b, front), p.at, p.pnl);
    }
  }

  lemma {:induction false} ShiftedBusy(entries: seq<int>, later: seq<int>, t: int, horizon: int)
    requires |later| == |entries| && forall i :: 0 <= i < |entries| ==> later[i] == entries[i] + 1
    ensures Busy(later, t + 1, horizon) == Busy(entries, t, horizon)
  {
    if entries != [] {
      ShiftedBusy(entries[..|entries| - 1], later[..|later| - 1], t, horizon);
    }
  }

  predicate PickLe(a: Pick, b: Pick) { a.at <= b.at }

  lemma {:induction false} TakenPicksFit(rows: seq<Decision>, picks: seq<Pick>, b: Bank)
    requires var taken := Select(rows, EntryAt, b.slots, b.horizon);
      |picks| == |taken| && forall k :: 0 <= k < |picks| ==> picks[k].at + 1 == EntryAt(taken[k])
    ensures FitSlots(b, picks)
  {
    var taken := Select(rows, EntryAt, b.slots, b.horizon);
    forall k | 0 <= k < |picks| ensures Busy(Entries(picks[..k], TimeOf), TimeOf(picks[k]), b.horizon) < b.slots {
      TakenFits(rows, EntryAt, b.slots, b.horizon, k);
      ShiftedBusy(Entries(picks[..k], TimeOf), Entries(taken[..k], EntryAt), picks[k].at, b.horizon);
    }
  }

  lemma {:induction false} TakenPicksSorted(rows: seq<Decision>, picks: seq<Pick>, b: Bank)
    requires InTime(rows, EntryAt)
    requires var taken := Select(rows, EntryAt, b.slots, b.horizon);
      |picks| == |taken| && forall k :: 0 <= k < |picks| ==> picks[k].at + 1 == EntryAt(taken[k])
    ensures Sorted(picks, PickLe)
  {
    if rows != [] { SelectInTime(rows, EntryAt, b.slots, b.horizon); }
  }

  /**
   * The simulation of a selection: sorting leaves its order alone, and the slot rule never
   * refuses a pick a second time, so whatever it skips, it skips for want of capital.
   */
  lemma {:induction false} SelectionNeverSkipsAgain(c: Contract, ds: seq<Decision>, picks: seq<Pick>, b: Bank)
    requires b.slots == Slots(c) && b.horizon == c.horizonMinutes
    requires |picks| == |Selected(c, ds)|
    requires forall k :: 0 <= k < |picks| ==> picks[k].at == Selected(c, ds)[k].decisionAt
    ensures StableSort(picks, PickLe) == picks
    ensures Simulate(b, StableSort(picks, PickLe)).capacitySkips == 0
  {
    SelectionOrder(ds);
    TakenPicksSorted(StableSort(ds, SelectionLe), picks, b);
    StableSortOfSorted(picks, PickLe);
    TakenPicksFit(StableSort(ds, SelectionLe), picks, b);
    FittingPicksNeverSkipForCapacity(b, picks);
  }

  // ---- drawdown and losing streak -----------------------------------------------------------

  ghost predicate IsHighest(xs: seq<real>, top: real) {
    (forall i :: 0 <= i < |xs| ==> xs[i] <= top) && exists i :: 0 <= i < |xs| && xs[i] == top
  }

  /** The deepest fall from any capital to the same or a later one. */
  ghost predicate IsMaxDrawdown(xs: seq<real>, dd: real) {
    && (forall i, j :: 0 <= i <= j < |xs| ==> xs[i] - xs[j] <= dd)
    && exists i, j :: 0 <= i <= j < |xs| && xs[i] - xs[j] == dd
  }

  ghost predicate Losing(ps: seq<real>, i: int, j: int) {
    0 <= i <= j <= |ps| && forall k :: i <= k < j ==> ps[k] < 0.0
  }

  /** The longest stretch of consecutive losses. */
  ghost predicate IsLongestLosing(ps: seq<real>, n: nat) {
    && (forall i, j :: Losing(ps, i, j) ==> j - i <= n)
    && exists i, j :: Losing(ps, i, j) && j - i == n
  }

  /** The stretch of losses that ends now. */
  ghost predicate IsStreak(ps: seq<real>, n: nat) {
    n <= |ps| && Losing(ps, |ps| - n, |ps|) && (n < |ps| ==> ps[|ps| - n - 1] >= 0.0)
  }

  function Max(a: real, b: real): real { if a >= b then a else b }

  lemma {:induction false} HighestSnoc(xs: seq<real>, top: real, x: real)
    requires IsHighest(xs, top)
    ensures IsHighest(xs + [x], Max(top, x))
  {
    var i :| 0 <= i < |xs| && xs[i] == top;
    assert (xs + [x])[i] == top && (xs + [x])[|xs|] == x;
  }

  /** Keeping the running peak is enough to find the deepest fall. */
  lemma {:induction false} DrawdownSnoc(xs: seq<real>, top: real, dd: real, x: real)
    requires IsHighest(xs, top) && IsMaxDrawdown(xs, dd)
    ensures IsMaxDrawdown(xs + [x], Max(dd, Max(top, x) - x))
  {
    var ys := xs + [x];
    var i, j :| 0 <= i <= j < |xs| && xs[i] - xs[j] == dd;
    assert ys[i] - ys[j] == dd;
    var h :| 0 <= h < |xs| && xs[h] == top;
    assert ys[h] - ys[|xs|] == top - x && ys[|xs|] - ys[|xs|] == 0.0;
    assert xs[0] - xs[0] <= dd;
  }

  lemma {:induction false} StreakSnoc(ps: seq<real>, streak: nat, longest: nat, p: real)
    requires IsStreak(ps, streak) && IsLongestLosing(ps, longest)
    ensures p < 0.0 ==> IsStreak(ps + [p], streak + 1)
    ensures p < 0.0 ==> IsLongestLosing(ps + [p], if longest >= streak + 1 then longest else streak + 1)
    ensures p >= 0.0 ==> IsStreak(ps + [p], 0) && IsLongestLosing(ps + [p], longest)
  {
    var qs := ps + [p];
    var i, j :| Losing(ps, i, j) && j - i == longest;
    assert Losing(qs, i, j);
    forall a, b | Losing(qs, a, b)
      ensures b <= |ps| ==> b - a <= longest
      ensures b == |qs| && p < 0.0 ==> b - a <= streak + 1
      ensures b == |qs| && p >= 0.0 ==> b - a == 0
    {
      if b <= |ps| {
        forall k | a <= k < b ensures ps[k] < 0.0 { assert qs[k] == ps[k]; }
        assert Losing(ps, a, b);
      }
      if b == |qs| && a <= |ps| { assert qs[|ps|] == p; }
      assert streak < |ps| ==> qs[|ps| - streak - 1] == ps[|ps| - streak - 1];
    }
    if p < 0.0 {
      assert Losing(qs, |ps| - streak, |qs|);
    } else {
      assert Losing(qs, |qs|, |qs|);
    }
  }

  // ---- concurrency --------------------------------------------------------------------------

  /** The most positions ever held at one instant. */
  ghost predicate IsPeakHeld(entered: seq<int>, horizon: int, peak: nat) {
    && (forall t :: Held(entered, t, horizon) <= peak)
    && (peak == 0 || exists t :: Held(entered, t, horizon) == peak)
  }

  lemma {:induction false} PeakSnoc(entered: seq<int>, horizon: int, peak: nat, at: int)
    requires horizon > 0 && IsPeakHeld(entered, horizon, peak)
    requires forall i :: 0 <= i < |entered| ==> entered[i] <= at
    ensures var now := Busy(entered, at, horizon) + 1;
      IsPeakHeld(entered + [at], horizon, if peak >= now then peak else now)
  {
    var now := Busy(entered, at, horizon) + 1;
    forall t ensures Held(entered + [at], t, horizon)
                  == Held(entered, t, horizon) + if at <= t < at + horizon then 1 else 0
    {
      FilterSnoc(entered, at, HeldAt(t, horizon));
    }
    forall t | at <= t ensures Held(entered, t, horizon) + 1 <= now {
      FilterGrows(entered, HeldAt(t, horizon), StillOpen(at, horizon));
    }
    BusyIsHeld(entered, at, horizon);
    assert Held(entered + [at], at, horizon) == now;
    if peak > now {
      var t :| Held(entered, t, horizon) == peak;
      assert Held(entered + [at], t, horizon) >= peak;
    }
  }

  // ---- the loop -------------------------------------------------------------------------------

  datatype PortfolioResult = PortfolioResult(taken: nat, skipped: nat, totalPnl: real, maxDrawdown: real,
                                             longestLosing: nat, maxConcurrency: nat)

  /** What the reported figures mean for a run. */
  ghost predicate Reports(r: PortfolioResult, b: Bank, run: Run) {
    && run.capitals != []
    && r.taken == |run.entered| && r.skipped == run.capacitySkips + run.capitalSkips
    && r.totalPnl == run.Capital() - b.bank
    && IsMaxDrawdown(run.capitals, r.maxDrawdown)
    && IsLongestLosing(run.pnls, r.longestLosing)
    && (b.horizon > 0 ==> IsPeakHeld(run.entered, b.horizon, r.maxConcurrency))
  }

  /** The money variables of the loop. */
  datatype Account = Account(capital: real, cumPnl: real, peak: real, maxDrawdown: real, streak: nat, longest: nat)

  ghost predicate AccountOf(a: Account, bank: real, capitals: seq<real>, pnls: seq<real>) {
    && capitals != [] && a.capital == capitals[|capitals| - 1] && a.cumPnl == a.capital - bank
    && IsHighest(capitals, a.peak) && IsMaxDrawdown(capitals, a.maxDrawdown)
    && IsStreak(pnls, a.streak) && IsLongestLosing(pnls, a.longest)
  }

  /** A resolved trade's profit booked: peak, drawdown and streak follow. */
  function Booked(a: Account, usd: real, pnl: real): Account {
    var capital := a.capital + usd;
    var peak := Max(a.peak, capital);
    var streak := if pnl < 0.0 then a.streak + 1 else 0;
    Account(capital, a.cumPnl + usd, peak, Max(a.maxDrawdown, peak - capital), streak,
            if pnl < 0.0 && streak > a.longest then streak else a.longest)
  }

  lemma {:induction false} BookedAccount(a: Account, bank: real, capitals: seq<real>, pnls: seq<real>, usd: real,
        pnl: real)
    requires AccountOf(a, bank, capitals, pnls)
    ensures AccountOf(Booked(a, usd, pnl), bank, capitals + [a.capital + usd], pnls + [pnl])
  {
    HighestSnoc(capitals, a.peak, a.capital + usd);
    DrawdownSnoc(capitals, a.peak, a.maxDrawdown, a.capital + usd);
    StreakSnoc(pnls, a.streak, a.longest, pnl);
  }

  /** The slot variables of the loop. */
  ghost predicate SlotsOf(entered: seq<int>, taken: nat, maxConcurrency: nat, ends: seq<int>, seen: int, horizon: int) {
    && taken == |entered| && TracksBusy(ends, entered, seen, horizon)
    && (forall i :: 0 <= i < |entered| ==> entered[i] <= seen)
    && (horizon > 0 ==> IsPeakHeld(entered, horizon, maxConcurrency))
  }

  lemma {:induction false} SlotsOffer(entered: seq<int>, taken: nat, maxConcurrency: nat, ends: seq<int>, seen: int,
        at: int, horizon: int)
    requires SlotsOf(entered, taken, maxConcurrency, ends, seen, horizon) && seen <= at
    ensures var left := Filter(ends, After(at));
      && |left| == Busy(entered, at, horizon)
      && SlotsOf(entered, taken, maxConcurrency, left, at, horizon)
      && SlotsOf(entered + [at], taken + 1, if maxConcurrency >= |left| + 1 then maxConcurrency else |left| + 1,
                 left + [at + horizon], at, horizon)
  {
    OfferRow(ends, entered, seen, at, horizon);
    if horizon > 0 { PeakSnoc(entered, horizon, maxConcurrency, at); }
  }

  /** Fixed-bank, slot-limited simulation of the selected decisions. */
  method SimulatePortfolio(b: Bank, selected: seq<Pick>) returns (r: PortfolioResult, unresolved: bool)
    ensures Reports(r, b, Simulate(b, StableSort(selected, PickLe)))
    ensures unresolved == Simulate(b, StableSort(selected, PickLe)).unresolved
  {
    StableSortSorted(selected, PickLe);
    r, unresolved := SimulateOrdered(b, StableSort(selected, PickLe));
  }

  datatype Loop = Loop(account: Account, active: seq<int>, taken: nat, skipped: nat, maxConcurrency: nat,
        unresolved: bool)

  ghost predicate LoopOf(x: Loop, b: Bank, run: Run, seen: int) {
    && x.skipped == run.capacitySkips + run.capitalSkips && x.unresolved == run.unresolved
    && AccountOf(x.account, b.bank, run.capitals, run.pnls)
    && SlotsOf(run.entered, x.taken, x.maxConcurrency, x.active, seen, b.horizon)
  }

  /** One selected decision. */
  method SimulatePick(b: Bank, p: Pick, x: Loop, ghost run: Run, ghost seen: int) returns (y: Loop)
    requires LoopOf(x, b, run, seen) && seen <= p.at
    ensures LoopOf(y, b, Step(b, run, p.at, p.pnl), p.at)
  {
    SlotsOffer(run.entered, x.taken, x.maxConcurrency, x.active, seen, p.at, b.horizon);
    var active := Filter(x.active, After(p.at));
    var size := Smaller(b.position, x.account.capital);
    if |active| >= b.slots || size <= 0.0 {
      return x.(active := active, skipped := x.skipped + 1);
    }
    active := active + [p.at + b.horizon];
    y := x.(active := active, taken := x.taken + 1,
            maxConcurrency := if x.maxConcurrency >= |active| then x.maxConcurrency else |active|);
    if p.pnl.None? {
      y := y.(unresolved := true);
    } else {
      y := y.(account := Booked(x.account, Usd(size, p.pnl.value), p.pnl.value));
    }
    TakenPick(b, p, x, run, y);
  }

  /** A taken pick moves the slot variables, and the money variables when it is resolved. */
  lemma {:induction false} TakenPick(b: Bank, p: Pick, x: Loop, run: Run, y: Loop)
    requires AccountOf(x.account, b.bank, run.capitals, run.pnls)
    requires Busy(run.entered, p.at, b.horizon) < b.slots && Smaller(b.position, run.Capital()) > 0.0
    requires x.skipped == run.capacitySkips + run.capitalSkips && y.skipped == x.skipped
    requires SlotsOf(run.entered + [p.at], y.taken, y.maxConcurrency, y.active, p.at, b.horizon)
    requires y.unresolved == (p.pnl.None? || x.unresolved) && x.unresolved == run.unresolved
    requires y.account == if p.pnl.None? then x.account
                          else Booked(x.account, Usd(Smaller(b.position, run.Capital()), p.pnl.value), p.pnl.value)
    ensures LoopOf(y, b, Step(b, run, p.at, p.pnl), p.at)
  {
    if p.pnl.Some? {
      BookedAccount(x.account, b.bank, run.capitals, run.pnls, Usd(Smaller(b.position, run.Capital()), p.pnl.value),
        p.pnl.value);
    }
  }

  method SimulateOrdered(b: Bank, picks: seq<Pick>) returns (r: PortfolioResult, unresolved: bool)
    requires Sorted(picks, PickLe)
    ensures Reports(r, b, Simulate(b, picks))
    ensures unresolved == Simulate(b, picks).unresolved
  {
    var x := Loop(Account(b.bank, 0.0, b.bank, 0.0, 0, 0), [], 0, 0, 0, false);
    ghost var seen := if picks == [] then 0 else picks[0].at;
    StartAccount(b.bank);
    for i := 0 to |picks|
      invariant LoopOf(x, b, Simulate(b, picks[..i]), seen)
      invariant i < |picks| ==> seen <= picks[i].at
    {
      SimulateSnoc(b, picks, i);
      x := SimulatePick(b, picks[i], x, Simulate(b, picks[..i]), seen);
      seen := picks[i].at;
      assert i + 1 < |picks| ==> PickLe(picks[i], picks[i + 1]);
    }
    assert picks[..|picks|] == picks;
    unresolved := x.unresolved;
    r := PortfolioResult(x.taken, x.skipped, x.account.cumPnl, x.account.maxDrawdown, x.account.longest,
      x.maxConcurrency);
  }

  lemma {:induction false} StartAccount(bank: real)
    ensures AccountOf(Account(bank, 0.0, bank, 0.0, 0, 0), bank, [bank], [])
  {
    assert Losing([], 0, 0);
    assert [bank][0] - [bank][0] == 0.0;
  }

  lemma {:induction false} SimulateSnoc(b: Bank, picks: seq<Pick>, i: nat)
    requires i < |picks|
    ensures Simulate(b, picks[..i + 1]) == Step(b, Simulate(b, picks[..i]), picks[i].at, picks[i].pnl)
  {
    assert picks[..i + 1][..i] == picks[..i];
  }

  // ---- capital ---------------------------------------------------------------------------------

  /** Once capital is gone it stays gone: a capital skip means nothing is left to invest. */
  lemma {:induction false} CapitalSkipsMeanExhausted(b: Bank, picks: seq<Pick>)
    ensures Simulate(b, picks).capitalSkips > 0 ==> Smaller(b.position, Simulate(b, picks).Capital()) <= 0.0
  {
    if picks != [] { CapitalSkipsMeanExhausted(b, picks[..|picks| - 1]); }
  }

  lemma {:induction false} LossBounded(capital: real, position: real, pnl: real)
    requires Smaller(position, capital) > 0.0 && pnl >= -1.0
    ensures capital + Usd(Smaller(position, capital), pnl) >= 0.0
  {
    var size := Smaller(position, capital);
    assert size * (pnl + 1.0) >= 0.0;
  }

  /** No return below -100% ever takes the bank below zero, although positions overlap. */
  lemma {:induction false} CapitalNeverNegative(b: Bank, picks: seq<Pick>)
    requires b.bank >= 0.0
    requires forall k :: 0 <= k < |picks| && picks[k].pnl.Some? ==> picks[k].pnl.value >= -1.0
    ensures Simulate(b, picks).Capital() >= 0.0
  {
    if picks != [] {
      var front, p := picks[..|picks| - 1], picks[|picks| - 1];
      CapitalNeverNegative(b, front);
      var capital := Simulate(b, front).Capital();
      if p.pnl.Some? && Smaller(b.position, capital) > 0.0 { LossBounded(capital, b.position, p.pnl.value); }
    }
  }
}
