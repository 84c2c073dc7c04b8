/**
 * Compressed spring: one hold at a time per instrument. The count over the hours that
 * pass conditions 1 to 3 is reported as an upper bound on the events of condition 4.
 */
module SpringHolds {
  import opened Wrappers
  import opened Sorting
  import opened GreedyHolds

  const MINUTE_MS := 60_000
  const HOUR_MS := 3_600_000
  const S_MIN_PCT := 0.80

  datatype Hour = Hour(symbol: string, t: int)

  /** A decision on an hour that passes conditions 1 to 3; `None` is an undefined measure. */
  datatype SpringDecision = SpringDecision(hour: Hour, s: Option<real>, sPct: Option<real>, r: Option<real>)
  {
    predicate Condition4() {
      && s.Some? && sPct.Some? && s.value > 0.0 && sPct.value >= S_MIN_PCT
      && r.Some? && r.value >= 0.0
    }
  }

  predicate HourLe(a: Hour, b: Hour) {
    if a.symbol != b.symbol then StrLe(a.symbol, b.symbol) else a.t <= b.t
  }

  predicate DecisionLe(a: SpringDecision, b: SpringDecision) {
    HourLe(a.hour, b.hour)
  }

  function HourClock(): Clock<Hour, string> {
    Clock((h: Hour) => h.symbol, (h: Hour) => h.t)
  }

  function DecisionClock(): Clock<SpringDecision, string> {
    Clock((d: SpringDecision) => d.hour.symbol, (d: SpringDecision) => d.hour.t)
  }

  /** From one entry to the earliest next: the minute to the fill plus the hold. */
  function HoldGap(horizonH: nat): nat {
    MINUTE_MS + horizonH * HOUR_MS
  }

  /** An instrument is free from time 0, so hours before it are never taken. */
  predicate SinceEpoch(h: Hour) {
    h.t >= 0
  }

  predicate DecidedSinceEpoch(d: SpringDecision) {
    SinceEpoch(d.hour)
  }

  function HourWalk(hours: seq<Hour>): seq<Hour> {
    Filter(StableSort(hours, HourLe), SinceEpoch)
  }

  function DecisionWalk(ds: seq<SpringDecision>): seq<SpringDecision> {
    Filter(StableSort(ds, DecisionLe), DecidedSinceEpoch)
  }

  function Holds(hours: seq<Hour>, horizonH: nat): seq<Hour> {
    Greedy(HourClock(), HourWalk(hours), HoldGap(horizonH))
  }

  function EventHolds(ds: seq<SpringDecision>, horizonH: nat): seq<SpringDecision> {
    Greedy(DecisionClock(), DecisionWalk(ds), HoldGap(horizonH))
  }

  /** `freeAt` is the dictionary the source keeps: the exit time of each instrument's last hold. */
  ghost predicate FreeAt<T(!new)>(c: Clock<T, string>, kept: seq<T>, freeAt: map<string, int>, gap: int) {
    && (forall k :: LastKept(c, kept, k) == if k in freeAt then Some(freeAt[k] - gap) else None)
    && forall k :: k in freeAt ==> freeAt[k] >= 0
  }

  lemma {:induction false} FreeAtSnoc<T(!new)>(c: Clock<T, string>, kept: seq<T>, x: T, freeAt: map<string, int>,
        gap: nat)
    requires FreeAt(c, kept, freeAt, gap) && c.at(x) >= 0
    ensures FreeAt(c, kept + [x], freeAt[c.key(x) := c.at(x) + gap], gap)
  {
    LastKeptSnoc(c, kept, x);
  }

  lemma {:induction false} FreeAtDecides<T(!new)>(c: Clock<T, string>, kept: seq<T>, x: T, freeAt: map<string, int>,
        gap: nat)
    requires FreeAt(c, kept, freeAt, gap)
    ensures c.at(x) >= (if c.key(x) in freeAt then freeAt[c.key(x)] else 0)
       <==> c.at(x) >= 0 && Free(c, kept, x, gap)
  {
  }

  /** One row of the source's loop is one step of the greedy walk over rows since time 0. */
  lemma {:induction false} HoldStep<T(!new)>(c: Clock<T, string>, seen: seq<T>, since: T -> bool, x: T,
                          kept: seq<T>, freeAt: map<string, int>, gap: nat)
    requires forall y :: since(y) <==> c.at(y) >= 0
    requires kept == Greedy(c, Filter(seen, since), gap) && FreeAt(c, kept, freeAt, gap)
    ensures
      if c.at(x) >= (if c.key(x) in freeAt then freeAt[c.key(x)] else 0) then
        && Greedy(c, Filter(seen + [x], since), gap) == kept + [x]
        && FreeAt(c, kept + [x], freeAt[c.key(x) := c.at(x) + gap], gap)
      else Greedy(c, Filter(seen + [x], since), gap) == kept
  {
    FreeAtDecides(c, kept, x, freeAt, gap);
    FilterSnoc(seen, x, since);
    if since(x) {
      GreedySnoc(c, Filter(seen, since), x, gap);
      FreeAtSnoc(c, kept, x, freeAt, gap);
    }
  }

  /** The loop both schedulers share, over rows already sorted by (symbol, time). */
  method WalkHolds<T(!new)>(c: Clock<T, string>, ordered: seq<T>, ghost since: T -> bool, gap: nat)
    returns (out: seq<T>)
    requires forall y :: since(y) <==> c.at(y) >= 0
    ensures out == Greedy(c, Filter(ordered, since), gap)
  {
    out := [];
    var freeAt: map<string, int> := map[];
    for i := 0 to |ordered|
      invariant out == Greedy(c, Filter(ordered[..i], since), gap)
      invariant FreeAt(c, out, freeAt, gap)
    {
      var x := ordered[i];
      assert ordered[..i + 1] == ordered[..i] + [x];
      HoldStep(c, ordered[..i], since, x, out, freeAt, gap);
      if c.at(x) >= (if c.key(x) in freeAt then freeAt[c.key(x)] else 0) {
        out := out + [x];
        freeAt := freeAt[c.key(x) := c.at(x) + gap];
      }
    }
    assert ordered[..|ordered|] == ordered;
  }

  method NonOverlapping(hours: seq<Hour>, horizonH: nat) returns (count: nat)
    ensures count == |Holds(hours, horizonH)|
  {
    var held := WalkHolds(HourClock(), StableSort(hours, HourLe), SinceEpoch, HoldGap(horizonH));
    count := |held|;
  }

  method NonOverlappingEvents(ds: seq<SpringDecision>, horizonH: nat) returns (out: seq<SpringDecision>)
    ensures out == EventHolds(ds, horizonH)
  {
    out := WalkHolds(DecisionClock(), StableSort(ds, DecisionLe), DecidedSinceEpoch, HoldGap(horizonH));
  }

  lemma {:induction false} WalksInTimeOrder(hours: seq<Hour>, ds: seq<SpringDecision>)
    ensures InTimeOrder(HourClock(), HourWalk(hours))
    ensures InTimeOrder(DecisionClock(), DecisionWalk(ds))
    ensures forall h :: h in HourWalk(hours) <==> h in hours && h.t >= 0
    ensures forall d :: d in DecisionWalk(ds) <==> d in ds && d.hour.t >= 0
  {
    StrLeOrder();
    StableSortSorted(hours, HourLe);
    StableSortSorted(ds, DecisionLe);
    FilterSorted(StableSort(hours, HourLe), SinceEpoch, HourLe);
    FilterSorted(StableSort(ds, DecisionLe), DecidedSinceEpoch, DecisionLe);
    SameMembers(StableSort(hours, HourLe), hours);
    SameMembers(StableSort(ds, DecisionLe), ds);
  }

  /** The holds never overlap, and no non-overlapping choice of hours has more of them. */
  lemma {:induction false} HoldsOptimal(hours: seq<Hour>, horizonH: nat)
    ensures Separated(HourClock(), Holds(hours, horizonH), HoldGap(horizonH))
    ensures forall h :: h in Holds(hours, horizonH) ==> h in hours
    ensures forall sel: seq<Hour> ::
      (forall h :: h in sel ==> h in hours && h.t >= 0) && Separated(HourClock(), sel, HoldGap(horizonH)) ==>
        |sel| <= |Holds(hours, horizonH)|
  {
    var c, walk, gap := HourClock(), HourWalk(hours), HoldGap(horizonH);
    WalksInTimeOrder(hours, []);
    GreedySeparated(c, walk, gap);
    GreedyMembers(c, walk, gap);
    forall sel: seq<Hour> | (forall h :: h in sel ==> h in hours && h.t >= 0) && Separated(c, sel, gap)
      ensures |sel| <= |Holds(hours, horizonH)|
    {
      GreedyOptimalMembers(c, walk, gap, sel);
    }
  }

  function HoursOf(ds: seq<SpringDecision>): (r: seq<Hour>)
    ensures |r| == |ds| && forall i :: 0 <= i < |ds| ==> r[i] == ds[i].hour
  {
    seq(|ds|, i requires 0 <= i < |ds| => ds[i].hour)
  }

  function Events(passing: seq<SpringDecision>): seq<SpringDecision> {
    Filter(passing, (d: SpringDecision) => d.Condition4())
  }

  /**
   * The count over conditions 1 to 3 bounds the events from above: any events drawn from
   * the passing decisions, thinned to one hold at a time, number at most that count.
   */
  lemma {:induction false} EventsWithinUpperBound(passing: seq<SpringDecision>, events: seq<SpringDecision>,
        horizonH: nat)
    requires forall d :: d in events ==> d in Events(passing)
    ensures |EventHolds(events, horizonH)| <= |Holds(HoursOf(passing), horizonH)|
  {
    var gap := HoldGap(horizonH);
    var kept := EventHolds(events, horizonH);
    WalksInTimeOrder(HoursOf(passing), events);
    GreedySeparated(DecisionClock(), DecisionWalk(events), gap);
    GreedyMembers(DecisionClock(), DecisionWalk(events), gap);
    var sel := HoursOf(kept);
    forall h | h in sel ensures h in HoursOf(passing) && h.t >= 0 {
      var i :| 0 <= i < |sel| && sel[i] == h;
      assert kept[i] in kept && kept[i] in DecisionWalk(events);
      var j :| 0 <= j < |passing| && passing[j] == kept[i];
      assert HoursOf(passing)[j] == h;
    }
    GreedyOptimalMembers(HourClock(), HourWalk(HoursOf(passing)), gap, sel);
  }
}
