/**
 * Around the transplant: the plan of weeks it moves, the exclusion of event paths, and
 * the accounting of one replicate's values.
 */
module SpringPower {
  import opened Wrappers
  import opened Sorting
  import opened Transplant

  const LONGEST_HORIZON_H: nat := 24

  // ---- exclusion ------------------------------------------------------------------------------

  ghost predicate InOrder(times: seq<int>) { forall i, j :: 0 <= i < j < |times| ==> times[i] <= times[j] }

  function BisectRight(times: seq<int>, t: int): (k: nat)
    requires InOrder(times)
    ensures k <= |times|
    ensures forall i :: 0 <= i < k ==> times[i] <= t
    ensures forall i :: k <= i < |times| ==> times[i] > t
  {
    if times == [] || times[0] > t then 0 else 1 + BisectRight(times[1..], t)
  }

  /** The test the source makes: the first event after one bound is before the other. */
  predicate Blocked(times: seq<int>, t: int, horizonH: nat)
    requires InOrder(times)
  {
    var lo := t - (LONGEST_HORIZON_H + 1) * HOUR_MS;
    var hi := t + (horizonH + 1) * HOUR_MS;
    var k := BisectRight(times, lo);
    k < |times| && times[k] < hi
  }

  /** The path [t, t + H] stays at least an hour away from the event path [te, te + 24 h]. */
  predicate Clear(te: int, t: int, horizonH: nat) {
    t - (te + LONGEST_HORIZON_H * HOUR_MS) >= HOUR_MS || te - (t + horizonH * HOUR_MS) >= HOUR_MS
  }

  lemma {:induction false} BlockedIffNotClear(times: seq<int>, t: int, horizonH: nat)
    requires InOrder(times)
    ensures Blocked(times, t, horizonH) <==> exists i :: 0 <= i < |times| && !Clear(times[i], t, horizonH)
  {
    var k := BisectRight(times, t - (LONGEST_HORIZON_H + 1) * HOUR_MS);
    if Blocked(times, t, horizonH) {
      assert !Clear(times[k], t, horizonH);
    } else {
      forall i | 0 <= i < |times| ensures Clear(times[i], t, horizonH) {
        if i >= k { assert times[i] >= times[k]; }
      }
    }
  }

  /** Every condition 4 event time, per symbol, in order. */
  datatype Universe = Universe(eventTimes: map<string, seq<int>>)

  ghost predicate ValidUniverse(u: Universe) {
    forall s :: s in u.eventTimes ==> InOrder(u.eventTimes[s])
  }

  /** What a replicate of horizon H draws from. */
  ghost predicate Excludes(w: World, u: Universe, horizonH: nat) {
    forall s, t :: s in u.eventTimes && InOrder(u.eventTimes[s]) ==>
      (w.blocked(s, t) <==> Blocked(u.eventTimes[s], t, horizonH))
  }

  /** A path of the horizon from the pick is clear of every event path of its instrument. */
  ghost predicate ClearOfEvents(u: Universe, horizonH: nat, x: Pick) {
    x.instrument in u.eventTimes ==> forall te :: te in u.eventTimes[x.instrument] ==> Clear(te, x.t, horizonH)
  }

  lemma {:induction false} PickedPathsAreClear(w: World, u: Universe, horizonH: nat, plans: seq<WeekPlan>,
        weeks: seq<Week>, v: nat, g: nat, x: Pick)
    requires ValidUniverse(u) && Excludes(w, u, horizonH)
    requires ValidPlans(plans) && IsRun(w, plans, weeks) && PickedBy(weeks, v, g, x)
    ensures ClearOfEvents(u, horizonH, x) && x.t <= w.lastT
  {
    PickDay(w, plans, weeks, v, g, x);
    if x.instrument in u.eventTimes { BlockedIffNotClear(u.eventTimes[x.instrument], x.t, horizonH); }
  }

  // ---- the plan -------------------------------------------------------------------------------

  datatype Occurrence = Occurrence(symbol: string, t: int)

  predicate OccurrenceLe(a: Occurrence, b: Occurrence) {
    a.t < b.t || (a.t == b.t && StrLe(a.symbol, b.symbol))
  }

  /** The days first, first + 1 day, ... up to last. */
  function Days(first: int, last: int): (days: seq<int>)
    requires first % DAY_MS == 0
    ensures Distinct(days)
    ensures forall d :: d in days <==> first <= d <= last && d % DAY_MS == 0
    decreases last - first
  {
    if first > last then []
    else
      DayStep(first);
      var rest := Days(first + DAY_MS, last);
      assert forall i :: 0 <= i < |rest| ==> rest[i] in rest;
      [first] + rest
  }

  lemma {:induction false} DayStep(d: int)
    requires d % DAY_MS == 0
    ensures (d + DAY_MS) % DAY_MS == 0
    ensures forall x :: d < x < d + DAY_MS ==> x % DAY_MS != 0
  {
  }

  function InWeek(week: int -> string, name: string): int -> bool { (d: int) => week(d) == name }

  function OfWeek(week: int -> string, name: string): Occurrence -> bool { (e: Occurrence) => week(DayOf(e.t)) == name }

  function IndexOf(days: seq<int>, d: int): (i: nat)
    requires d in days
    ensures i < |days| && days[i] == d
  {
    if days[0] == d then 0 else 1 + IndexOf(days[1..], d)
  }

  function ToEvent(days: seq<int>, e: Occurrence): Event
    requires DayOf(e.t) in days
  {
    Event(e.symbol, IndexOf(days, DayOf(e.t)), e.t - DayOf(e.t))
  }

  /** The events of one week, in order; each one's day is in the week's list. */
  function ToEvents(days: seq<int>, es: seq<Occurrence>): (r: seq<Event>)
    requires forall e :: e in es ==> DayOf(e.t) in days
    ensures |r| == |es| && forall i :: 0 <= i < |es| ==> r[i] == ToEvent(days, es[i])
  {
    seq(|es|, i requires 0 <= i < |es| => assert es[i] in es; ToEvent(days, es[i]))
  }

  lemma {:induction false} WeekHoldsItsDays(es: seq<Occurrence>, week: int -> string, name: string, first: int,
        last: int)
    requires first % DAY_MS == 0 && forall e :: e in es ==> first <= DayOf(e.t) <= last
    ensures forall e :: e in Filter(es, OfWeek(week, name)) ==>
      DayOf(e.t) in Filter(Days(first, last), InWeek(week, name))
  {
    forall e | e in Filter(es, OfWeek(week, name)) ensures DayOf(e.t) in Filter(Days(first, last), InWeek(week, name)) {
      assert DayOf(e.t) % DAY_MS == 0;
      assert DayOf(e.t) in Days(first, last);
    }
  }

  function WeekOf(es: seq<Occurrence>, week: int -> string, name: string, first: int, last: int): WeekPlan
    requires first % DAY_MS == 0 && forall e :: e in es ==> first <= DayOf(e.t) <= last
  {
    WeekHoldsItsDays(es, week, name, first, last);
    var days := Filter(Days(first, last), InWeek(week, name));
    WeekPlan(name, days, ToEvents(days, Filter(es, OfWeek(week, name))))
  }

  lemma {:induction false} FilterKeepsDistinct<T(!new)>(s: seq<T>, p: T -> bool)
    requires Distinct(s)
    ensures Distinct(Filter(s, p))
  {
    if s != [] {
      var front, last := s[..|s| - 1], s[|s| - 1];
      FilterKeepsDistinct(front, p);
      assert last !in front;
      forall i | 0 <= i < |Filter(front, p)| ensures Filter(front, p)[i] != last {
        assert Filter(front, p)[i] in Filter(front, p);
      }
    }
  }

  lemma {:induction false} WeekIsValid(es: seq<Occurrence>, week: int -> string, name: string, first: int, last: int)
    requires first % DAY_MS == 0 && Distinct(es) && forall e :: e in es ==> first <= DayOf(e.t) <= last
    ensures ValidPlan(WeekOf(es, week, name, first, last))
  {
    WeekHoldsItsDays(es, week, name, first, last);
    var all := Days(first, last);
    var days, own := Filter(all, InWeek(week, name)), Filter(es, OfWeek(week, name));
    FilterKeepsDistinct(all, InWeek(week, name));
    FilterKeepsDistinct(es, OfWeek(week, name));
    forall i | 0 <= i < |days| ensures days[i] % DAY_MS == 0 { assert days[i] in days && days[i] in all; }
    var events := ToEvents(days, own);
    forall i | 0 <= i < |own| ensures events[i].dayIndex < |days| && events[i].offset < DAY_MS
    {
      assert own[i] in own;
    }
    forall i, j | 0 <= i < j < |own| ensures events[i] != events[j] {
      assert own[i] in own && own[j] in own && own[i] != own[j];
      assert days[events[i].dayIndex] == DayOf(own[i].t) && days[events[j].dayIndex] == DayOf(own[j].t);
    }
  }

  /** The names of the weeks the events fall in, sorted, each once. */
  ghost predicate AreWeeks(names: seq<string>, es: seq<Occurrence>, week: int -> string) {
    Distinct(names) && forall n :: n in names <==> exists e :: e in es && week(DayOf(e.t)) == n
  }

  method WeekNames(es: seq<Occurrence>, week: int -> string) returns (names: seq<string>)
    ensures AreWeeks(names, es, week) && Sorted(names, StrLe)
  {
    names := [];
    for i := 0 to |es|
      invariant Distinct(names)
      invariant forall n :: n in names <==> exists e :: e in es[..i] && week(DayOf(e.t)) == n
    {
      assert es[..i + 1] == es[..i] + [es[i]];
      var name := week(DayOf(es[i].t));
      assert es[i] in es[..i + 1];
      if name !in names { names := names + [name]; }
    }
    assert es[..|es|] == es;
    StrLeOrder();
    StableSortSorted(names, StrLe);
    SameMembers(StableSort(names, StrLe), names);
    SortKeepsDistinct(names, StrLe);
    names := StableSort(names, StrLe);
  }

  lemma {:induction false} SortKeepsDistinct<T(!new)>(s: seq<T>, le: (T, T) -> bool)
    requires Distinct(s)
    ensures Distinct(StableSort(s, le))
  {
    var r := StableSort(s, le);
    forall x ensures multiset(s)[x] <= 1 { DistinctOnce(s, x); }
    forall i, j | 0 <= i < j < |r| ensures r[i] != r[j] {
      assert r == r[..j] + r[j..];
      assert r[i] in r[..j] && r[j] in r[j..];
      assert multiset(r) == multiset(r[..j]) + multiset(r[j..]);
      assert multiset(r)[r[j]] <= 1;
    }
  }

  lemma {:induction false} DistinctOnce<T>(s: seq<T>, x: T)
    requires Distinct(s)
    ensures multiset(s)[x] <= 1
  {
    if s != [] {
      var front, last := s[..|s| - 1], s[|s| - 1];
      assert s == front + [last] && last !in front;
      DistinctOnce(front, x);
    }
  }

  /**
   * The plan of a horizon: None when an event lies outside its decision range (the lookup
   * of its day fails); otherwise weeks that share no day and hold every event once.
   */
  method MakePlan(events: seq<Occurrence>, first: int, last: int, week: int -> string)
    returns (plans: Option<seq<WeekPlan>>)
    requires first % DAY_MS == 0
    ensures plans.Some? <==> forall e :: e in events ==> first <= DayOf(e.t) <= last
    ensures plans.Some? && Distinct(events) ==> ValidPlans(plans.value)
    ensures plans.Some? ==> forall e :: e in events ==> exists v :: 0 <= v < |plans.value| && Holds(plans.value[v], e)
  {
    if exists e :: e in events && !(first <= DayOf(e.t) <= last) { return None; }
    var ordered := StableSort(events, OccurrenceLe);
    SameMembers(ordered, events);
    var names := WeekNames(ordered, week);
    var weeks := WeeksOf(ordered, week, names, first, last);
    if Distinct(events) {
      SortKeepsDistinct(events, OccurrenceLe);
      PlansAreValid(ordered, week, names, first, last);
    }
    forall e | e in events ensures exists v :: 0 <= v < |weeks| && Holds(weeks[v], e) {
      SomeWeekHolds(ordered, week, names, first, last, e);
    }
    plans := Some(weeks);
  }

  function WeeksOf(es: seq<Occurrence>, week: int -> string, names: seq<string>, first: int, last: int)
    : (weeks: seq<WeekPlan>)
    requires first % DAY_MS == 0 && forall e :: e in es ==> first <= DayOf(e.t) <= last
    ensures |weeks| == |names| && forall i :: 0 <= i < |names| ==> weeks[i] == WeekOf(es, week, names[i], first, last)
  {
    seq(|names|, i requires 0 <= i < |names| => WeekOf(es, week, names[i], first, last))
  }

  lemma {:induction false} SomeWeekHolds(es: seq<Occurrence>, week: int -> string, names: seq<string>, first: int,
        last: int, e: Occurrence)
    requires first % DAY_MS == 0 && forall x :: x in es ==> first <= DayOf(x.t) <= last
    requires AreWeeks(names, es, week) && e in es
    ensures var weeks := WeeksOf(es, week, names, first, last);
      exists v :: 0 <= v < |weeks| && Holds(weeks[v], e)
  {
    assert week(DayOf(e.t)) in names;
    var v :| 0 <= v < |names| && names[v] == week(DayOf(e.t));
    EventIsHeld(es, week, names[v], first, last, e);
    assert Holds(WeeksOf(es, week, names, first, last)[v], e);
  }

  /** The plan keeps the event's symbol, day and time of day. */
  ghost predicate Holds(p: WeekPlan, e: Occurrence) {
    exists i :: 0 <= i < |p.events| && p.events[i].symbol == e.symbol
      && p.events[i].dayIndex < |p.days| && p.days[p.events[i].dayIndex] + p.events[i].offset == e.t
  }

  lemma {:induction false} EventIsHeld(es: seq<Occurrence>, week: int -> string, name: string, first: int, last: int,
        e: Occurrence)
    requires first % DAY_MS == 0 && forall x :: x in es ==> first <= DayOf(x.t) <= last
    requires e in es && week(DayOf(e.t)) == name
    ensures Holds(WeekOf(es, week, name, first, last), e)
  {
    WeekHoldsItsDays(es, week, name, first, last);
    var own := Filter(es, OfWeek(week, name));
    assert e in own;
    var i :| 0 <= i < |own| && own[i] == e;
    var p := WeekOf(es, week, name, first, last);
    assert p.events[i] == ToEvent(p.days, e);
  }

  lemma {:induction false} PlansAreValid(es: seq<Occurrence>, week: int -> string, names: seq<string>, first: int,
        last: int)
    requires first % DAY_MS == 0 && Distinct(es) && forall e :: e in es ==> first <= DayOf(e.t) <= last
    requires Distinct(names)
    ensures ValidPlans(WeeksOf(es, week, names, first, last))
  {
    var weeks := WeeksOf(es, week, names, first, last);
    forall v | 0 <= v < |weeks| ensures ValidPlan(weeks[v]) { WeekIsValid(es, week, names[v], first, last); }
    forall v, u, x | 0 <= v < u < |weeks| && x in weeks[v].days ensures x !in weeks[u].days {
      assert InWeek(week, names[v])(x);
      assert !InWeek(week, names[u])(x);
    }
  }

  // ---- one replicate --------------------------------------------------------------------------

  /** One replicate's values per source cluster, and what became of the other events. */
  datatype Replicate = Replicate(cells: map<Cluster, seq<real>>, drawn: nat, lost: nat, incomplete: nat)

  function Values(picks: seq<Pick>, value: (string, int) -> Option<real>): seq<real> {
    if picks == [] then []
    else
      var x := picks[|picks| - 1];
      Values(picks[..|picks| - 1], value)
        + if value(x.instrument, x.t).Some? then [value(x.instrument, x.t).value] else []
  }

  /** The values a list of draws gives one cluster. */
  function ValuesOf(draws: seq<Draw>, c: Cluster, value: (string, int) -> Option<real>): seq<real> {
    if draws == [] then []
    else
      var d := draws[|draws| - 1];
      ValuesOf(draws[..|draws| - 1], c, value)
        + if d.cluster == c && d.picks.Some? then Values(d.picks.value, value) else []
  }

  function LostEvents(draws: seq<Draw>): nat {
    if draws == [] then 0
    else LostEvents(draws[..|draws| - 1]) + if draws[|draws| - 1].picks.None? then draws[|draws| - 1].count else 0
  }

  function ValueCount(draws: seq<Draw>, value: (string, int) -> Option<real>): nat {
    if draws == [] then 0
    else ValueCount(draws[..|draws| - 1], value)
         + if draws[|draws| - 1].picks.Some? then |Values(draws[|draws| - 1].picks.value, value)| else 0
  }

  function Cell(cells: map<Cluster, seq<real>>, c: Cluster): seq<real> { if c in cells then cells[c] else [] }

  /** Every event is lost, without a value, or a value of its own cluster. */
  ghost predicate IsReplicate(r: Replicate, draws: seq<Draw>, value: (string, int) -> Option<real>) {
    && r.drawn == SumCounts(draws) && r.lost == LostEvents(draws)
    && r.drawn == r.lost + r.incomplete + ValueCount(draws, value)
    && (forall c :: c in r.cells ==> r.cells[c] != [])
    && (forall c :: Cell(r.cells, c) == ValuesOf(draws, c, value))
  }

  lemma {:induction false} ValuesSnoc(picks: seq<Pick>, i: nat, value: (string, int) -> Option<real>)
    requires i < |picks|
    ensures var v := value(picks[i].instrument, picks[i].t);
      Values(picks[..i + 1], value) == Values(picks[..i], value) + if v.Some? then [v.value] else []
  {
    assert picks[..i + 1][..i] == picks[..i];
  }

  /** The picks of one draw, value by value. */
  method AddPicks(cluster: Cluster, picks: seq<Pick>, value: (string, int) -> Option<real>,
        cells: map<Cluster, seq<real>>)
    returns (cells': map<Cluster, seq<real>>, incomplete: nat)
    requires forall c :: c in cells ==> cells[c] != []
    ensures forall c :: c in cells' ==> cells'[c] != []
    ensures forall c :: Cell(cells', c) == Cell(cells, c) + if c == cluster then Values(picks, value) else []
    ensures incomplete + |Values(picks, value)| == |picks|
  {
    cells', incomplete := cells, 0;
    for i := 0 to |picks|
      invariant forall c :: c in cells' ==> cells'[c] != []
      invariant forall c :: Cell(cells', c) == Cell(cells, c) + if c == cluster then Values(picks[..i], value) else []
      invariant incomplete + |Values(picks[..i], value)| == i
    {
      ValuesSnoc(picks, i, value);
      var v := value(picks[i].instrument, picks[i].t);
      if v.None? {
        incomplete := incomplete + 1;
      } else {
        cells' := cells'[cluster := Cell(cells', cluster) + [v.value]];
      }
    }
    assert picks[..|picks|] == picks;
  }

  lemma {:induction false} DrawsSnoc(draws: seq<Draw>, d: Draw, value: (string, int) -> Option<real>)
    ensures SumCounts(draws + [d]) == SumCounts(draws) + d.count
    ensures LostEvents(draws + [d]) == LostEvents(draws) + if d.picks.None? then d.count else 0
    ensures ValueCount(draws + [d], value)
         == ValueCount(draws, value) + if d.picks.Some? then |Values(d.picks.value, value)| else 0
    ensures forall c :: ValuesOf(draws + [d], c, value)
                     == ValuesOf(draws, c, value)
                      + if d.cluster == c && d.picks.Some? then Values(d.picks.value, value) else []
  {
    assert (draws + [d])[..|draws|] == draws;
  }

  /** Draw after draw: count it, drop it if lost, else collect its values under its source cluster. */
  method Collect(draws: seq<Draw>, value: (string, int) -> Option<real>) returns (r: Replicate)
    requires forall i :: 0 <= i < |draws| ==> PicksCounted(draws[i])
    ensures IsReplicate(r, draws, value)
  {
    r := Replicate(map[], 0, 0, 0);
    for i := 0 to |draws|
      invariant IsReplicate(r, draws[..i], value)
    {
      var d := draws[i];
      assert draws[..i + 1] == draws[..i] + [d];
      DrawsSnoc(draws[..i], d, value);
      if d.picks.None? {
        r := r.(drawn := r.drawn + d.count, lost := r.lost + d.count);
      } else {
        var cells, incomplete := AddPicks(d.cluster, d.picks.value, value, r.cells);
        r := Replicate(cells, r.drawn + d.count, r.lost, r.incomplete + incomplete);
      }
    }
    assert draws[..|draws|] == draws;
  }

  function Flatten(weeks: seq<seq<Draw>>): seq<Draw> {
    if weeks == [] then [] else Flatten(weeks[..|weeks| - 1]) + weeks[|weeks| - 1]
  }

  function SumEvents(plans: seq<WeekPlan>): nat {
    if plans == [] then 0 else SumEvents(plans[..|plans| - 1]) + |plans[|plans| - 1].events|
  }

  lemma {:induction false} SumCountsAppend(a: seq<Draw>, b: seq<Draw>)
    ensures SumCounts(a + b) == SumCounts(a) + SumCounts(b)
  {
    if b == [] {
      assert a + b == a;
    } else {
      SumCountsAppend(a, b[..|b| - 1]);
      assert (a + b)[..|a + b| - 1] == a + b[..|b| - 1];
    }
  }

  lemma {:induction false} RunCountsEvents(w: World, plans: seq<WeekPlan>, weeks: seq<Week>, draws: seq<seq<Draw>>,
        n: nat)
    requires IsRun(w, plans, weeks) && |draws| == |weeks| && n <= |draws|
    requires forall v :: 0 <= v < |weeks| ==> draws[v] == weeks[v].draws
    ensures SumCounts(Flatten(draws[..n])) == SumEvents(plans[..n])
  {
    if n > 0 {
      RunCountsEvents(w, plans, weeks, draws, n - 1);
      assert draws[..n][..n - 1] == draws[..n - 1] && plans[..n][..n - 1] == plans[..n - 1];
      SumCountsAppend(Flatten(draws[..n - 1]), draws[n - 1]);
      EveryEventAccounted(w, plans, weeks, n - 1);
    }
  }

  predicate PicksCounted(d: Draw) { d.picks.Some? ==> |d.picks.value| == d.count }

  lemma {:induction false} FlattenCounted(draws: seq<seq<Draw>>)
    requires forall v :: 0 <= v < |draws| ==> forall d :: d in draws[v] ==> PicksCounted(d)
    ensures forall d :: d in Flatten(draws) ==> PicksCounted(d)
  {
    if draws != [] { FlattenCounted(draws[..|draws| - 1]); }
  }

  lemma {:induction false} RunPicksCounted(w: World, plans: seq<WeekPlan>, weeks: seq<Week>, v: nat, d: Draw)
    requires IsRun(w, plans, weeks) && v < |weeks| && d in weeks[v].draws
    ensures PicksCounted(d)
  {
    EveryEventAccounted(w, plans, weeks, v);
  }

  /**
   * A whole replicate: every planned event is lost, left without a value, or valued once;
   * the draws, week by week, are those of a run of the transplant, and their paths stay
   * clear of the event paths.
   */
  method NetDraws(w: World, ghost u: Universe, ghost horizonH: nat, plans: seq<WeekPlan>,
                  value: (string, int) -> Option<real>)
    returns (r: Replicate, draws: seq<seq<Draw>>, ghost weeks: seq<Week>)
    requires ValidPlans(plans) && ValidUniverse(u) && Excludes(w, u, horizonH)
    ensures IsReplicate(r, Flatten(draws), value) && r.drawn == SumEvents(plans)
    ensures IsRun(w, plans, weeks) && DrawsOf(draws, weeks) && KeptApart(draws)
    ensures forall v, g, x :: Picked(draws, v, g, x) ==> ClearOfEvents(u, horizonH, x)
  {
    draws, weeks := TransplantAll(w, plans);
    RunCountsEvents(w, plans, weeks, draws, |draws|);
    assert draws[..|draws|] == draws && plans[..|plans|] == plans;
    forall v, d | 0 <= v < |draws| && d in draws[v] ensures PicksCounted(d) {
      RunPicksCounted(w, plans, weeks, v, d);
    }
    FlattenCounted(draws);
    var all := Flatten(draws);
    forall v, g, x | Picked(draws, v, g, x) ensures ClearOfEvents(u, horizonH, x) {
      assert PickedBy(weeks, v, g, x);
      PickedPathsAreClear(w, u, horizonH, plans, weeks, v, g, x);
    }
    r := Collect(all, value);
  }

  ghost predicate DrawsOf(draws: seq<seq<Draw>>, weeks: seq<Week>) {
    |draws| == |weeks| && forall v :: 0 <= v < |weeks| ==> draws[v] == weeks[v].draws
  }
}
