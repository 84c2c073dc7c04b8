/**
 * Pseudo-samples of the compressed-spring power step: every week's event clusters are
 * moved by one whole-day shift and each cluster is given one instrument. The random shift
 * and the random choices are arbitrary here, so what is proved holds for every draw.
 */
module Transplant {
  import opened Wrappers
  import opened Sorting

  const HOUR_MS: int := 3_600_000
  const DAY_MS: int := 24 * HOUR_MS

  /** An event of a week: its symbol, its day's index in the week, its time of day. */
  datatype Event = Event(symbol: string, dayIndex: nat, offset: nat)

  datatype WeekPlan = WeekPlan(week: string, days: seq<int>, events: seq<Event>)

  /** A source cluster: an event symbol and the start of its day. */
  datatype Cluster = Cluster(symbol: string, day: int)

  datatype Pick = Pick(instrument: string, t: int)

  /** One cluster's fate: its event count and its picks, or None when it is lost whole. */
  datatype Draw = Draw(cluster: Cluster, week: string, count: nat, picks: Option<seq<Pick>>)

  datatype Key = Key(symbol: string, dayIndex: nat)

  function KeyOf(e: Event): Key { Key(e.symbol, e.dayIndex) }

  /** Days are aligned, different, and hold every event; no event is listed twice. */
  ghost predicate ValidPlan(p: WeekPlan) {
    && (forall i :: 0 <= i < |p.days| ==> p.days[i] % DAY_MS == 0)
    && (forall i, j :: 0 <= i < j < |p.days| ==> p.days[i] != p.days[j])
    && (forall i :: 0 <= i < |p.events| ==> p.events[i].dayIndex < |p.days| && p.events[i].offset < DAY_MS)
    && (forall i, j :: 0 <= i < j < |p.events| ==> p.events[i] != p.events[j])
  }

  /** Weeks share no day. */
  ghost predicate ValidPlans(plans: seq<WeekPlan>) {
    && (forall w :: 0 <= w < |plans| ==> ValidPlan(plans[w]))
    && (forall v, w, x :: 0 <= v < w < |plans| && x in plans[v].days ==> x !in plans[w].days)
  }

  function DayOf(t: int): int { t - t % DAY_MS }

  lemma {:induction false} DayOfHour(day: int, offset: nat)
    requires day % DAY_MS == 0 && offset < DAY_MS
    ensures DayOf(day + offset) == day
  {
  }

  // ---- grouping -------------------------------------------------------------------------------

  /** The offsets of a cluster's events, in event order. */
  function OffsetsOf(events: seq<Event>, k: Key): seq<nat> {
    if events == [] then []
    else OffsetsOf(events[..|events| - 1], k)
         + if KeyOf(events[|events| - 1]) == k then [events[|events| - 1].offset] else []
  }

  function TotalOffsets(events: seq<Event>, keys: seq<Key>): nat {
    if keys == [] then 0
    else TotalOffsets(events, keys[..|keys| - 1]) + |OffsetsOf(events, keys[|keys| - 1])|
  }

  ghost predicate Distinct<T>(s: seq<T>) { forall i, j :: 0 <= i < j < |s| ==> s[i] != s[j] }

  /** The keys of the events, each once, in order of first appearance. */
  ghost predicate AreKeys(keys: seq<Key>, events: seq<Event>) {
    && Distinct(keys)
    && (forall k :: k in keys ==> OffsetsOf(events, k) != [])
    && (forall k :: k !in keys ==> OffsetsOf(events, k) == [])
    && TotalOffsets(events, keys) == |events|
  }

  lemma {:induction false} OffsetsSnoc(events: seq<Event>, e: Event)
    ensures forall k :: OffsetsOf(events + [e], k) == OffsetsOf(events, k) + if k == KeyOf(e) then [e.offset] else []
  {
    assert (events + [e])[..|events|] == events;
  }

  lemma {:induction false} TotalSnoc(events: seq<Event>, e: Event, keys: seq<Key>)
    requires Distinct(keys)
    ensures TotalOffsets(events + [e], keys) == TotalOffsets(events, keys) + if KeyOf(e) in keys then 1 else 0
  {
    if keys != [] {
      var front, k := keys[..|keys| - 1], keys[|keys| - 1];
      TotalSnoc(events, e, front);
      OffsetsSnoc(events, e);
      assert keys == front + [k];
      assert k !in front;
    }
  }

  lemma {:induction false} KeySeenAgain(keys: seq<Key>, events: seq<Event>, e: Event)
    requires AreKeys(keys, events) && KeyOf(e) in keys
    ensures AreKeys(keys, events + [e])
  {
    OffsetsSnoc(events, e);
    TotalSnoc(events, e, keys);
  }

  lemma {:induction false} KeySeenFirst(keys: seq<Key>, events: seq<Event>, e: Event)
    requires AreKeys(keys, events) && KeyOf(e) !in keys
    ensures AreKeys(keys + [KeyOf(e)], events + [e])
  {
    OffsetsSnoc(events, e);
    TotalSnoc(events, e, keys);
    var k, more := KeyOf(e), keys + [KeyOf(e)];
    assert more[..|keys|] == keys;
    assert TotalOffsets(events + [e], more) == TotalOffsets(events + [e], keys) + |OffsetsOf(events + [e], k)|;
    assert OffsetsOf(events + [e], k) == [e.offset];
    forall x ensures x in more <==> x in keys || x == k { }
  }

  method GroupEvents(events: seq<Event>) returns (keys: seq<Key>, groups: map<Key, seq<nat>>)
    ensures AreKeys(keys, events)
    ensures forall k :: k in groups <==> k in keys
    ensures forall k :: k in groups ==> groups[k] == OffsetsOf(events, k)
  {
    keys, groups := [], map[];
    for i := 0 to |events|
      invariant AreKeys(keys, events[..i])
      invariant forall k :: k in groups <==> k in keys
      invariant forall k :: k in groups ==> groups[k] == OffsetsOf(events[..i], k)
    {
      var e := events[i];
      assert events[..i + 1] == events[..i] + [e];
      OffsetsSnoc(events[..i], e);
      var k := KeyOf(e);
      if k in groups {
        KeySeenAgain(keys, events[..i], e);
        groups := groups[k := groups[k] + [e.offset]];
      } else {
        KeySeenFirst(keys, events[..i], e);
        keys := keys + [k];
        groups := groups[k := [e.offset]];
      }
    }
    assert events[..|events|] == events;
  }

  // ---- availability ---------------------------------------------------------------------------

  /** What the transplant may use: the pool per hour, the blocked test, the last decision. */
  datatype World = World(pool: map<int, seq<string>>, blocked: (string, int) -> bool, lastT: int)

  /** Instrument `s` can take hour `t`. */
  predicate Offered(w: World, s: string, t: int) {
    t <= w.lastT && t in w.pool && s in w.pool[t] && !w.blocked(s, t)
  }

  ghost predicate Available(w: World, s: string, hours: seq<int>) {
    forall t :: t in hours ==> Offered(w, s, t)
  }

  /** Instruments free at every hour: in the pool, not blocked, not used. */
  method FreeInstruments(w: World, hours: seq<int>, used: set<Pick>) returns (free: set<string>)
    requires hours != []
    ensures forall s :: s in free <==> Available(w, s, hours) && forall t :: t in hours ==> Pick(s, t) !in used
  {
    var inTime := forall t :: t in hours ==> t <= w.lastT;
    if !inTime { return {}; }
    free := FreeAt(w, hours[0], used);
    for i := 1 to |hours|
      invariant forall s :: s in free <==>
        forall t :: t in hours[..i] ==> t in w.pool && s in w.pool[t] && !w.blocked(s, t) && Pick(s, t) !in used
    {
      var next := FreeAt(w, hours[i], used);
      assert hours[..i + 1] == hours[..i] + [hours[i]];
      free := free * next;
    }
    assert hours[..|hours|] == hours;
  }

  method FreeAt(w: World, t: int, used: set<Pick>) returns (free: set<string>)
    ensures forall s :: s in free <==> t in w.pool && s in w.pool[t] && !w.blocked(s, t) && Pick(s, t) !in used
  {
    free := if t in w.pool then set s | s in w.pool[t] && Pick(s, t) !in used && !w.blocked(s, t) else {};
  }

  // ---- one week -------------------------------------------------------------------------------

  /** Any shift the generator may return: never 0 when the week has another day. */
  predicate LegalShift(p: WeekPlan, shift: nat) {
    if |p.days| > 1 then 1 <= shift < |p.days| else shift == 0
  }

  function NewDay(p: WeekPlan, shift: nat, k: Key): int
    requires |p.days| > 0
  {
    p.days[(k.dayIndex + shift) % |p.days|]
  }

  function HoursOf(p: WeekPlan, shift: nat, k: Key): (hours: seq<int>)
    requires |p.days| > 0
    ensures |hours| == |OffsetsOf(p.events, k)|
    ensures forall j :: 0 <= j < |hours| ==> hours[j] == NewDay(p, shift, k) + OffsetsOf(p.events, k)[j]
  {
    var offsets := OffsetsOf(p.events, k);
    seq(|offsets|, j requires 0 <= j < |offsets| => NewDay(p, shift, k) + offsets[j])
  }

  function InstrumentOf(d: Draw): Option<string> {
    if d.picks.Some? && d.picks.value != [] then Some(d.picks.value[0].instrument) else None
  }

  /** Instrument `s` at each of the hours. */
  ghost predicate Places(picks: seq<Pick>, s: string, hours: seq<int>) {
    |picks| == |hours| && forall j :: 0 <= j < |hours| ==> picks[j] == Pick(s, hours[j])
  }

  /** A draw of cluster `k`: lost, or one available instrument at all its shifted hours. */
  ghost predicate IsDraw(w: World, p: WeekPlan, shift: nat, k: Key, d: Draw) {
    && k.dayIndex < |p.days|
    && d.cluster == Cluster(k.symbol, p.days[k.dayIndex]) && d.week == p.week
    && d.count == |OffsetsOf(p.events, k)| > 0
    && (d.picks.Some? ==>
          && InstrumentOf(d).Some?
          && Places(d.picks.value, InstrumentOf(d).value, HoursOf(p, shift, k))
          && Available(w, InstrumentOf(d).value, HoursOf(p, shift, k)))
  }

  /** No other symbol holds `s` among the week's earlier draws. */
  ghost predicate Ownable(before: seq<Draw>, symbol: string, s: string) {
    forall g :: 0 <= g < |before| && InstrumentOf(before[g]) == Some(s) ==> before[g].cluster.symbol == symbol
  }

  ghost predicate Holds(before: seq<Draw>, symbol: string, s: string) {
    exists g :: 0 <= g < |before| && InstrumentOf(before[g]) == Some(s) && before[g].cluster.symbol == symbol
  }

  /** `s` is available at every hour and not another symbol's. */
  ghost predicate MayTake(w: World, before: seq<Draw>, symbol: string, s: string, hours: seq<int>) {
    Available(w, s, hours) && Ownable(before, symbol, s)
  }

  /**
   * A cluster is lost only when no instrument may take it, and an instrument its symbol
   * does not hold yet is taken only when none that it holds may.
   */
  ghost predicate IsFair(w: World, before: seq<Draw>, d: Draw, hours: seq<int>) {
    var symbol := d.cluster.symbol;
    match InstrumentOf(d)
    case None => forall s :: !MayTake(w, before, symbol, s, hours)
    case Some(c) =>
      && MayTake(w, before, symbol, c, hours)
      && (Holds(before, symbol, c) || forall s :: MayTake(w, before, symbol, s, hours) ==> !Holds(before, symbol, s))
  }

  /** The week's draws, one per cluster key, in order. */
  ghost predicate IsWeek(w: World, p: WeekPlan, shift: nat, keys: seq<Key>, draws: seq<Draw>) {
    && |draws| == |keys|
    && forall g :: 0 <= g < |draws| ==>
         IsDraw(w, p, shift, keys[g], draws[g]) && IsFair(w, draws[..g], draws[g], HoursOf(p, shift, keys[g]))
  }

  // ---- the owner and used dictionaries --------------------------------------------------------

  ghost predicate OwnerOf(owner: map<string, string>, draws: seq<Draw>) {
    && (forall g :: 0 <= g < |draws| && InstrumentOf(draws[g]).Some? ==>
          InstrumentOf(draws[g]).value in owner && owner[InstrumentOf(draws[g]).value] == draws[g].cluster.symbol)
    && (forall s :: s in owner ==> Holds(draws, owner[s], s))
  }

  ghost predicate UsedBy(draws: seq<Draw>, x: Pick) {
    exists g :: 0 <= g < |draws| && draws[g].picks.Some? && x in draws[g].picks.value
  }

  lemma {:induction false} OwnerDecides(owner: map<string, string>, draws: seq<Draw>, symbol: string, s: string)
    requires OwnerOf(owner, draws)
    ensures Ownable(draws, symbol, s) <==> s !in owner || owner[s] == symbol
    ensures Holds(draws, symbol, s) <==> s in owner && owner[s] == symbol
  {
  }

  lemma {:induction false} OwnerSnoc(owner: map<string, string>, draws: seq<Draw>, d: Draw, c: string)
    requires OwnerOf(owner, draws) && InstrumentOf(d) == Some(c) && Ownable(draws, d.cluster.symbol, c)
    ensures OwnerOf(owner[c := d.cluster.symbol], draws + [d])
  {
    var more, now := draws + [d], owner[c := d.cluster.symbol];
    assert more[|draws|] == d;
    forall s | s in now ensures Holds(more, now[s], s) {
      if s != c {
        assert Holds(draws, owner[s], s);
        var g :| 0 <= g < |draws| && InstrumentOf(draws[g]) == Some(s) && draws[g].cluster.symbol == owner[s];
        assert more[g] == draws[g];
      }
    }
  }

  lemma {:induction false} OwnerLost(owner: map<string, string>, draws: seq<Draw>, d: Draw)
    requires OwnerOf(owner, draws) && InstrumentOf(d).None?
    ensures OwnerOf(owner, draws + [d])
  {
    var more := draws + [d];
    forall s | s in owner ensures Holds(more, owner[s], s) {
      var g :| 0 <= g < |draws| && InstrumentOf(draws[g]) == Some(s) && draws[g].cluster.symbol == owner[s];
      assert more[g] == draws[g];
    }
  }

  // ---- different clusters land on different days ----------------------------------------------

  lemma {:induction false} ShiftsApart(i: nat, j: nat, shift: nat, n: nat)
    requires i < n && j < n && i != j && shift < n
    ensures (i + shift) % n != (j + shift) % n
  {
    ShiftIs(i, shift, n);
    ShiftIs(j, shift, n);
  }

  lemma {:induction false} ShiftIs(i: nat, shift: nat, n: nat)
    requires i < n && shift < n
    ensures (i + shift) % n == if i + shift < n then i + shift else i + shift - n
  {
    if i + shift >= n { assert (i + shift) % n == (i + shift - n) % n; }
  }

  lemma {:induction false} OffsetsInDay(events: seq<Event>, k: Key)
    requires forall i :: 0 <= i < |events| ==> events[i].offset < DAY_MS
    ensures forall j :: 0 <= j < |OffsetsOf(events, k)| ==> OffsetsOf(events, k)[j] < DAY_MS
  {
    if events != [] { OffsetsInDay(events[..|events| - 1], k); }
  }

  /** All of a cluster's new hours fall on its new day. */
  lemma {:induction false} HoursOnDay(p: WeekPlan, shift: nat, k: Key, t: int)
    requires ValidPlan(p) && |p.days| > 0 && t in HoursOf(p, shift, k)
    ensures DayOf(t) == NewDay(p, shift, k)
  {
    OffsetsInDay(p.events, k);
    var hours := HoursOf(p, shift, k);
    var j :| 0 <= j < |hours| && hours[j] == t;
    DayOfHour(NewDay(p, shift, k), OffsetsOf(p.events, k)[j]);
  }

  lemma {:induction false} NewDaysDiffer(p: WeekPlan, shift: nat, a: Key, b: Key)
    requires ValidPlan(p) && LegalShift(p, shift) && a.dayIndex < |p.days| && b.dayIndex < |p.days|
    requires a.symbol == b.symbol && a != b
    ensures NewDay(p, shift, a) != NewDay(p, shift, b)
  {
    ShiftsApart(a.dayIndex, b.dayIndex, shift, |p.days|);
  }

  /**
   * The source also refuses (instrument, hour) pairs already used this week. For an
   * instrument the symbol may take, no such pair exists: that test never decides anything.
   */
  lemma {:induction false} NeverUsedBefore(w: World, p: WeekPlan, shift: nat, keys: seq<Key>, draws: seq<Draw>, k: Key,
        s: string, t: int)
    requires ValidPlan(p) && LegalShift(p, shift) && IsWeek(w, p, shift, keys, draws)
    requires k !in keys && k.dayIndex < |p.days| && t in HoursOf(p, shift, k)
    requires Ownable(draws, k.symbol, s)
    ensures !UsedBy(draws, Pick(s, t))
  {
    forall g | 0 <= g < |draws| && draws[g].picks.Some? ensures Pick(s, t) !in draws[g].picks.value {
      if Pick(s, t) in draws[g].picks.value {
        PickIsPlaced(w, p, shift, keys[g], draws[g], Pick(s, t));
        HoursOnDay(p, shift, keys[g], t);
        HoursOnDay(p, shift, k, t);
        NewDaysDiffer(p, shift, k, keys[g]);
        assert false;
      }
    }
  }

  lemma {:induction false} PickIsPlaced(w: World, p: WeekPlan, shift: nat, k: Key, d: Draw, x: Pick)
    requires IsDraw(w, p, shift, k, d) && d.picks.Some? && x in d.picks.value
    ensures InstrumentOf(d) == Some(x.instrument) && x.t in HoursOf(p, shift, k) && Offered(w, x.instrument, x.t)
  {
    var j :| 0 <= j < |d.picks.value| && d.picks.value[j] == x;
    assert HoursOf(p, shift, k)[j] == x.t;
  }

  /** An instrument this symbol already holds if one is free, else one that nobody holds. */
  method Choose(free: set<string>, owner: map<string, string>, symbol: string) returns (choice: Option<string>)
    ensures choice.None? ==> forall s :: s in free ==> s in owner && owner[s] != symbol
    ensures choice.Some? ==> choice.value in free && (choice.value in owner ==> owner[choice.value] == symbol)
    ensures choice.Some? && choice.value !in owner ==> forall s :: s in free && s in owner ==> owner[s] != symbol
  {
    if c :| c in free && c in owner && owner[c] == symbol {
      choice := Some(c);
    } else if c :| c in free && c !in owner {
      choice := Some(c);
    } else {
      choice := None;
    }
  }

  /** Choosing among the free instruments by owner is choosing among those the cluster may take. */
  lemma {:induction false} ChoiceIsFair(w: World, p: WeekPlan, shift: nat, keys: seq<Key>, draws: seq<Draw>, k: Key,
                     owner: map<string, string>, used: set<Pick>, free: set<string>, choice: Option<string>, d: Draw)
    requires ValidPlan(p) && LegalShift(p, shift) && IsWeek(w, p, shift, keys, draws)
    requires k !in keys && k.dayIndex < |p.days| && OwnerOf(owner, draws)
    requires forall x :: x in used ==> UsedBy(draws, x)
    requires forall s :: s in free <==>
      Available(w, s, HoursOf(p, shift, k)) && forall t :: t in HoursOf(p, shift, k) ==> Pick(s, t) !in used
    requires choice.None? ==> forall s :: s in free ==> s in owner && owner[s] != k.symbol
    requires choice.Some? ==> choice.value in free && (choice.value in owner ==> owner[choice.value] == k.symbol)
    requires choice.Some? && choice.value !in owner ==> forall s :: s in free && s in owner ==> owner[s] != k.symbol
    requires d.cluster.symbol == k.symbol && InstrumentOf(d) == choice
    ensures IsFair(w, draws, d, HoursOf(p, shift, k))
  {
    var hours := HoursOf(p, shift, k);
    forall s ensures MayTake(w, draws, k.symbol, s, hours) <==> s in free && (s !in owner || owner[s] == k.symbol)
    {
      OwnerDecides(owner, draws, k.symbol, s);
      if Ownable(draws, k.symbol, s) {
        forall t | t in hours ensures Pick(s, t) !in used { NeverUsedBefore(w, p, shift, keys, draws, k, s, t); }
      }
    }
    forall s ensures Holds(draws, k.symbol, s) <==> s in owner && owner[s] == k.symbol {
      OwnerDecides(owner, draws, k.symbol, s);
    }
  }

  // ---- the transplant -------------------------------------------------------------------------

  function AtHours(s: string, hours: seq<int>): (picks: seq<Pick>)
    ensures Places(picks, s, hours)
  {
    seq(|hours|, j requires 0 <= j < |hours| => Pick(s, hours[j]))
  }

  /** One cluster: find its free instruments, choose one, and book it. */
  method PlaceCluster(w: World, p: WeekPlan, shift: nat, k: Key, owner: map<string, string>, used: set<Pick>,
                      ghost keys: seq<Key>, ghost draws: seq<Draw>)
    returns (d: Draw, owner': map<string, string>, used': set<Pick>)
    requires ValidPlan(p) && LegalShift(p, shift) && IsWeek(w, p, shift, keys, draws)
    requires k !in keys && k.dayIndex < |p.days| && OffsetsOf(p.events, k) != []
    requires OwnerOf(owner, draws) && forall x :: x in used ==> UsedBy(draws, x)
    ensures IsDraw(w, p, shift, k, d) && IsFair(w, draws, d, HoursOf(p, shift, k))
    ensures OwnerOf(owner', draws + [d]) && forall x :: x in used' ==> UsedBy(draws + [d], x)
  {
    var cluster, hours := Cluster(k.symbol, p.days[k.dayIndex]), HoursOf(p, shift, k);
    var free := FreeInstruments(w, hours, used);
    var choice := Choose(free, owner, k.symbol);
    if choice.None? {
      d, owner', used' := Draw(cluster, p.week, |hours|, None), owner, used;
      ChoiceIsFair(w, p, shift, keys, draws, k, owner, used, free, choice, d);
      OwnerLost(owner, draws, d);
    } else {
      var picks := AtHours(choice.value, hours);
      d := Draw(cluster, p.week, |hours|, Some(picks));
      ChoiceIsFair(w, p, shift, keys, draws, k, owner, used, free, choice, d);
      OwnerSnoc(owner, draws, d, choice.value);
      owner' := owner[choice.value := k.symbol];
      used' := used + set x | x in picks;
    }
    UsedSnoc(draws, d, used, used');
  }

  lemma {:induction false} UsedSnoc(draws: seq<Draw>, d: Draw, used: set<Pick>, used': set<Pick>)
    requires forall x :: x in used ==> UsedBy(draws, x)
    requires forall x :: x in used' ==> x in used || (d.picks.Some? && x in d.picks.value)
    ensures forall x :: x in used' ==> UsedBy(draws + [d], x)
  {
    var more := draws + [d];
    forall x | x in used' ensures UsedBy(more, x) {
      if x in used {
        var g :| 0 <= g < |draws| && draws[g].picks.Some? && x in draws[g].picks.value;
        assert more[g] == draws[g];
      } else {
        assert more[|draws|] == d;
      }
    }
  }

  lemma {:induction false} WeekSnoc(w: World, p: WeekPlan, shift: nat, keys: seq<Key>, draws: seq<Draw>, k: Key,
        d: Draw)
    requires IsWeek(w, p, shift, keys, draws)
    requires IsDraw(w, p, shift, k, d) && IsFair(w, draws, d, HoursOf(p, shift, k))
    ensures IsWeek(w, p, shift, keys + [k], draws + [d])
  {
    var ks, ds := keys + [k], draws + [d];
    forall g | 0 <= g < |ds|
      ensures IsDraw(w, p, shift, ks[g], ds[g]) && IsFair(w, ds[..g], ds[g], HoursOf(p, shift, ks[g]))
    {
      assert ds[..g] == if g < |draws| then draws[..g] else draws;
    }
  }

  lemma {:induction false} KeysHaveDays(events: seq<Event>, k: Key, n: nat)
    requires OffsetsOf(events, k) != [] && forall i :: 0 <= i < |events| ==> events[i].dayIndex < n
    ensures k.dayIndex < n
  {
    if KeyOf(events[|events| - 1]) != k { KeysHaveDays(events[..|events| - 1], k, n); }
  }

  method TransplantWeek(w: World, p: WeekPlan) returns (draws: seq<Draw>, ghost shift: nat, ghost keys: seq<Key>)
    requires ValidPlan(p)
    ensures LegalShift(p, shift) && AreKeys(keys, p.events) && IsWeek(w, p, shift, keys, draws)
  {
    assert LegalShift(p, if |p.days| > 1 then 1 else 0);
    var move: nat :| move <= |p.days| && LegalShift(p, move);
    var order, groups := GroupEvents(p.events);
    shift, keys, draws := move, order, [];
    var owner: map<string, string> := map[];
    var used: set<Pick> := {};
    for g := 0 to |order|
      invariant IsWeek(w, p, move, order[..g], draws)
      invariant OwnerOf(owner, draws) && forall x :: x in used ==> UsedBy(draws, x)
    {
      var k := order[g];
      assert k in order && k !in order[..g];
      KeysHaveDays(p.events, k, |p.days|);
      var d;
      d, owner, used := PlaceCluster(w, p, move, k, owner, used, order[..g], draws);
      WeekSnoc(w, p, move, order[..g], draws, k, d);
      assert order[..g + 1] == order[..g] + [k];
      draws := draws + [d];
    }
    assert order[..|order|] == order;
  }

  /** One week's outcome with the choices that led to it. */
  datatype Week = Week(shift: nat, keys: seq<Key>, draws: seq<Draw>)

  ghost predicate IsRun(w: World, plans: seq<WeekPlan>, weeks: seq<Week>) {
    && |weeks| == |plans|
    && forall v :: 0 <= v < |weeks| ==>
         && LegalShift(plans[v], weeks[v].shift) && AreKeys(weeks[v].keys, plans[v].events)
         && IsWeek(w, plans[v], weeks[v].shift, weeks[v].keys, weeks[v].draws)
  }

  /** Pick `x` belongs to draw g of week v. */
  ghost predicate Picked(draws: seq<seq<Draw>>, v: nat, g: nat, x: Pick) {
    v < |draws| && g < |draws[v]| && draws[v][g].picks.Some? && x in draws[v][g].picks.value
  }

  /** Picks of different clusters never share an instrument and a day. */
  ghost predicate KeptApart(draws: seq<seq<Draw>>) {
    forall v, g, u, h, x, y :: Picked(draws, v, g, x) && Picked(draws, u, h, y) && (v != u || g != h) ==>
      x.instrument != y.instrument || DayOf(x.t) != DayOf(y.t)
  }

  /**
   * All weeks, each with its own shift, owners and used hours. Whatever is drawn: every
   * event is counted, every pick is on offer, and no two clusters become one symbol-day.
   */
  method TransplantAll(w: World, plans: seq<WeekPlan>) returns (draws: seq<seq<Draw>>, ghost weeks: seq<Week>)
    requires ValidPlans(plans)
    ensures |draws| == |plans| && KeptApart(draws)
    ensures forall v :: 0 <= v < |plans| ==> SumCounts(draws[v]) == |plans[v].events|
    ensures forall v, g, x :: Picked(draws, v, g, x) ==> Offered(w, x.instrument, x.t)
    ensures IsRun(w, plans, weeks)
    ensures |draws| == |weeks| && forall v :: 0 <= v < |weeks| ==> draws[v] == weeks[v].draws
  {
    draws, weeks := TransplantWeeks(w, plans);
    forall v | 0 <= v < |plans| ensures SumCounts(draws[v]) == |plans[v].events| {
      EveryEventAccounted(w, plans, weeks, v);
    }
    forall v, g, x | Picked(draws, v, g, x) ensures Offered(w, x.instrument, x.t) {
      PickDay(w, plans, weeks, v, g, x);
    }
    forall v, g, u, h, x, y | Picked(draws, v, g, x) && Picked(draws, u, h, y) && (v != u || g != h)
      ensures x.instrument != y.instrument || DayOf(x.t) != DayOf(y.t)
    {
      if x.instrument == y.instrument { ClustersStayApart(w, plans, weeks, v, g, u, h, x, y); }
    }
  }

  lemma {:induction false} RunSnoc(w: World, plans: seq<WeekPlan>, v: nat, weeks: seq<Week>, week: Week)
    requires v < |plans| && IsRun(w, plans[..v], weeks)
    requires LegalShift(plans[v], week.shift) && AreKeys(week.keys, plans[v].events)
    requires IsWeek(w, plans[v], week.shift, week.keys, week.draws)
    ensures IsRun(w, plans[..v + 1], weeks + [week])
  {
    var ps, ws := plans[..v + 1], weeks + [week];
    forall u | 0 <= u < |ws|
      ensures LegalShift(ps[u], ws[u].shift) && AreKeys(ws[u].keys, ps[u].events)
      ensures IsWeek(w, ps[u], ws[u].shift, ws[u].keys, ws[u].draws)
    {
      if u < v {
        assert ps[u] == plans[..v][u] && ws[u] == weeks[u];
      } else {
        assert ps[u] == plans[v] && ws[u] == week;
      }
    }
  }

  method TransplantWeeks(w: World, plans: seq<WeekPlan>) returns (draws: seq<seq<Draw>>, ghost weeks: seq<Week>)
    requires ValidPlans(plans)
    ensures IsRun(w, plans, weeks)
    ensures |draws| == |weeks| && forall v :: 0 <= v < |weeks| ==> draws[v] == weeks[v].draws
  {
    draws, weeks := [], [];
    for v := 0 to |plans|
      invariant |draws| == |weeks| == v
      invariant IsRun(w, plans[..v], weeks)
      invariant forall u :: 0 <= u < v ==> draws[u] == weeks[u].draws
    {
      var week, shift, keys := TransplantWeek(w, plans[v]);
      RunSnoc(w, plans, v, weeks, Week(shift, keys, week));
      draws := draws + [week];
      weeks := weeks + [Week(shift, keys, week)];
    }
    assert plans[..|plans|] == plans;
  }

  // ---- what every run keeps -------------------------------------------------------------------

  /** Pick `x` belongs to draw g of week v. */
  ghost predicate PickedBy(weeks: seq<Week>, v: nat, g: nat, x: Pick) {
    && v < |weeks| && g < |weeks[v].draws|
    && weeks[v].draws[g].picks.Some? && x in weeks[v].draws[g].picks.value
  }

  lemma {:induction false} PickDay(w: World, plans: seq<WeekPlan>, weeks: seq<Week>, v: nat, g: nat, x: Pick)
    requires ValidPlans(plans) && IsRun(w, plans, weeks) && PickedBy(weeks, v, g, x)
    ensures |plans[v].days| > 0 && weeks[v].keys[g].dayIndex < |plans[v].days|
    ensures DayOf(x.t) == NewDay(plans[v], weeks[v].shift, weeks[v].keys[g]) && DayOf(x.t) in plans[v].days
    ensures InstrumentOf(weeks[v].draws[g]) == Some(x.instrument) && Offered(w, x.instrument, x.t)
  {
    var p, week := plans[v], weeks[v];
    PickIsPlaced(w, p, week.shift, week.keys[g], week.draws[g], x);
    HoursOnDay(p, week.shift, week.keys[g], x.t);
  }

  /** An instrument belongs to at most one event symbol per week. */
  lemma {:induction false} OneOwnerPerWeek(w: World, plans: seq<WeekPlan>, weeks: seq<Week>, v: nat, g: nat, h: nat,
        x: Pick, y: Pick)
    requires ValidPlans(plans) && IsRun(w, plans, weeks)
    requires PickedBy(weeks, v, g, x) && PickedBy(weeks, v, h, y) && x.instrument == y.instrument
    ensures weeks[v].draws[g].cluster.symbol == weeks[v].draws[h].cluster.symbol
  {
    PickDay(w, plans, weeks, v, g, x);
    PickDay(w, plans, weeks, v, h, y);
    if g < h { EarlierOwner(w, plans, weeks, v, g, h); }
    if h < g { EarlierOwner(w, plans, weeks, v, h, g); }
  }

  lemma {:induction false} EarlierOwner(w: World, plans: seq<WeekPlan>, weeks: seq<Week>, v: nat, g: nat, h: nat)
    requires IsRun(w, plans, weeks) && v < |weeks| && g < h < |weeks[v].draws|
    requires InstrumentOf(weeks[v].draws[g]).Some? && InstrumentOf(weeks[v].draws[g]) == InstrumentOf(weeks[v].draws[h])
    ensures weeks[v].draws[g].cluster.symbol == weeks[v].draws[h].cluster.symbol
  {
    var p, week := plans[v], weeks[v];
    var before := week.draws[..h];
    assert IsFair(w, before, week.draws[h], HoursOf(p, week.shift, week.keys[h]));
    assert before[g] == week.draws[g];
  }

  /** Two source clusters never land on one instrument and day, within a week or across weeks. */
  lemma {:induction false} ClustersStayApart(w: World, plans: seq<WeekPlan>, weeks: seq<Week>, v: nat, g: nat, u: nat,
        h: nat, x: Pick, y: Pick)
    requires ValidPlans(plans) && IsRun(w, plans, weeks)
    requires PickedBy(weeks, v, g, x) && PickedBy(weeks, u, h, y) && (v != u || g != h)
    requires x.instrument == y.instrument
    ensures DayOf(x.t) != DayOf(y.t)
  {
    PickDay(w, plans, weeks, v, g, x);
    PickDay(w, plans, weeks, u, h, y);
    if v == u {
      OneOwnerPerWeek(w, plans, weeks, v, g, h, x, y);
      var keys := weeks[v].keys;
      assert keys[g] != keys[h];
      NewDaysDiffer(plans[v], weeks[v].shift, keys[g], keys[h]);
    } else if v < u {
      assert DayOf(x.t) !in plans[u].days;
    } else {
      assert DayOf(y.t) !in plans[v].days;
    }
  }

  lemma {:induction false} OffsetsDistinct(events: seq<Event>, k: Key)
    requires Distinct(events)
    ensures Distinct(OffsetsOf(events, k))
    ensures forall o :: o in OffsetsOf(events, k) ==> Event(k.symbol, k.dayIndex, o) in events
  {
    if events != [] {
      var front, e := events[..|events| - 1], events[|events| - 1];
      OffsetsDistinct(front, k);
      assert events == front + [e] && e !in front;
    }
  }

  /** No (instrument, hour) is drawn twice anywhere in a run. */
  lemma {:induction false} NoHourTwice(w: World, plans: seq<WeekPlan>, weeks: seq<Week>, v: nat, g: nat)
    requires ValidPlans(plans) && IsRun(w, plans, weeks) && v < |weeks| && g < |weeks[v].draws|
    requires weeks[v].draws[g].picks.Some?
    ensures Distinct(weeks[v].draws[g].picks.value)
    ensures forall u, h, x :: PickedBy(weeks, v, g, x) && PickedBy(weeks, u, h, x) ==> u == v && h == g
  {
    OffsetsDistinct(plans[v].events, weeks[v].keys[g]);
    assert IsDraw(w, plans[v], weeks[v].shift, weeks[v].keys[g], weeks[v].draws[g]);
    forall u, h, x | PickedBy(weeks, v, g, x) && PickedBy(weeks, u, h, x) ensures u == v && h == g {
      if u != v || h != g { ClustersStayApart(w, plans, weeks, v, g, u, h, x, x); }
    }
  }

  function SumCounts(draws: seq<Draw>): nat {
    if draws == [] then 0 else SumCounts(draws[..|draws| - 1]) + draws[|draws| - 1].count
  }

  lemma {:induction false} CountsAreOffsets(w: World, p: WeekPlan, shift: nat, keys: seq<Key>, draws: seq<Draw>, n: nat)
    requires IsWeek(w, p, shift, keys, draws) && n <= |draws|
    ensures SumCounts(draws[..n]) == TotalOffsets(p.events, keys[..n])
  {
    if n > 0 {
      CountsAreOffsets(w, p, shift, keys, draws, n - 1);
      assert draws[..n][..n - 1] == draws[..n - 1] && keys[..n][..n - 1] == keys[..n - 1];
    }
  }

  /** Every event of a week is counted in exactly one cluster, and a picked cluster picks all its events. */
  lemma {:induction false} EveryEventAccounted(w: World, plans: seq<WeekPlan>, weeks: seq<Week>, v: nat)
    requires IsRun(w, plans, weeks) && v < |weeks|
    ensures SumCounts(weeks[v].draws) == |plans[v].events|
    ensures forall g :: 0 <= g < |weeks[v].draws| && weeks[v].draws[g].picks.Some? ==>
      |weeks[v].draws[g].picks.value| == weeks[v].draws[g].count
  {
    var week := weeks[v];
    CountsAreOffsets(w, plans[v], week.shift, week.keys, week.draws, |week.draws|);
    assert week.draws[..|week.draws|] == week.draws && week.keys[..|week.keys|] == week.keys;
    forall g | 0 <= g < |week.draws| && week.draws[g].picks.Some?
      ensures |week.draws[g].picks.value| == week.draws[g].count
    {
      assert IsDraw(w, plans[v], week.shift, week.keys[g], week.draws[g]);
    }
  }

  lemma {:induction false} NewDayIsOther(p: WeekPlan, shift: nat, k: Key)
    requires ValidPlan(p) && LegalShift(p, shift) && |p.days| > 1 && k.dayIndex < |p.days|
    ensures NewDay(p, shift, k) != p.days[k.dayIndex]
  {
    ShiftIs(k.dayIndex, shift, |p.days|);
  }

  /** Every cluster of a week with another day moves to a different day of it. */
  lemma {:induction false} ClusterMoves(w: World, plans: seq<WeekPlan>, weeks: seq<Week>, v: nat, g: nat, x: Pick)
    requires ValidPlans(plans) && IsRun(w, plans, weeks) && PickedBy(weeks, v, g, x) && |plans[v].days| > 1
    ensures DayOf(x.t) != weeks[v].draws[g].cluster.day
  {
    PickDay(w, plans, weeks, v, g, x);
    NewDayIsOther(plans[v], weeks[v].shift, weeks[v].keys[g]);
    assert IsDraw(w, plans[v], weeks[v].shift, weeks[v].keys[g], weeks[v].draws[g]);
  }
}
