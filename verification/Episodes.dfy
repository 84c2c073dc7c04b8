/**
 * Episode formation and the funnel of the abnormal-flow study: greedy cooldown per
 * (venue, asset), per-instrument funnels and their merge.
 */
module Episodes {
  import opened Sorting
  import opened FlowDecisions
  import opened GreedyHolds
  import StreamingTopK
  import Controls

  datatype AssetKey = AssetKey(exchange: string, asset: string)

  function AssetOf(d: Decision): AssetKey {
    AssetKey(d.exchange, d.canonicalAsset)
  }

  function EpisodeClock(): Clock<Decision, AssetKey> {
    Clock(AssetOf, (d: Decision) => d.decisionAt)
  }

  /** Venue, asset, decision time, symbol. */
  predicate EpisodeLe(a: Decision, b: Decision) {
    if a.exchange != b.exchange then StrLe(a.exchange, b.exchange)
    else if a.canonicalAsset != b.canonicalAsset then StrLe(a.canonicalAsset, b.canonicalAsset)
    else if a.decisionAt != b.decisionAt then a.decisionAt < b.decisionAt
    else StrLe(a.symbol, b.symbol)
  }

  lemma {:induction false} EpisodeLeTotal()
    ensures TotalPreorder(EpisodeLe)
  {
    StrLeOrder();
  }

  function Ordered(fires: seq<Decision>): seq<Decision> {
    StableSort(fires, EpisodeLe)
  }

  lemma {:induction false} OrderedInTime(fires: seq<Decision>)
    ensures InTimeOrder(EpisodeClock(), Ordered(fires))
  {
    EpisodeLeTotal();
    StableSortSorted(fires, EpisodeLe);
  }

  function EpisodesOf(fires: seq<Decision>, cooldown: int): seq<Decision> {
    Greedy(EpisodeClock(), Ordered(fires), cooldown)
  }

  method FormEpisodes(fires: seq<Decision>, cooldown: int) returns (kept: seq<Decision>)
    ensures kept == EpisodesOf(fires, cooldown)
  {
    kept := Walk(EpisodeClock(), Ordered(fires), cooldown);
  }

  /** The episodes are a cooldown-respecting choice of fires, and no such choice is larger. */
  lemma {:induction false} EpisodesOptimal(fires: seq<Decision>, cooldown: int)
    ensures multiset(EpisodesOf(fires, cooldown)) <= multiset(fires)
    ensures Separated(EpisodeClock(), EpisodesOf(fires, cooldown), cooldown)
    ensures forall sel: seq<Decision> ::
      multiset(sel) <= multiset(fires) && Separated(EpisodeClock(), sel, cooldown)
        ==> |sel| <= |EpisodesOf(fires, cooldown)|
  {
    OrderedInTime(fires);
    GreedyMembers(EpisodeClock(), Ordered(fires), cooldown);
    GreedySeparated(EpisodeClock(), Ordered(fires), cooldown);
    forall sel: seq<Decision> |
      multiset(sel) <= multiset(fires) && Separated(EpisodeClock(), sel, cooldown)
      ensures |sel| <= |EpisodesOf(fires, cooldown)|
    {
      GreedyOptimal(EpisodeClock(), Ordered(fires), cooldown, sel);
    }
  }

  lemma {:induction false} FilterSplit<T(!new)>(s: seq<T>, p: T -> bool, q: T -> bool)
    requires forall x :: p(x) <==> !q(x)
    ensures |s| == |Filter(s, p)| + |Filter(s, q)|
  {
    if s != [] { FilterSplit(s[..|s| - 1], p, q); }
  }

  lemma {:induction false} FilterSeparated<T(!new), K>(c: Clock<T, K>, s: seq<T>, p: T -> bool, gap: int)
    requires Separated(c, s, gap)
    ensures Separated(c, Filter(s, p), gap)
  {
    var le := (a: T, b: T) =>
      c.key(a) != c.key(b) || c.at(a) - c.at(b) >= gap || c.at(b) - c.at(a) >= gap;
    FilterSorted(s, p, le);
  }

  /** Global episodes of two batches of fires are at most the sum of the batches' episodes. */
  lemma {:induction false} EpisodesSubadditive(a: seq<Decision>, b: seq<Decision>, cooldown: int)
    ensures |EpisodesOf(a + b, cooldown)| <= |EpisodesOf(a, cooldown)| + |EpisodesOf(b, cooldown)|
  {
    var c := EpisodeClock();
    if cooldown <= 0 {
      OrderedInTime(a); OrderedInTime(b); OrderedInTime(a + b);
      GreedyKeepsAll(c, Ordered(a), cooldown);
      GreedyKeepsAll(c, Ordered(b), cooldown);
      GreedyKeepsAll(c, Ordered(a + b), cooldown);
    } else {
      EpisodesOptimal(a + b, cooldown);
      var kept := EpisodesOf(a + b, cooldown);
      var inA, notA := (d: Decision) => d in a, (d: Decision) => d !in a;
      FilterSplit(kept, inA, notA);
      FilterSeparated(c, kept, inA, cooldown);
      FilterSeparated(c, kept, notA, cooldown);
      GreedyMembers(c, Ordered(a + b), cooldown);
      SameMembers(Ordered(a + b), a + b); SameMembers(Ordered(a), a); SameMembers(Ordered(b), b);
      OrderedInTime(a); OrderedInTime(b);
      forall d | d in Filter(kept, notA) ensures d in Ordered(b) { assert d in a + b; }
      GreedyOptimalMembers(c, Ordered(a), cooldown, Filter(kept, inA));
      GreedyOptimalMembers(c, Ordered(b), cooldown, Filter(kept, notA));
    }
  }

  function Flatten(parts: seq<seq<Decision>>): seq<Decision> {
    if parts == [] then [] else Flatten(parts[..|parts| - 1]) + parts[|parts| - 1]
  }

  function SumEpisodes(parts: seq<seq<Decision>>, cooldown: int): nat {
    if parts == [] then 0
    else SumEpisodes(parts[..|parts| - 1], cooldown) + |EpisodesOf(parts[|parts| - 1], cooldown)|
  }

  /** The global episode count never exceeds the sum of the per-instrument counts. */
  lemma {:induction false} GlobalEpisodesAtMostSum(parts: seq<seq<Decision>>, cooldown: int)
    ensures |EpisodesOf(Flatten(parts), cooldown)| <= SumEpisodes(parts, cooldown)
  {
    if parts != [] {
      GlobalEpisodesAtMostSum(parts[..|parts| - 1], cooldown);
      EpisodesSubadditive(Flatten(parts[..|parts| - 1]), parts[|parts| - 1], cooldown);
    }
  }

  /** More fires never give fewer episodes. */
  lemma {:induction false} EpisodesMonotone(a: seq<Decision>, b: seq<Decision>, cooldown: int)
    requires multiset(a) <= multiset(b)
    ensures |EpisodesOf(a, cooldown)| <= |EpisodesOf(b, cooldown)|
  {
    EpisodesOptimal(a, cooldown);
    EpisodesOptimal(b, cooldown);
  }

  /**
   * With a positive cooldown and an asset that depends only on route and instant, no two
   * episodes share a route key, so the control streams are keyed without collision.
   */
  lemma {:induction false} EpisodesHaveDistinctRoutes(fires: seq<Decision>, cooldown: int)
    requires cooldown > 0
    requires forall a, b ::
      a in fires && b in fires && a.Route() == b.Route() ==> a.canonicalAsset == b.canonicalAsset
    ensures StreamingTopK.DistinctIds(EpisodesOf(fires, cooldown), (d: Decision) => d.Route())
  {
    var kept := EpisodesOf(fires, cooldown);
    EpisodesOptimal(fires, cooldown);
    GreedyMembers(EpisodeClock(), Ordered(fires), cooldown);
    SameMembers(Ordered(fires), fires);
    forall i, j | 0 <= i < j < |kept| ensures kept[i].Route() != kept[j].Route() {
      assert kept[i] in kept && kept[j] in kept;
      assert AssetOf(kept[i]) == AssetOf(kept[j]) ==> Apart(kept[i].decisionAt, kept[j].decisionAt, cooldown);
    }
  }

  /** Fires of one instrument inside the evaluation window. */
  function IsFire(c: Contract, lo: int, hi: int): Decision -> bool {
    (d: Decision) => lo <= d.decisionAt < hi && Eligible(c, d) && PrimaryFires(c, d)
  }

  function FiresOf(c: Contract, instruments: seq<seq<Decision>>, lo: int, hi: int): (r: seq<seq<Decision>>)
    ensures |r| == |instruments|
  {
    seq(|instruments|, i requires 0 <= i < |instruments| => Filter(instruments[i], IsFire(c, lo, hi)))
  }

  /** Identity is point in time: rows of one route and instant resolve to one asset. */
  ghost predicate PointInTimeAssets(instruments: seq<seq<Decision>>) {
    forall a, b :: a in Flatten(instruments) && b in Flatten(instruments) && a.Route() == b.Route() ==>
      a.canonicalAsset == b.canonicalAsset
  }

  lemma {:induction false} FlattenSnoc(parts: seq<seq<Decision>>, p: seq<Decision>, cooldown: int)
    ensures Flatten(parts + [p]) == Flatten(parts) + p
    ensures SumEpisodes(parts + [p], cooldown) == SumEpisodes(parts, cooldown) + |EpisodesOf(p, cooldown)|
  {
    assert (parts + [p])[..|parts|] == parts;
  }

  lemma {:induction false} FlattenFilter(instruments: seq<seq<Decision>>, parts: seq<seq<Decision>>,
        p: Decision -> bool)
    requires |parts| == |instruments|
    requires forall i :: 0 <= i < |parts| ==> parts[i] == Filter(instruments[i], p)
    ensures forall d :: d in Flatten(parts) ==> d in Flatten(instruments)
  {
    if parts != [] {
      FlattenFilter(instruments[..|parts| - 1], parts[..|parts| - 1], p);
    }
  }

  lemma {:induction false} FiresHaveDistinctRoutes(c: Contract, instruments: seq<seq<Decision>>, lo: int, hi: int)
    requires c.cooldownMinutes > 0 && PointInTimeAssets(instruments)
    ensures StreamingTopK.DistinctIds(
              EpisodesOf(Flatten(FiresOf(c, instruments, lo, hi)), c.cooldownMinutes), (d: Decision) => d.Route())
  {
    FlattenFilter(instruments, FiresOf(c, instruments, lo, hi), IsFire(c, lo, hi));
    EpisodesHaveDistinctRoutes(Flatten(FiresOf(c, instruments, lo, hi)), c.cooldownMinutes);
  }

  /** Each episode's controls, under its route key, are those of a batch match over the whole pool. */
  ghost predicate BatchEqual(c: Contract, episodes: seq<Decision>, pool: seq<Decision>, lo: int, hi: int,
                             controls: map<RouteKey, seq<Decision>>) {
    forall e :: e in episodes ==>
      && e.Route() in controls
      && controls[e.Route()]
         == Controls.MatchControls(e, Filter(pool, Controls.IsCandidate(c, lo, hi)), Controls.StreamCap(c))
  }

  /** The second pass: stream every decision past the episodes. */
  method MatchAll(c: Contract, episodes: seq<Decision>, pool: seq<Decision>, lo: int, hi: int)
    returns (controls: map<RouteKey, seq<Decision>>)
    ensures StreamingTopK.DistinctIds(episodes, (d: Decision) => d.Route()) ==>
      BatchEqual(c, episodes, pool, lo, hi, controls)
  {
    var route := (d: Decision) => d.Route();
    controls := Controls.SelectControls(c, episodes, pool, lo, hi, route);
    forall e | e in episodes ensures e.Route() in controls { assert route(e) in controls; }
  }

  /** The first pass: the fires of every instrument, and the sum of their own episode counts. */
  method CollectFires(c: Contract, instruments: seq<seq<Decision>>, lo: int, hi: int)
    returns (fires: seq<Decision>, perInstrument: nat)
    ensures fires == Flatten(FiresOf(c, instruments, lo, hi))
    ensures perInstrument == SumEpisodes(FiresOf(c, instruments, lo, hi), c.cooldownMinutes)
  {
    var parts := FiresOf(c, instruments, lo, hi);
    fires, perInstrument := [], 0;
    for i := 0 to |parts|
      invariant fires == Flatten(parts[..i])
      invariant perInstrument == SumEpisodes(parts[..i], c.cooldownMinutes)
    {
      assert parts[..i + 1] == parts[..i] + [parts[i]];
      FlattenSnoc(parts[..i], parts[i], c.cooldownMinutes);
      var own := FormEpisodes(parts[i], c.cooldownMinutes);
      perInstrument := perInstrument + |own|;
      fires := fires + parts[i];
    }
    assert parts[..|parts|] == parts;
  }

  /**
   * The two passes of a formal run: collect fires instrument by instrument, form the
   * global episodes, then stream every decision past them for matched controls. The
   * per-instrument episode total that a merged funnel would report is never below the
   * global count, and each episode gets the controls a batch match would give it.
   */
  method FormalSelection(c: Contract, instruments: seq<seq<Decision>>, lo: int, hi: int)
    returns (episodes: seq<Decision>, perInstrument: nat, controls: map<RouteKey, seq<Decision>>)
    ensures episodes == EpisodesOf(Flatten(FiresOf(c, instruments, lo, hi)), c.cooldownMinutes)
    ensures |episodes| <= perInstrument
    ensures c.cooldownMinutes > 0 && PointInTimeAssets(instruments) ==>
      BatchEqual(c, episodes, Flatten(instruments), lo, hi, controls)
  {
    var fires;
    fires, perInstrument := CollectFires(c, instruments, lo, hi);
    episodes := FormEpisodes(fires, c.cooldownMinutes);
    GlobalEpisodesAtMostSum(FiresOf(c, instruments, lo, hi), c.cooldownMinutes);
    controls := MatchAll(c, episodes, Flatten(instruments), lo, hi);
    if c.cooldownMinutes > 0 && PointInTimeAssets(instruments) {
      FiresHaveDistinctRoutes(c, instruments, lo, hi);
    }
  }

  // ---- ablations --------------------------------------------------------------------------------

  /** The eligible decisions on which a cell fires. */
  function CellFires(c: Contract, decisions: seq<Decision>, cell: (Contract, Decision) -> bool): seq<Decision> {
    Filter(decisions, InCell(c, cell))
  }

  function InCell(c: Contract, cell: (Contract, Decision) -> bool): Decision -> bool {
    (d: Decision) => Eligible(c, d) && cell(c, d)
  }

  lemma {:induction false} FilterSubmultiset<T(!new)>(s: seq<T>, p: T -> bool, q: T -> bool)
    requires forall x :: p(x) ==> q(x)
    ensures multiset(Filter(s, p)) <= multiset(Filter(s, q))
  {
    if s != [] { FilterSubmultiset(s[..|s| - 1], p, q); }
  }

  /** Dropping any one of the three conditions never gives fewer episodes, although it can move them. */
  lemma {:induction false} AblationsHaveNoFewerEpisodes(c: Contract, decisions: seq<Decision>, cooldown: int)
    ensures var primary := |EpisodesOf(CellFires(c, decisions, PrimaryFires), cooldown)|;
      && primary <= |EpisodesOf(CellFires(c, decisions, NoOiFires), cooldown)|
      && primary <= |EpisodesOf(CellFires(c, decisions, NoBuyFires), cooldown)|
      && primary <= |EpisodesOf(CellFires(c, decisions, NoContainmentFires), cooldown)|
  {
    AblationHasNoFewer(c, decisions, NoOiFires, cooldown);
    AblationHasNoFewer(c, decisions, NoBuyFires, cooldown);
    AblationHasNoFewer(c, decisions, NoContainmentFires, cooldown);
  }

  lemma {:induction false} AblationHasNoFewer(c: Contract, decisions: seq<Decision>, cell: (Contract, Decision) -> bool,
        cooldown: int)
    requires forall d :: PrimaryFires(c, d) ==> cell(c, d)
    ensures |EpisodesOf(CellFires(c, decisions, PrimaryFires), cooldown)|
         <= |EpisodesOf(CellFires(c, decisions, cell), cooldown)|
  {
    FilterSubmultiset(decisions, InCell(c, PrimaryFires), InCell(c, cell));
    EpisodesMonotone(CellFires(c, decisions, PrimaryFires), CellFires(c, decisions, cell), cooldown);
  }
}
