/**
 * Bounded top-k selection, once over a whole pool and once as a stream. A `Rule` says
 * which rows share a band, which row is the episode itself, and the preference order.
 */
module StreamingTopK {
  import opened Wrappers
  import opened Sorting

  datatype Rule<!D, !B> = Rule(band: D -> Option<B>, same: (D, D) -> bool,
                               order: D -> ((D, D) -> bool))

  ghost predicate ValidRule<D(!new), B>(r: Rule<D, B>) {
    forall e :: TotalPreorder(r.order(e))
  }

  /** Same band as `e`, and not `e` itself. */
  function Matches<D, B(==)>(r: Rule<D, B>, e: D): D -> bool {
    d => !r.same(e, d) && r.band(d).Some? && r.band(d) == r.band(e)
  }

  /** Batch selection over a whole pool: filter, stable sort, first k. */
  function Batch<D(!new), B(==)>(r: Rule<D, B>, e: D, pool: seq<D>, k: nat): seq<D> {
    if r.band(e).None? then []
    else Take(StableSort(Filter(pool, Matches(r, e)), r.order(e)), k)
  }

  /** One streamed candidate: append, stable sort, truncate. */
  lemma {:induction false} StreamStep<D(!new), B>(r: Rule<D, B>, e: D, pool: seq<D>, d: D, k: nat)
    requires ValidRule(r)
    ensures Matches(r, e)(d) ==>
      Take(StableSort(Batch(r, e, pool, k) + [d], r.order(e)), k) == Batch(r, e, pool + [d], k)
    ensures !Matches(r, e)(d) ==> Batch(r, e, pool + [d], k) == Batch(r, e, pool, k)
  {
    var le, matched := r.order(e), Filter(pool, Matches(r, e));
    assert (pool + [d])[..|pool|] == pool;
    if Matches(r, e)(d) {
      StableSortSorted(matched, le);
      SortAppend(Take(StableSort(matched, le), k), d, le);
      TakeInsert(StableSort(matched, le), d, le, k);
      assert (matched + [d])[..|matched|] == matched;
    }
  }

  ghost predicate DistinctIds<D, K>(es: seq<D>, id: D -> K) {
    forall i, j :: 0 <= i < j < |es| ==> id(es[i]) != id(es[j])
  }

  lemma {:induction false} FilterDistinct<D(!new), K>(es: seq<D>, id: D -> K, p: D -> bool)
    requires DistinctIds(es, id)
    ensures DistinctIds(Filter(es, p), id)
  {
    if es != [] {
      var front, last := es[..|es| - 1], es[|es| - 1];
      FilterDistinct(front, id, p);
      forall x | x in front ensures id(x) != id(last) {
        var i :| 0 <= i < |front| && front[i] == x;
      }
      forall i | 0 <= i < |Filter(front, p)| ensures id(Filter(front, p)[i]) != id(last) {
        assert Filter(front, p)[i] in Filter(front, p);
      }
    }
  }

  /** Equal ids mean equal rows among rows with distinct ids. */
  lemma {:induction false} SameIdSameRow<D, K>(es: seq<D>, id: D -> K, a: D, b: D)
    requires DistinctIds(es, id) && a in es && b in es && id(a) == id(b)
    ensures a == b
  {
    var i :| 0 <= i < |es| && es[i] == a;
    var j :| 0 <= j < |es| && es[j] == b;
    assert i == j;
  }

  function InBand<D, B(==)>(r: Rule<D, B>, b: B): D -> bool {
    e => r.band(e) == Some(b)
  }

  /** The episodes that can take a control, grouped by band in episode order. */
  method GroupByBand<D(!new), B(==,!new)>(r: Rule<D, B>, episodes: seq<D>) returns (byBand: map<B, seq<D>>)
    ensures forall b :: b in byBand ==> byBand[b] == Filter(episodes, InBand(r, b))
    ensures forall b :: b !in byBand ==> Filter(episodes, InBand(r, b)) == []
  {
    byBand := map[];
    for i := 0 to |episodes|
      invariant forall b :: b in byBand ==> byBand[b] == Filter(episodes[..i], InBand(r, b))
      invariant forall b :: b !in byBand ==> Filter(episodes[..i], InBand(r, b)) == []
    {
      var band := r.band(episodes[i]);
      assert episodes[..i + 1] == episodes[..i] + [episodes[i]];
      forall b ensures Filter(episodes[..i + 1], InBand(r, b))
                    == if band == Some(b) then Filter(episodes[..i], InBand(r, b)) + [episodes[i]]
                       else Filter(episodes[..i], InBand(r, b))
      {
        FilterSnoc(episodes[..i], episodes[i], InBand(r, b));
      }
      if band.Some? {
        var group := if band.value in byBand then byBand[band.value] else [];
        byBand := byBand[band.value := group + [episodes[i]]];
      }
    }
    assert episodes[..|episodes|] == episodes;
  }

  /** While candidate `d` is handed round: episodes in `done` have seen it. */
  ghost predicate Progress<D(!new), B, K>(
    r: Rule<D, B>, sel: map<K, seq<D>>, es: seq<D>, id: D -> K,
    pool: seq<D>, d: D, done: seq<D>, k: nat)
  {
    forall e :: e in es ==>
      id(e) in sel && sel[id(e)] == Batch(r, e, if e in done then pool + [d] else pool, k)
  }

  ghost predicate Selected<D(!new), B, K>(
    r: Rule<D, B>, sel: map<K, seq<D>>, es: seq<D>, id: D -> K, pool: seq<D>, k: nat)
  {
    forall e :: e in es ==> id(e) in sel && sel[id(e)] == Batch(r, e, pool, k)
  }

  lemma {:induction false} ProgressStep<D(!new), B, K>(
    r: Rule<D, B>, before: map<K, seq<D>>, sel: map<K, seq<D>>, es: seq<D>, id: D -> K,
    pool: seq<D>, d: D, done: seq<D>, e: D, k: nat)
    requires ValidRule(r) && DistinctIds(es, id) && e in es && e !in done
    requires r.band(e).Some? && r.band(e) == r.band(d)
    requires Progress(r, before, es, id, pool, d, done, k)
    requires sel == if r.same(e, d) then before
                    else before[id(e) := Take(StableSort(before[id(e)] + [d], r.order(e)), k)]
    ensures Progress(r, sel, es, id, pool, d, done + [e], k)
  {
    StreamStep(r, e, pool, d, k);
    assert before[id(e)] == Batch(r, e, pool, k);
    assert sel[id(e)] == Batch(r, e, pool + [d], k);
    forall x | x in es
      ensures id(x) in sel
      ensures sel[id(x)] == Batch(r, x, if x in done + [e] then pool + [d] else pool, k)
    {
      if id(x) == id(e) {
        SameIdSameRow(es, id, x, e);
      } else {
        assert sel[id(x)] == before[id(x)];
      }
    }
  }

  /** A row that no match ties to `d` keeps its selection when `d` joins the pool. */
  lemma {:induction false} ProgressDone<D(!new), B, K>(
    r: Rule<D, B>, sel: map<K, seq<D>>, es: seq<D>, id: D -> K,
    pool: seq<D>, d: D, group: seq<D>, k: nat)
    requires ValidRule(r) && Progress(r, sel, es, id, pool, d, group, k)
    requires forall e :: e in es && e !in group ==> !Matches(r, e)(d)
    ensures Selected(r, sel, es, id, pool + [d], k)
  {
    forall e | e in es ensures id(e) in sel && sel[id(e)] == Batch(r, e, pool + [d], k) {
      if e !in group { StreamStep(r, e, pool, d, k); }
    }
  }

  ghost predicate IsGroup<D(!new), B>(r: Rule<D, B>, es: seq<D>, d: D, group: seq<D>) {
    r.band(d).Some? && group == Filter(es, InBand(r, r.band(d).value))
  }

  /** The next row of the group takes or refuses the candidate. */
  lemma {:induction false} NextOfGroup<D(!new), B, K>(
    r: Rule<D, B>, before: map<K, seq<D>>, sel: map<K, seq<D>>, es: seq<D>, id: D -> K,
    pool: seq<D>, d: D, group: seq<D>, j: nat, k: nat)
    requires ValidRule(r) && DistinctIds(es, id) && IsGroup(r, es, d, group) && j < |group|
    requires Progress(r, before, es, id, pool, d, group[..j], k) && id(group[j]) in before
    requires sel == if r.same(group[j], d) then before
                    else before[id(group[j]) := Take(StableSort(before[id(group[j])] + [d], r.order(group[j])), k)]
    ensures Progress(r, sel, es, id, pool, d, group[..j + 1], k)
  {
    FilterDistinct(es, id, InBand(r, r.band(d).value));
    assert group[j] in group && group[j] !in group[..j];
    ProgressStep(r, before, sel, es, id, pool, d, group[..j], group[j], k);
    assert group[..j + 1] == group[..j] + [group[j]];
  }

  lemma {:induction false} GroupDone<D(!new), B, K>(
    r: Rule<D, B>, sel: map<K, seq<D>>, es: seq<D>, id: D -> K, pool: seq<D>, d: D, group: seq<D>, k: nat)
    requires ValidRule(r) && IsGroup(r, es, d, group) && Progress(r, sel, es, id, pool, d, group[..|group|], k)
    ensures Selected(r, sel, es, id, pool + [d], k)
  {
    assert group[..|group|] == group;
    ProgressDone(r, sel, es, id, pool, d, group, k);
  }

  /** Hand one candidate to every episode of its band. */
  method Offer<D(!new), B(==), K(==)>(
    r: Rule<D, B>, episodes: seq<D>, group: seq<D>, d: D, k: nat, id: D -> K,
    selected: map<K, seq<D>>, ghost pool: seq<D>)
    returns (out: map<K, seq<D>>)
    requires ValidRule(r) && IsGroup(r, episodes, d, group)
    requires forall e :: e in episodes ==> id(e) in selected
    ensures out.Keys == selected.Keys
    ensures DistinctIds(episodes, id) && Selected(r, selected, episodes, id, pool, k)
        ==> Selected(r, out, episodes, id, pool + [d], k)
  {
    out := selected;
    ghost var tracked := DistinctIds(episodes, id) && Selected(r, selected, episodes, id, pool, k);
    for j := 0 to |group|
      invariant out.Keys == selected.Keys
      invariant tracked ==> Progress(r, out, episodes, id, pool, d, group[..j], k)
    {
      var e := group[j];
      assert e in group && id(e) in out;
      ghost var before := out;
      if !r.same(e, d) {
        out := out[id(e) := Take(StableSort(out[id(e)] + [d], r.order(e)), k)];
      }
      if tracked { NextOfGroup(r, before, out, episodes, id, pool, d, group, j, k); }
    }
    if tracked { GroupDone(r, out, episodes, id, pool, d, group, k); }
  }

  /**
   * The streaming selection over the candidates `keep` admits. Whatever the arrival
   * order and the cap, episodes with distinct ids end with the batch selection.
   */
  method Stream<D(==,!new), B(==,!new), K(==,!new)>(
    r: Rule<D, B>, episodes: seq<D>, candidates: seq<D>, keep: D -> bool, k: nat, id: D -> K)
    returns (selected: map<K, seq<D>>)
    requires ValidRule(r)
    ensures selected.Keys == set e | e in episodes :: id(e)
    ensures DistinctIds(episodes, id) ==> Selected(r, selected, episodes, id, Filter(candidates, keep), k)
  {
    selected := map e | e in episodes :: id(e) := [];
    var byBand := GroupByBand(r, episodes);
    for i := 0 to |candidates|
      invariant selected.Keys == set e | e in episodes :: id(e)
      invariant DistinctIds(episodes, id) ==>
        Selected(r, selected, episodes, id, Filter(candidates[..i], keep), k)
    {
      var d := candidates[i];
      ghost var pool := Filter(candidates[..i], keep);
      assert candidates[..i + 1][..i] == candidates[..i];
      if keep(d) {
        if r.band(d).Some? {
          var b := r.band(d).value;
          var group := if b in byBand then byBand[b] else [];
          selected := Offer(r, episodes, group, d, k, id, selected, pool);
        } else if DistinctIds(episodes, id) {
          ProgressDone(r, selected, episodes, id, pool, d, [], k);
        }
      }
    }
    assert candidates[..|candidates|] == candidates;
  }
}

/**
 * Matched-control selection of the abnormal-flow study. The replay matches each episode
 * against the whole pool at once; the formal runner and the snapshot pipeline stream the
 * candidates, keeping at most k per episode.
 */
module Controls {
  import opened Sorting
  import opened FlowDecisions
  import opened StreamingTopK

  function Distance(e: Decision, d: Decision): nat {
    if d.decisionAt >= e.decisionAt then d.decisionAt - e.decisionAt
    else e.decisionAt - d.decisionAt
  }

  /** Nearest decision first, ties by symbol. */
  function ControlOrder(e: Decision): (Decision, Decision) -> bool {
    (a, b) => Distance(e, a) < Distance(e, b)
           || (Distance(e, a) == Distance(e, b) && StrLe(a.symbol, b.symbol))
  }

  predicate SameInstant(e: Decision, d: Decision) {
    d.decisionAt == e.decisionAt && d.symbol == e.symbol
  }

  function ControlRule(): Rule<Decision, Band> {
    Rule(BandKey, SameInstant, ControlOrder)
  }

  lemma {:induction false} ControlRuleValid()
    ensures ValidRule(ControlRule())
  {
    forall e: Decision ensures TotalPreorder(ControlOrder(e)) {
      StrLeOrder();
    }
  }

  function MatchControls(e: Decision, pool: seq<Decision>, k: nat): seq<Decision> {
    Batch(ControlRule(), e, pool, k)
  }

  /** Eligible, not firing, decided inside the evaluation window. */
  function IsCandidate(c: Contract, lo: int, hi: int): Decision -> bool {
    (d: Decision) => lo <= d.decisionAt < hi && Eligible(c, d) && !PrimaryFires(c, d)
  }

  /** The streams' cap: an unset number of controls means none. */
  function StreamCap(c: Contract): nat {
    if c.controlsPerEpisode.Some? then c.controlsPerEpisode.value else 0
  }

  /** The batch replay's cap: an unset or zero number of controls means one. */
  function BatchCap(c: Contract): nat {
    if StreamCap(c) == 0 then 1 else StreamCap(c)
  }

  /**
   * The streaming selection, keyed by `id`: the route key in the formal runner, its
   * digest in the snapshot pipeline.
   */
  method SelectControls<K(==,!new)>(c: Contract, episodes: seq<Decision>, candidates: seq<Decision>,
                                    lo: int, hi: int, id: Decision -> K)
    returns (selected: map<K, seq<Decision>>)
    ensures selected.Keys == set e | e in episodes :: id(e)
    ensures DistinctIds(episodes, id) ==> forall e :: e in episodes ==>
      selected[id(e)] == MatchControls(e, Filter(candidates, IsCandidate(c, lo, hi)), StreamCap(c))
  {
    ControlRuleValid();
    selected := Stream(ControlRule(), episodes, candidates, IsCandidate(c, lo, hi), StreamCap(c), id);
  }

  /**
   * The batch replay caps at `BatchCap`, the streams at `StreamCap`. They select the
   * same controls exactly when the contract sets a positive number or the episode has
   * no match at all.
   */
  lemma {:induction false} BatchAndStreamAgree(c: Contract, e: Decision, pool: seq<Decision>)
    ensures MatchControls(e, pool, BatchCap(c)) == MatchControls(e, pool, StreamCap(c))
       <==> (StreamCap(c) > 0 || forall d :: d in pool ==> !Matches(ControlRule(), e)(d))
  {
    if StreamCap(c) == 0 {
      var matched := Filter(pool, Matches(ControlRule(), e));
      if matched != [] {
        assert matched[0] in matched;
        assert |MatchControls(e, pool, 1)| == 1;
      } else {
        forall d | d in pool ensures !Matches(ControlRule(), e)(d) { assert d !in matched; }
      }
    }
  }
}
