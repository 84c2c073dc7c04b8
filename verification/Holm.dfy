/** Holm step-down over exact p-values. */
module Holm {
  import opened Sorting

  datatype PValue = PValue(key: string, p: real)

  datatype HolmDecision = HolmDecision(key: string, rank: nat, raw: real, adjusted: real,
                                       criticalAlpha: real, rejected: bool)

  datatype Result = Decisions(ds: seq<HolmDecision>) | Invalid(reason: string)

  predicate PLe(a: PValue, b: PValue) {
    a.p < b.p || (a.p == b.p && StrLe(a.key, b.key))
  }

  predicate KeyLe(a: HolmDecision, b: HolmDecision) {
    StrLe(a.key, b.key)
  }

  lemma {:induction false} OrdersTotal()
    ensures TotalPreorder(PLe) && TotalPreorder(KeyLe)
  {
    StrLeOrder();
  }

  /** The characters that stripping removes: Unicode white space. */
  predicate IsSpace(c: char) {
    var n := c as int;
    || 0x09 <= n <= 0x0D || 0x1C <= n <= 0x20 || n == 0x85 || n == 0xA0 || n == 0x1680
    || 0x2000 <= n <= 0x200A || n == 0x2028 || n == 0x2029 || n == 0x202F || n == 0x205F || n == 0x3000
  }

  predicate IsBlank(s: string) { forall i :: 0 <= i < |s| ==> IsSpace(s[i]) }

  predicate ValidInput(ps: seq<PValue>, alpha: real) {
    && ps != [] && 0.0 < alpha < 1.0
    && forall i :: 0 <= i < |ps| ==> !IsBlank(ps[i].key) && 0.0 <= ps[i].p <= 1.0
  }

  function Max(a: real, b: real): real { if a >= b then a else b }
  function Min(a: real, b: real): real { if a <= b then a else b }

  function Ordered(ps: seq<PValue>): (r: seq<PValue>)
    ensures |r| == |ps|
  {
    StableSort(ps, PLe)
  }

  /** The critical level of the test at each position. */
  function Critical(ordered: seq<PValue>, alpha: real): nat -> real {
    (i: nat) => if i < |ordered| then alpha / (|ordered| - i) as real else alpha
  }

  /** Each p-value times the number of tests not yet decided when its turn comes. */
  function Inflated(ordered: seq<PValue>): nat -> real {
    (i: nat) => if i < |ordered| then (|ordered| - i) as real * ordered[i].p else 0.0
  }

  function PAt(ordered: seq<PValue>): nat -> real {
    (i: nat) => if i < |ordered| then ordered[i].p else 0.0
  }

  /** The first n tests all meet their levels. */
  ghost predicate AllMeet(p: nat -> real, critical: nat -> real, n: nat) {
    forall j :: 0 <= j < n ==> p(j) <= critical(j)
  }

  /** v is the largest of 0 and the first n values. */
  ghost predicate IsRunningMax(values: nat -> real, n: nat, v: real) {
    && v >= 0.0
    && (forall j :: 0 <= j < n ==> values(j) <= v)
    && (v == 0.0 || exists j :: 0 <= j < n && values(j) == v)
  }

  /** What the procedure must output for the test at position i. */
  ghost predicate Decided(d: HolmDecision, key: string, i: nat,
                          p: nat -> real, inflated: nat -> real, critical: nat -> real) {
    && d.key == key && d.raw == p(i) && d.rank == i + 1
    && d.criticalAlpha == critical(i)
    && (d.rejected <==> AllMeet(p, critical, i + 1))
    && exists v :: IsRunningMax(inflated, i + 1, v) && d.adjusted == Min(1.0, v)
  }

  ghost predicate IsDecision(d: HolmDecision, ordered: seq<PValue>, alpha: real, i: nat) {
    && i < |ordered|
    && Decided(d, ordered[i].key, i, PAt(ordered), Inflated(ordered), Critical(ordered, alpha))
  }

  lemma {:induction false} Scaled(p: real, alpha: real, n: real)
    requires n > 0.0
    ensures p <= alpha / n <==> n * p <= alpha
  {
    var q := alpha / n;
    assert n * q == alpha;
    if p <= q { Monotone(n, p, q); } else { StrictlyMonotone(n, q, p); }
  }

  lemma {:induction false} Monotone(n: real, a: real, b: real)
    requires n > 0.0 && a <= b
    ensures n * a <= n * b
  {
  }

  lemma {:induction false} StrictlyMonotone(n: real, a: real, b: real)
    requires n > 0.0 && a < b
    ensures n * a < n * b
  {
  }

  lemma {:induction false} RunningMaxStep(values: nat -> real, n: nat, v: real)
    requires IsRunningMax(values, n, v)
    ensures IsRunningMax(values, n + 1, Max(v, values(n)))
  {
    if Max(v, values(n)) == v && v != 0.0 {
      var j :| 0 <= j < n && values(j) == v;
    }
  }

  /** The pass in p-value order. */
  method StepDown(ordered: seq<PValue>, p: nat -> real, inflated: nat -> real, critical: nat -> real)
    returns (ds: seq<HolmDecision>)
    ensures |ds| == |ordered|
    ensures forall i :: 0 <= i < |ds| ==> Decided(ds[i], ordered[i].key, i, p, inflated, critical)
  {
    var running, continueRejecting := 0.0, true;
    ds := [];
    for i := 0 to |ordered|
      invariant |ds| == i
      invariant IsRunningMax(inflated, i, running)
      invariant continueRejecting <==> AllMeet(p, critical, i)
      invariant forall j :: 0 <= j < i ==> Decided(ds[j], ordered[j].key, j, p, inflated, critical)
    {
      RunningMaxStep(inflated, i, running);
      running := Max(running, inflated(i));
      var rejected := continueRejecting && p(i) <= critical(i);
      if !rejected { continueRejecting := false; }
      var d := HolmDecision(ordered[i].key, i + 1, p(i), Min(1.0, running), critical(i), rejected);
      assert Decided(d, ordered[i].key, i, p, inflated, critical);
      ds := ds + [d];
    }
  }

  /** Validation, the pass in p-value order, then the report in key order. */
  method HolmStepDown(ps: seq<PValue>, alpha: real) returns (r: Result)
    ensures r.Decisions? <==> ValidInput(ps, alpha)
    ensures r.Decisions? ==> exists byRank: seq<HolmDecision> ::
      && |byRank| == |ps|
      && (forall i :: 0 <= i < |ps| ==> IsDecision(byRank[i], Ordered(ps), alpha, i))
      && r.ds == StableSort(byRank, KeyLe)
  {
    if ps == [] { return Invalid("Holm correction requires at least one comparison"); }
    if !(0.0 < alpha < 1.0) { return Invalid("family alpha must be between zero and one"); }
    for i := 0 to |ps|
      invariant forall j :: 0 <= j < i ==> !IsBlank(ps[j].key) && 0.0 <= ps[j].p <= 1.0
    {
      if IsBlank(ps[i].key) { return Invalid("comparison key must not be empty"); }
      if !(0.0 <= ps[i].p <= 1.0) { return Invalid("p-values must be finite and between zero and one"); }
    }
    var ordered := Ordered(ps);
    var ds := StepDown(ordered, PAt(ordered), Inflated(ordered), Critical(ordered, alpha));
    assert forall i :: 0 <= i < |ps| ==> IsDecision(ds[i], ordered, alpha, i);
    r := Decisions(StableSort(ds, KeyLe));
  }

  lemma {:induction false} InflatedIffCritical(ordered: seq<PValue>, alpha: real, j: nat)
    requires j < |ordered|
    ensures PAt(ordered)(j) <= Critical(ordered, alpha)(j) <==> Inflated(ordered)(j) <= alpha
  {
    Scaled(ordered[j].p, alpha, (|ordered| - j) as real);
  }

  /** Meeting every level so far is the running maximum staying within alpha. */
  lemma {:induction false} MeetIffMax(p: nat -> real, inflated: nat -> real, critical: nat -> real, alpha: real, n: nat,
        v: real)
    requires alpha > 0.0 && IsRunningMax(inflated, n, v)
    requires forall j :: 0 <= j < n ==> (p(j) <= critical(j) <==> inflated(j) <= alpha)
    ensures AllMeet(p, critical, n) <==> v <= alpha
  {
    if AllMeet(p, critical, n) && v != 0.0 {
      var j :| 0 <= j < n && inflated(j) == v;
      assert p(j) <= critical(j);
    }
  }

  /** Rejected exactly when the adjusted p-value is at most alpha. */
  lemma {:induction false} RejectedIffAdjusted(d: HolmDecision, ordered: seq<PValue>, alpha: real, i: nat)
    requires 0.0 < alpha < 1.0 && IsDecision(d, ordered, alpha, i)
    ensures d.rejected <==> d.adjusted <= alpha
  {
    var p, inflated, critical := PAt(ordered), Inflated(ordered), Critical(ordered, alpha);
    var v :| IsRunningMax(inflated, i + 1, v) && d.adjusted == Min(1.0, v);
    forall j | 0 <= j < i + 1 ensures p(j) <= critical(j) <==> inflated(j) <= alpha {
      InflatedIffCritical(ordered, alpha, j);
    }
    MeetIffMax(p, inflated, critical, alpha, i + 1, v);
  }

  lemma {:induction false} RunningMaxGrows(values: nat -> real, n: nat, m: nat, v: real, w: real)
    requires n <= m && IsRunningMax(values, n, v) && IsRunningMax(values, m, w)
    ensures v <= w
  {
    if v != 0.0 {
      var k :| 0 <= k < n && values(k) == v;
      assert values(k) <= w;
    }
  }

  /** Later ranks: adjusted values do not fall, and rejections form a prefix. */
  lemma {:induction false} DecisionsMonotone(a: HolmDecision, b: HolmDecision, ordered: seq<PValue>, alpha: real,
        i: nat, j: nat)
    requires i <= j && IsDecision(a, ordered, alpha, i) && IsDecision(b, ordered, alpha, j)
    ensures a.adjusted <= b.adjusted <= 1.0
    ensures b.rejected ==> a.rejected
  {
    var v :| IsRunningMax(Inflated(ordered), i + 1, v) && a.adjusted == Min(1.0, v);
    var w :| IsRunningMax(Inflated(ordered), j + 1, w) && b.adjusted == Min(1.0, w);
    RunningMaxGrows(Inflated(ordered), i + 1, j + 1, v, w);
  }

  lemma {:induction false} PositionsAtLeast(positions: set<nat>, lo: nat, m: nat)
    requires lo <= m
    requires forall i :: i in positions ==> lo <= i < m
    ensures |positions| <= m - lo
  {
    if positions != {} {
      if m - 1 in positions {
        PositionsAtLeast(positions - {m - 1}, lo, m - 1);
      } else {
        var i :| i in positions;
        PositionsAtLeast(positions, lo, m - 1);
      }
    }
  }

  lemma {:induction false} LeastPosition(positions: set<nat>, bound: nat) returns (f: nat)
    requires bound in positions
    ensures f in positions && forall i :: i in positions ==> f <= i
    decreases bound
  {
    if i :| i in positions && i < bound {
      f := LeastPosition(positions, i);
    } else {
      f := bound;
    }
  }

  /**
   * The deterministic core of family-wise error control: take any family of comparisons
   * (positions in the ordered list). If one of them is rejected, then one of them has
   * p <= alpha / (size of the family).
   */
  lemma {:induction false} FamilyWise(ordered: seq<PValue>, alpha: real, family: set<nat>, hit: nat, d: HolmDecision)
    requires 0.0 < alpha < 1.0 && hit in family && forall i :: i in family ==> i < |ordered|
    requires IsDecision(d, ordered, alpha, hit) && d.rejected
    ensures exists i :: i in family && ordered[i].p <= alpha / |family| as real
  {
    var first := LeastPosition(family, hit);
    PositionsAtLeast(family, first, |ordered|);
    assert PAt(ordered)(first) <= Critical(ordered, alpha)(first);
    LargerDivisor(alpha, |family| as real, (|ordered| - first) as real);
  }

  lemma {:induction false} LargerDivisor(alpha: real, n: real, m: real)
    requires alpha > 0.0 && 0.0 < n <= m
    ensures alpha / m <= alpha / n
  {
    Scaled(alpha / m, alpha, n);
    var q := alpha / m;
    assert m * q == alpha && q > 0.0;
    Monotone(q, n, m);
  }

  lemma {:induction false} OrderedByP(ps: seq<PValue>)
    ensures forall i, j :: 0 <= i < j < |ps| ==> Ordered(ps)[i].p <= Ordered(ps)[j].p
  {
    OrdersTotal();
    StableSortSorted(ps, PLe);
  }

  /** Whatever has a p-value no larger than a rejected one is rejected, ties included. */
  lemma {:induction false} RejectionMonotoneInP(ps: seq<PValue>, alpha: real, a: HolmDecision, b: HolmDecision, i: nat,
        j: nat)
    requires 0.0 < alpha < 1.0
    requires IsDecision(a, Ordered(ps), alpha, i) && IsDecision(b, Ordered(ps), alpha, j)
    requires b.rejected && a.raw <= b.raw
    ensures a.rejected
  {
    var ordered := Ordered(ps);
    OrderedByP(ps);
    var p, critical := PAt(ordered), Critical(ordered, alpha);
    forall k | 0 <= k < i + 1 ensures p(k) <= critical(k) {
      if k <= j {
        assert AllMeet(p, critical, j + 1);
      } else {
        assert p(k) <= p(i) <= p(j) <= critical(j);
        LargerDivisor(alpha, (|ordered| - k) as real, (|ordered| - j) as real);
      }
    }
  }

  lemma {:induction false} ImageSize(keys: set<string>, positions: set<nat>, ordered: seq<PValue>)
    requires forall k :: k in keys ==> exists i :: i in positions && i < |ordered| && ordered[i].key == k
    ensures |keys| <= |positions|
  {
    if keys != {} {
      var k :| k in keys;
      var i :| i in positions && i < |ordered| && ordered[i].key == k;
      forall x | x in keys - {k} ensures exists n :: n in positions - {i} && n < |ordered| && ordered[n].key == x {
        var n :| n in positions && n < |ordered| && ordered[n].key == x;
        assert n in positions - {i};
      }
      ImageSize(keys - {k}, positions - {i}, ordered);
    }
  }

  /** Family-wise control in terms of keys and the reported decisions. */
  lemma {:induction false} FamilyWiseByKey(ps: seq<PValue>, alpha: real, byRank: seq<HolmDecision>, keys: set<string>,
        d: HolmDecision)
    requires 0.0 < alpha < 1.0 && |byRank| == |ps|
    requires forall i :: 0 <= i < |ps| ==> IsDecision(byRank[i], Ordered(ps), alpha, i)
    requires forall k :: k in keys ==> exists x :: x in ps && x.key == k
    requires d in byRank && d.key in keys && d.rejected
    ensures exists x :: x in ps && x.key in keys && x.p <= alpha / |keys| as real
  {
    var ordered := Ordered(ps);
    SameMembers(ordered, ps);
    var positions := set i: nat | 0 <= i < |ordered| && ordered[i].key in keys;
    forall k | k in keys ensures exists i :: i in positions && i < |ordered| && ordered[i].key == k {
      var x :| x in ps && x.key == k;
      var i :| 0 <= i < |ordered| && ordered[i] == x;
      assert i in positions;
    }
    ImageSize(keys, positions, ordered);
    var hit :| 0 <= hit < |byRank| && byRank[hit] == d;
    FamilyWise(ordered, alpha, positions, hit, d);
    var i :| i in positions && ordered[i].p <= alpha / |positions| as real;
    LargerDivisor(alpha, |keys| as real, |positions| as real);
    assert ordered[i] in ps;
  }
}
