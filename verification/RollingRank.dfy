/**
 * Mid-rank percentile of a value against the previous hourly values: an incremental
 * window (a queue plus a sorted list) against the recomputation from scratch.
 */
module RollingRank {
  import opened Wrappers
  import opened Sorting

  const RANK_HOURS: nat := 336
  const RANK_MIN_DEFINED: nat := 269  // ceil(0.8 * RANK_HOURS)

  predicate RealLe(a: real, b: real) { a <= b }

  predicate Ascending(s: seq<real>) { forall i, j :: 0 <= i < j < |s| ==> s[i] <= s[j] }

  /** Number of leading elements below `v`. */
  function BisectLeft(s: seq<real>, v: real): (k: nat)
    requires Ascending(s)
    ensures k <= |s|
    ensures forall i :: 0 <= i < k ==> s[i] < v
    ensures forall i :: k <= i < |s| ==> s[i] >= v
  {
    if s == [] || s[0] >= v then 0 else BisectLeft(s[1..], v) + 1
  }

  /** Number of leading elements not above `v`. */
  function BisectRight(s: seq<real>, v: real): (k: nat)
    requires Ascending(s)
    ensures k <= |s|
    ensures forall i :: 0 <= i < k ==> s[i] <= v
    ensures forall i :: k <= i < |s| ==> s[i] > v
  {
    if s == [] || s[0] > v then 0 else BisectRight(s[1..], v) + 1
  }

  function Defined(window: seq<Option<real>>): (r: seq<real>)
    ensures |r| <= |window|
  {
    if window == [] then []
    else Defined(window[..|window| - 1])
         + if window[|window| - 1].Some? then [window[|window| - 1].value] else []
  }

  function SortReals(s: seq<real>): (r: seq<real>)
    ensures Ascending(r) && multiset(r) == multiset(s) && |r| == |s|
  {
    StableSortSorted(s, RealLe);
    var r := StableSort(s, RealLe);
    assert forall i, j :: 0 <= i < j < |r| ==> RealLe(r[i], r[j]);
    r
  }

  /** Half of the ties count as below. */
  function MidFraction(below: nat, upTo: nat, n: nat): real
    requires n > 0
  {
    (below as real + (upTo - below) as real / 2.0) / n as real
  }

  /** Mid-rank recomputed from scratch over a history. */
  function MidRank(v: real, history: seq<real>): real
    requires history != []
  {
    var ordered := SortReals(history);
    MidFraction(BisectLeft(ordered, v), BisectRight(ordered, v), |ordered|)
  }

  lemma {:induction false} RestOf(s: seq<real>)
    requires s != []
    ensures multiset(s[1..]) == multiset(s) - multiset{s[0]}
  {
    assert s == [s[0]] + s[1..];
  }

  /** The least element comes first. */
  lemma {:induction false} LeastFirst(s: seq<real>, x: real)
    requires Ascending(s) && x in multiset(s)
    ensures s != [] && s[0] <= x
  {
    var i :| 0 <= i < |s| && s[i] == x;
  }

  lemma {:induction false} SameHead(a: seq<real>, b: seq<real>)
    requires Ascending(a) && Ascending(b) && multiset(a) == multiset(b) && a != []
    ensures b != [] && a[0] == b[0] && multiset(a[1..]) == multiset(b[1..])
  {
    assert a[0] in multiset(a);
    LeastFirst(b, a[0]);
    assert b[0] in multiset(b);
    LeastFirst(a, b[0]);
    RestOf(a);
    RestOf(b);
  }

  lemma {:induction false} SameSize(a: seq<real>, b: seq<real>)
    requires multiset(a) == multiset(b)
    ensures |a| == |b|
  {
    assert |a| == |multiset(a)| && |b| == |multiset(b)|;
  }

  lemma {:induction false} AscendingUnique(a: seq<real>, b: seq<real>)
    requires Ascending(a) && Ascending(b) && multiset(a) == multiset(b)
    ensures a == b
  {
    SameSize(a, b);
    if a != [] {
      SameHead(a, b);
      AscendingUnique(a[1..], b[1..]);
    }
  }

  lemma {:induction false} DefinedAppend(a: seq<Option<real>>, b: seq<Option<real>>)
    ensures Defined(a + b) == Defined(a) + Defined(b)
  {
    if b == [] {
      assert a + b == a;
    } else {
      var front := b[..|b| - 1];
      DefinedAppend(a, front);
      assert (a + b)[..|a + b| - 1] == a + front;
    }
  }

  function Singleton(v: Option<real>): seq<real> {
    if v.Some? then [v.value] else []
  }

  lemma {:induction false} DefinedOne(v: Option<real>)
    ensures Defined([v]) == Singleton(v)
  {
    assert [v][..0] == [];
  }

  lemma {:induction false} DefinedPush(window: seq<Option<real>>, v: Option<real>)
    ensures multiset(Defined(window + [v])) == multiset(Defined(window)) + multiset(Singleton(v))
  {
    DefinedAppend(window, [v]);
    DefinedOne(v);
  }

  lemma {:induction false} DefinedPop(window: seq<Option<real>>)
    requires window != []
    ensures multiset(Defined(window[1..])) == multiset(Defined(window)) - multiset(Singleton(window[0]))
    ensures window[0].Some? ==> window[0].value in multiset(Defined(window))
  {
    assert window == [window[0]] + window[1..];
    DefinedAppend([window[0]], window[1..]);
    DefinedOne(window[0]);
    assert multiset(Defined(window)) == multiset(Singleton(window[0])) + multiset(Defined(window[1..]));
  }

  /** bisect.insort: the list stays sorted and gains exactly one copy of `v`. */
  function Insort(s: seq<real>, v: real): (r: seq<real>)
    requires Ascending(s)
    ensures Ascending(r) && multiset(r) == multiset(s) + multiset{v}
  {
    var at := BisectRight(s, v);
    assert s == s[..at] + s[at..];
    s[..at] + [v] + s[at..]
  }

  /** Deleting at bisect_left: the list stays sorted and loses exactly one copy of `v`. */
  function Evict(s: seq<real>, v: real): (r: seq<real>)
    requires Ascending(s) && v in s
    ensures Ascending(r) && multiset(r) == multiset(s) - multiset{v}
  {
    var at := BisectLeft(s, v);
    assert s == s[..at] + [s[at]] + s[at + 1..];
    s[..at] + s[at + 1..]
  }

  class RollingRank {
    var window: seq<Option<real>>
    var ordered: seq<real>
    ghost var pushed: seq<Option<real>>

    /** The queue is the last RANK_HOURS pushes; the list is its defined values, sorted. */
    ghost predicate Valid()
      reads this
    {
      && window == LastN(pushed, RANK_HOURS)
      && Ascending(ordered) && multiset(ordered) == multiset(Defined(window))
    }

    constructor ()
      ensures Valid() && pushed == []
    {
      window, ordered, pushed := [], [], [];
    }

    method Push(value: Option<real>)
      requires Valid()
      modifies this
      ensures Valid()
      ensures pushed == old(pushed) + [value]
    {
      LastNPush(pushed, value, RANK_HOURS);
      pushed := pushed + [value];
      DefinedPush(window, value);
      window := window + [value];
      if value.Some? {
        ordered := Insort(ordered, value.value);
      }
      assert Ascending(ordered) && multiset(ordered) == multiset(Defined(window));
      if |window| > RANK_HOURS {
        var oldest := window[0];
        DefinedPop(window);
        window := window[1..];
        if oldest.Some? {
          assert oldest.value in multiset(ordered);
          ordered := Evict(ordered, oldest.value);
        }
      }
    }

    /** The incremental rank is the recomputed one, and undefined exactly when history is short. */
    method Rank(value: real) returns (r: Option<real>)
      requires Valid()
      ensures var history := Defined(LastN(pushed, RANK_HOURS));
        r == if |history| < RANK_MIN_DEFINED then None else Some(MidRank(value, history))
    {
      AscendingUnique(ordered, SortReals(Defined(window)));
      if |ordered| < RANK_MIN_DEFINED { return None; }
      r := Some(MidFraction(BisectLeft(ordered, value), BisectRight(ordered, value), |ordered|));
    }
  }

  // ---- what a mid-rank means ----------------------------------------------------------

  function Below(v: real): real -> bool { x => x < v }
  function NotAbove(v: real): real -> bool { x => x <= v }

  lemma {:induction false} BisectCounts(s: seq<real>, v: real)
    requires Ascending(s)
    ensures BisectLeft(s, v) == |Filter(s, Below(v))|
    ensures BisectRight(s, v) == |Filter(s, NotAbove(v))|
  {
    if s != [] {
      BisectCounts(s[1..], v);
      FilterCons(s, Below(v));
      FilterCons(s, NotAbove(v));
      if s[0] >= v { assert forall x :: x in s[1..] ==> !Below(v)(x); FilterNone(s[1..], Below(v)); }
      if s[0] > v { assert forall x :: x in s[1..] ==> !NotAbove(v)(x); FilterNone(s[1..], NotAbove(v)); }
    }
  }

  /** A mid-rank counts the history itself: below `v`, and below plus equal. */
  lemma {:induction false} MidRankCounts(v: real, history: seq<real>)
    requires history != []
    ensures MidRank(v, history)
         == MidFraction(|Filter(history, Below(v))|, |Filter(history, NotAbove(v))|, |history|)
  {
    BisectCounts(SortReals(history), v);
    FilterStableSort(history, Below(v), RealLe);
    FilterStableSort(history, NotAbove(v), RealLe);
  }

  lemma {:induction false} ScaledStrictly(a: real, b: real, m: real)
    requires a < b && m > 0.0
    ensures a * m < b * m
  {
  }

  lemma {:induction false} QuotientMonotone(a: real, b: real, m: real)
    requires a <= b && m > 0.0
    ensures a / m <= b / m
  {
    var q, r := a / m, b / m;
    assert q * m == a && r * m == b;
    if q > r { ScaledStrictly(r, q, m); }
  }

  lemma {:induction false} QuotientWithin(a: real, m: real)
    requires 0.0 <= a <= m && m > 0.0
    ensures 0.0 <= a / m <= 1.0
  {
    var q := a / m;
    assert q * m == a;
    if q < 0.0 { ScaledStrictly(q, 0.0, m); }
    if q > 1.0 { ScaledStrictly(1.0, q, m); }
  }

  lemma {:induction false} MidFractionMonotone(b1: nat, u1: nat, b2: nat, u2: nat, n: nat)
    requires n > 0 && b1 <= b2 && u1 <= u2 && b2 <= n && u2 <= n
    ensures 0.0 <= MidFraction(b1, u1, n) <= MidFraction(b2, u2, n) <= 1.0
  {
    var x, y := b1 as real + (u1 - b1) as real / 2.0, b2 as real + (u2 - b2) as real / 2.0;
    QuotientWithin(x, n as real);
    QuotientWithin(y, n as real);
    QuotientMonotone(x, y, n as real);
  }

  /** Ranks lie in [0, 1] and do not fall as the value rises. */
  lemma {:induction false} MidRankMonotone(v: real, w: real, history: seq<real>)
    requires history != [] && v <= w
    ensures 0.0 <= MidRank(v, history) <= MidRank(w, history) <= 1.0
  {
    MidRankCounts(v, history);
    MidRankCounts(w, history);
    FilterGrows(history, Below(v), Below(w));
    FilterGrows(history, NotAbove(v), NotAbove(w));
    MidFractionMonotone(|Filter(history, Below(v))|, |Filter(history, NotAbove(v))|,
                        |Filter(history, Below(w))|, |Filter(history, NotAbove(w))|, |history|);
  }
}
