/**
 * Greedy one-at-a-time selection: walk rows in time order and keep a row unless the last
 * kept row of its key is less than `gap` before it. The three schedulers of the repository
 * (episodes, hold counts, hold lists) are this walk; here it is proved to keep as many
 * rows as any selection that respects the gap.
 */
module GreedyHolds {
  import opened Wrappers
  import opened Sorting

  datatype Clock<!T, !K> = Clock(key: T -> K, at: T -> int)

  /** When the last kept row of key `k` happened. */
  function LastKept<T, K(==)>(c: Clock<T, K>, kept: seq<T>, k: K): Option<int> {
    if kept == [] then None
    else if c.key(kept[|kept| - 1]) == k then Some(c.at(kept[|kept| - 1]))
    else LastKept(c, kept[..|kept| - 1], k)
  }

  predicate Free<T, K(==)>(c: Clock<T, K>, kept: seq<T>, x: T, gap: int) {
    var last := LastKept(c, kept, c.key(x));
    last.None? || c.at(x) - last.value >= gap
  }

  function Greedy<T, K(==)>(c: Clock<T, K>, s: seq<T>, gap: int): (kept: seq<T>)
    ensures |kept| <= |s|
  {
    if s == [] then []
    else
      var kept := Greedy(c, s[..|s| - 1], gap);
      if Free(c, kept, s[|s| - 1], gap) then kept + [s[|s| - 1]] else kept
  }

  /** One step of the walk. */
  lemma {:induction false} GreedySnoc<T(!new), K(!new)>(c: Clock<T, K>, s: seq<T>, x: T, gap: int)
    ensures Greedy(c, s + [x], gap)
         == var kept := Greedy(c, s, gap); if Free(c, kept, x, gap) then kept + [x] else kept
  {
    assert (s + [x])[..|s|] == s;
  }

  lemma {:induction false} LastKeptSnoc<T(!new), K(!new)>(c: Clock<T, K>, kept: seq<T>, x: T)
    ensures forall k :: LastKept(c, kept + [x], k)
                     == if k == c.key(x) then Some(c.at(x)) else LastKept(c, kept, k)
  {
    assert (kept + [x])[..|kept|] == kept;
  }

  /** `last` is the dictionary the source keeps: key -> time of its last kept row. */
  ghost predicate Tracks<T(!new), K(!new)>(c: Clock<T, K>, kept: seq<T>, last: map<K, int>) {
    forall k :: LastKept(c, kept, k) == if k in last then Some(last[k]) else None
  }

  ghost predicate InTimeOrder<T, K>(c: Clock<T, K>, s: seq<T>) {
    forall i, j :: 0 <= i < j < |s| && c.key(s[i]) == c.key(s[j]) ==> c.at(s[i]) <= c.at(s[j])
  }

  ghost predicate Apart(a: int, b: int, gap: int) {
    a - b >= gap || b - a >= gap
  }

  /** Rows of one key are pairwise at least `gap` apart. */
  ghost predicate Separated<T, K>(c: Clock<T, K>, s: seq<T>, gap: int) {
    forall i, j :: 0 <= i < j < |s| && c.key(s[i]) == c.key(s[j]) ==> Apart(c.at(s[i]), c.at(s[j]), gap)
  }

  /** `y` is close enough at or after `x` for the two to exclude each other. */
  ghost predicate Covers<T, K>(c: Clock<T, K>, x: T, y: T, gap: int) {
    c.key(x) == c.key(y) && c.at(x) <= c.at(y) < c.at(x) + gap
  }

  lemma {:induction false} LastKeptSpec<T(!new), K>(c: Clock<T, K>, kept: seq<T>, k: K)
    ensures LastKept(c, kept, k).None? ==> forall x :: x in kept ==> c.key(x) != k
    ensures LastKept(c, kept, k).Some? ==>
      exists x :: x in kept && c.key(x) == k && c.at(x) == LastKept(c, kept, k).value
    ensures LastKept(c, kept, k).Some? && InTimeOrder(c, kept) ==>
      forall x :: x in kept && c.key(x) == k ==> c.at(x) <= LastKept(c, kept, k).value
  {
    if kept != [] {
      var front, last := kept[..|kept| - 1], kept[|kept| - 1];
      assert kept == front + [last];
      assert last in kept;
      LastKeptSpec(c, front, k);
      if InTimeOrder(c, kept) && c.key(last) == k {
        forall x | x in kept && c.key(x) == k ensures c.at(x) <= c.at(last) {
          var i :| 0 <= i < |kept| && kept[i] == x;
        }
      }
    }
  }

  lemma {:induction false} GreedyMembers<T(!new), K>(c: Clock<T, K>, s: seq<T>, gap: int)
    ensures multiset(Greedy(c, s, gap)) <= multiset(s)
    ensures forall x :: x in Greedy(c, s, gap) ==> x in s
  {
    if s != [] {
      assert s == s[..|s| - 1] + [s[|s| - 1]];
      GreedyMembers(c, s[..|s| - 1], gap);
    }
  }

  lemma {:induction false} GreedySeparated<T(!new), K>(c: Clock<T, K>, s: seq<T>, gap: int)
    requires InTimeOrder(c, s)
    ensures InTimeOrder(c, Greedy(c, s, gap))
    ensures Separated(c, Greedy(c, s, gap), gap)
  {
    if s != [] {
      var front, x := s[..|s| - 1], s[|s| - 1];
      GreedySeparated(c, front, gap);
      GreedyMembers(c, front, gap);
      var kept := Greedy(c, front, gap);
      LastKeptSpec(c, kept, c.key(x));
      forall i | 0 <= i < |kept| && c.key(kept[i]) == c.key(x)
        ensures c.at(kept[i]) <= c.at(x)
        ensures Free(c, kept, x, gap) ==> Apart(c.at(kept[i]), c.at(x), gap)
      {
        assert kept[i] in kept && kept[i] in front;
        var j :| 0 <= j < |front| && front[j] == kept[i];
        assert c.key(s[j]) == c.key(s[|s| - 1]);
      }
    }
  }

  /** Every row of the input is excluded by, or is, some kept row. */
  lemma {:induction false} GreedyCovers<T(!new), K>(c: Clock<T, K>, s: seq<T>, gap: int, y: T)
    requires InTimeOrder(c, s) && gap > 0 && y in s
    ensures exists x :: x in Greedy(c, s, gap) && Covers(c, x, y, gap)
  {
    var front, last := s[..|s| - 1], s[|s| - 1];
    assert s == front + [last];
    var kept := Greedy(c, front, gap);
    if y in front {
      GreedyCovers(c, front, gap, y);
      var x :| x in kept && Covers(c, x, y, gap);
      assert x in Greedy(c, s, gap);
    } else if Free(c, kept, last, gap) {
      assert y in Greedy(c, s, gap) && Covers(c, y, y, gap);
    } else {
      LastKeptSpec(c, kept, c.key(last));
      var x :| x in kept && c.key(x) == c.key(last) && c.at(x) == LastKept(c, kept, c.key(last)).value;
      GreedyMembers(c, front, gap);
      var i :| 0 <= i < |front| && front[i] == x;
      assert c.key(s[i]) == c.key(s[|s| - 1]);
      assert Covers(c, x, y, gap);
    }
  }

  /** A list of distinct indices below n has at most n entries. */
  lemma {:induction false} Pigeonhole(f: seq<nat>, n: nat)
    requires forall p :: 0 <= p < |f| ==> f[p] < n
    requires forall p, q :: 0 <= p < q < |f| ==> f[p] != f[q]
    ensures |f| <= n
  {
    if f != [] {
      if n - 1 in f {
        var p :| 0 <= p < |f| && f[p] == n - 1;
        var g := f[..p] + f[p + 1..];
        assert forall q :: 0 <= q < |g| ==> g[q] == if q < p then f[q] else f[q + 1];
        Pigeonhole(g, n - 1);
      } else {
        Pigeonhole(f, n - 1);
      }
    }
  }

  /** The kept row charged for `y`. */
  ghost function Charge<T(!new), K>(c: Clock<T, K>, kept: seq<T>, y: T, gap: int): (j: nat)
    requires exists x :: x in kept && Covers(c, x, y, gap)
    ensures j < |kept| && Covers(c, kept[j], y, gap)
  {
    var x :| x in kept && Covers(c, x, y, gap);
    var j :| 0 <= j < |kept| && kept[j] == x;
    j
  }

  /** Charging argument: with a positive gap no separated choice of rows beats greedy. */
  lemma {:induction false} GreedyOptimalMembers<T(!new), K>(c: Clock<T, K>, s: seq<T>, gap: int, sel: seq<T>)
    requires InTimeOrder(c, s) && gap > 0
    requires forall y :: y in sel ==> y in s
    requires Separated(c, sel, gap)
    ensures |sel| <= |Greedy(c, s, gap)|
  {
    var kept := Greedy(c, s, gap);
    forall p | 0 <= p < |sel| ensures exists x :: x in kept && Covers(c, x, sel[p], gap) {
      assert sel[p] in sel;
      GreedyCovers(c, s, gap, sel[p]);
    }
    var f := seq(|sel|, p requires 0 <= p < |sel| => Charge(c, kept, sel[p], gap));
    forall p, q | 0 <= p < q < |f| ensures f[p] != f[q] {
      assert Covers(c, kept[f[p]], sel[p], gap) && Covers(c, kept[f[q]], sel[q], gap);
    }
    Pigeonhole(f, |kept|);
  }

  /** In time order, the last kept row of a key is not later than the next row of that key. */
  lemma {:induction false} LastKeptBefore<T(!new), K>(c: Clock<T, K>, front: seq<T>, x: T, s: seq<T>)
    requires InTimeOrder(c, s) && s == front + [x]
    ensures LastKept(c, front, c.key(x)).Some? ==> LastKept(c, front, c.key(x)).value <= c.at(x)
  {
    LastKeptSpec(c, front, c.key(x));
    if LastKept(c, front, c.key(x)).Some? {
      var y :| y in front && c.key(y) == c.key(x) && c.at(y) == LastKept(c, front, c.key(x)).value;
      var i :| 0 <= i < |front| && front[i] == y;
      assert s[i] == y && s[|front|] == x;
    }
  }

  /** Without a positive gap nothing is ever dropped. */
  lemma {:induction false} GreedyKeepsAll<T(!new), K>(c: Clock<T, K>, s: seq<T>, gap: int)
    requires InTimeOrder(c, s) && gap <= 0
    ensures Greedy(c, s, gap) == s
  {
    if s != [] {
      var front, x := s[..|s| - 1], s[|s| - 1];
      GreedyKeepsAll(c, front, gap);
      LastKeptBefore(c, front, x, s);
    }
  }

  /** Greedy is optimal: for every gap and every separated selection of the input rows. */
  lemma {:induction false} GreedyOptimal<T(!new), K>(c: Clock<T, K>, s: seq<T>, gap: int, sel: seq<T>)
    requires InTimeOrder(c, s)
    requires multiset(sel) <= multiset(s) && Separated(c, sel, gap)
    ensures |sel| <= |Greedy(c, s, gap)|
  {
    if gap > 0 {
      forall y | y in sel ensures y in s { assert y in multiset(sel); }
      GreedyOptimalMembers(c, s, gap, sel);
    } else {
      GreedyKeepsAll(c, s, gap);
      assert |multiset(sel)| <= |multiset(s)| by { SubmultisetSize(multiset(sel), multiset(s)); }
    }
  }

  lemma {:induction false} SubmultisetSize<T>(a: multiset<T>, b: multiset<T>)
    requires a <= b
    ensures |a| <= |b|
  {
    assert b == a + (b - a);
  }

  /** The walk with the dictionary the source keeps. */
  method Walk<T(!new), K(==,!new)>(c: Clock<T, K>, ordered: seq<T>, gap: int) returns (kept: seq<T>)
    ensures kept == Greedy(c, ordered, gap)
  {
    kept := [];
    var last: map<K, int> := map[];
    for i := 0 to |ordered|
      invariant kept == Greedy(c, ordered[..i], gap)
      invariant Tracks(c, kept, last)
    {
      var x := ordered[i];
      assert ordered[..i + 1] == ordered[..i] + [x];
      GreedySnoc(c, ordered[..i], x, gap);
      if c.key(x) in last && c.at(x) - last[c.key(x)] < gap {
        continue;
      }
      LastKeptSnoc(c, kept, x);
      kept := kept + [x];
      last := last[c.key(x) := c.at(x)];
    }
    assert ordered[..|ordered|] == ordered;
  }
}
