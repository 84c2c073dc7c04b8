/** Option values shared by every module. */
module Wrappers {
  datatype Option<+T> = None | Some(value: T)
}

/**
 * Python's `sorted` / `list.sort`: a stable sort, here by a total preorder `le`.
 * `StableSort` is characterised completely by `StableSortSpec` (sorted, a permutation,
 * stable) and `StableSortUnique` (nothing else has those three properties).
 */
module Sorting {

  ghost predicate TotalPreorder<T(!new)>(le: (T, T) -> bool) {
    && (forall a, b :: le(a, b) || le(b, a))
    && (forall a, b, c :: le(a, b) && le(b, c) ==> le(a, c))
  }

  ghost predicate Sorted<T>(s: seq<T>, le: (T, T) -> bool) {
    forall i, j :: 0 <= i < j < |s| ==> le(s[i], s[j])
  }

  /** `x` placed after every leading element that is not greater than it. */
  function Insert<T>(s: seq<T>, x: T, le: (T, T) -> bool): (r: seq<T>)
    ensures |r| == |s| + 1
    ensures multiset(r) == multiset(s) + multiset{x}
  {
    if s == [] then [x]
    else if le(s[0], x) then
      assert s == [s[0]] + s[1..];
      [s[0]] + Insert(s[1..], x, le)
    else [x] + s
  }

  function StableSort<T>(s: seq<T>, le: (T, T) -> bool): (r: seq<T>)
    ensures |r| == |s|
    ensures multiset(r) == multiset(s)
  {
    if s == [] then []
    else
      assert s == s[..|s| - 1] + [s[|s| - 1]];
      Insert(StableSort(s[..|s| - 1], le), s[|s| - 1], le)
  }

  function Take<T>(s: seq<T>, k: nat): (r: seq<T>)
    ensures |r| <= k && r <= s
  {
    if |s| <= k then s else s[..k]
  }

  /** The last `n` entries. */
  function LastN<T>(s: seq<T>, n: nat): seq<T> {
    if |s| <= n then s else s[|s| - n..]
  }

  lemma {:induction false} LastNPush<T>(s: seq<T>, v: T, n: nat)
    ensures LastN(s + [v], n)
         == if |LastN(s, n)| + 1 > n then (LastN(s, n) + [v])[1..] else LastN(s, n) + [v]
  {
  }

  /** Trimming before an append does not change the trimmed result. */
  lemma {:induction false} LastNAppend<T>(a: seq<T>, b: seq<T>, n: nat)
    ensures LastN(LastN(a, n) + b, n) == LastN(a + b, n)
  {
  }

  function Filter<T(!new)>(s: seq<T>, p: T -> bool): (r: seq<T>)
    ensures |r| <= |s|
    ensures forall x {:trigger x in r} :: x in r <==> x in s && p(x)
  {
    if s == [] then []
    else
      var rest := Filter(s[..|s| - 1], p);
      assert s == s[..|s| - 1] + [s[|s| - 1]];
      if p(s[|s| - 1]) then rest + [s[|s| - 1]] else rest
  }

  /** Members of `s` that compare equal to `x`. */
  function SameRank<T>(x: T, le: (T, T) -> bool): T -> bool {
    y => le(x, y) && le(y, x)
  }

  lemma {:induction false} SameMembers<T(!new)>(s: seq<T>, r: seq<T>)
    requires multiset(s) == multiset(r)
    ensures forall x :: x in s <==> x in r
  {
    forall x ensures x in s <==> x in r {
      assert x in s <==> x in multiset(s);
      assert x in r <==> x in multiset(r);
    }
  }

  lemma {:induction false} InsertSorted<T(!new)>(s: seq<T>, x: T, le: (T, T) -> bool)
    requires TotalPreorder(le) && Sorted(s, le)
    ensures Sorted(Insert(s, x, le), le)
  {
    if s != [] && le(s[0], x) {
      InsertSorted(s[1..], x, le);
      var rest := Insert(s[1..], x, le);
      assert s == [s[0]] + s[1..];
      SameMembers(rest, s[1..] + [x]);
      forall j | 0 <= j < |rest| ensures le(s[0], rest[j]) {
        assert rest[j] in s[1..] + [x];
      }
    }
  }

  lemma {:induction false} StableSortSorted<T(!new)>(s: seq<T>, le: (T, T) -> bool)
    requires TotalPreorder(le)
    ensures Sorted(StableSort(s, le), le)
  {
    if s != [] {
      StableSortSorted(s[..|s| - 1], le);
      InsertSorted(StableSort(s[..|s| - 1], le), s[|s| - 1], le);
    }
  }

  // ---- filtering and sorting commute ------------------------------------------------

  lemma {:induction false} FilterAppend<T(!new)>(a: seq<T>, b: seq<T>, p: T -> bool)
    ensures Filter(a + b, p) == Filter(a, p) + Filter(b, p)
  {
    if b == [] {
      assert a + b == a;
    } else {
      FilterAppend(a, b[..|b| - 1], p);
      assert (a + b)[..|a + b| - 1] == a + b[..|b| - 1];
    }
  }

  lemma {:induction false} FilterSnoc<T(!new)>(s: seq<T>, x: T, p: T -> bool)
    ensures Filter(s + [x], p) == if p(x) then Filter(s, p) + [x] else Filter(s, p)
  {
    assert (s + [x])[..|s|] == s;
  }

  lemma {:induction false} FilterAll<T(!new)>(s: seq<T>, p: T -> bool)
    requires forall x :: x in s ==> p(x)
    ensures Filter(s, p) == s
  {
    if s != [] {
      assert s == s[..|s| - 1] + [s[|s| - 1]];
      assert forall x :: x in s[..|s| - 1] ==> x in s;
      FilterAll(s[..|s| - 1], p);
    }
  }

  lemma {:induction false} FilterNone<T(!new)>(s: seq<T>, p: T -> bool)
    requires forall x :: x in s ==> !p(x)
    ensures Filter(s, p) == []
  {
    if s != [] {
      assert s == s[..|s| - 1] + [s[|s| - 1]];
      FilterNone(s[..|s| - 1], p);
    }
  }

  lemma {:induction false} FilterGrows<T(!new)>(s: seq<T>, p: T -> bool, q: T -> bool)
    requires forall x :: x in s && p(x) ==> q(x)
    ensures |Filter(s, p)| <= |Filter(s, q)|
  {
    if s != [] {
      assert s == s[..|s| - 1] + [s[|s| - 1]];
      FilterGrows(s[..|s| - 1], p, q);
    }
  }

  lemma {:induction false} FilterSorted<T(!new)>(s: seq<T>, p: T -> bool, le: (T, T) -> bool)
    requires Sorted(s, le)
    ensures Sorted(Filter(s, p), le)
  {
    if s != [] {
      FilterSorted(s[..|s| - 1], p, le);
      assert s == s[..|s| - 1] + [s[|s| - 1]];
      var front, last := s[..|s| - 1], s[|s| - 1];
      forall x | x in front ensures le(x, last) {
        var i :| 0 <= i < |front| && s[i] == x;
      }
      forall i | 0 <= i < |Filter(front, p)| ensures le(Filter(front, p)[i], last) {
        assert Filter(front, p)[i] in Filter(front, p);
      }
    }
  }

  lemma {:induction false} FilterCons<T(!new)>(s: seq<T>, p: T -> bool)
    requires s != []
    ensures Filter(s, p) == (if p(s[0]) then [s[0]] else []) + Filter(s[1..], p)
  {
    assert s == [s[0]] + s[1..];
    FilterAppend([s[0]], s[1..], p);
    assert [s[0]][..0] == [];
    assert Filter([s[0]], p) == if p(s[0]) then [s[0]] else [];
  }

  lemma {:induction false} InsertFirst<T(!new)>(s: seq<T>, x: T, le: (T, T) -> bool)
    requires forall y :: y in s ==> !le(y, x)
    ensures Insert(s, x, le) == [x] + s
  {
  }

  lemma {:induction false} InsertCons<T(!new)>(h: T, t: seq<T>, x: T, le: (T, T) -> bool)
    requires le(h, x)
    ensures Insert([h] + t, x, le) == [h] + Insert(t, x, le)
  {
    assert ([h] + t)[1..] == t;
  }

  lemma {:induction false} FilterPrepend<T(!new)>(h: T, t: seq<T>, p: T -> bool)
    ensures Filter([h] + t, p) == if p(h) then [h] + Filter(t, p) else Filter(t, p)
  {
    FilterCons([h] + t, p);
    assert ([h] + t)[1..] == t;
  }

  lemma {:induction false} FilterInsert<T(!new)>(s: seq<T>, x: T, p: T -> bool, le: (T, T) -> bool)
    requires TotalPreorder(le) && Sorted(s, le)
    ensures Filter(Insert(s, x, le), p)
         == if p(x) then Insert(Filter(s, p), x, le) else Filter(s, p)
  {
    if s == [] {
      FilterPrepend(x, s, p);
      assert [x] + s == [x];
    } else if le(s[0], x) {
      var h, t := s[0], s[1..];
      FilterInsert(t, x, p, le);
      assert s == [h] + t;
      FilterPrepend(h, t, p);
      FilterPrepend(h, Insert(t, x, le), p);
      InsertCons(h, t, x, le);
      InsertCons(h, Filter(t, p), x, le);
    } else {
      FilterAbove(s, x, p, le);
    }
  }

  lemma {:induction false} FilterAbove<T(!new)>(s: seq<T>, x: T, p: T -> bool, le: (T, T) -> bool)
    requires TotalPreorder(le) && Sorted(s, le) && s != [] && !le(s[0], x)
    ensures Filter([x] + s, p) == if p(x) then Insert(Filter(s, p), x, le) else Filter(s, p)
  {
    FilterCons([x] + s, p);
    assert ([x] + s)[1..] == s;
    forall y | y in Filter(s, p) ensures !le(y, x) {
      var i :| 0 <= i < |s| && s[i] == y;
      assert le(s[0], y) by { assert le(s[0], s[0]); }
    }
    InsertFirst(Filter(s, p), x, le);
  }

  lemma {:induction false} FilterStableSort<T(!new)>(s: seq<T>, p: T -> bool, le: (T, T) -> bool)
    requires TotalPreorder(le)
    ensures Filter(StableSort(s, le), p) == StableSort(Filter(s, p), le)
  {
    if s != [] {
      var front, x := s[..|s| - 1], s[|s| - 1];
      FilterStableSort(front, p, le);
      StableSortSorted(front, le);
      FilterInsert(StableSort(front, le), x, p, le);
      if p(x) {
        assert (Filter(front, p) + [x])[..|Filter(front, p)|] == Filter(front, p);
      }
    }
  }

  lemma {:induction false} InsertLast<T(!new)>(s: seq<T>, x: T, le: (T, T) -> bool)
    requires forall i :: 0 <= i < |s| ==> le(s[i], x)
    ensures Insert(s, x, le) == s + [x]
  {
    if s != [] {
      InsertLast(s[1..], x, le);
      assert s == [s[0]] + s[1..];
    }
  }

  lemma {:induction false} StableSortOfSorted<T(!new)>(s: seq<T>, le: (T, T) -> bool)
    requires Sorted(s, le)
    ensures StableSort(s, le) == s
  {
    if s != [] {
      var front, x := s[..|s| - 1], s[|s| - 1];
      StableSortOfSorted(front, le);
      InsertLast(front, x, le);
    }
  }

  /** On a sorted list, a property that smaller elements inherit picks out a prefix. */
  lemma {:induction false} FilterIsPrefix<T(!new)>(s: seq<T>, p: T -> bool, le: (T, T) -> bool) returns (n: nat)
    requires Sorted(s, le) && forall x, y :: le(x, y) && p(y) ==> p(x)
    ensures n <= |s| && Filter(s, p) == s[..n]
    ensures forall i :: 0 <= i < |s| ==> (i < n <==> p(s[i]))
  {
    if s == [] {
      n := 0;
    } else if p(s[|s| - 1]) {
      n := |s|;
      forall x | x in s ensures p(x) {
        var i :| 0 <= i < |s| && s[i] == x;
        assert i == |s| - 1 || le(s[i], s[|s| - 1]);
      }
      FilterAll(s, p);
      assert s[..n] == s;
    } else {
      var front := s[..|s| - 1];
      n := FilterIsPrefix(front, p, le);
      assert front[..n] == s[..n];
    }
  }

  lemma {:induction false} FilterFilter<T(!new)>(s: seq<T>, p: T -> bool, q: T -> bool, both: T -> bool)
    requires forall x :: both(x) <==> p(x) && q(x)
    ensures Filter(Filter(s, p), q) == Filter(s, both)
  {
    if s != [] {
      var front, x := s[..|s| - 1], s[|s| - 1];
      FilterFilter(front, p, q, both);
      FilterSnoc(Filter(front, p), x, q);
    }
  }

  /** The greatest element after an insertion. */
  lemma {:induction false} LastOfInsert<T(!new)>(s: seq<T>, x: T, le: (T, T) -> bool)
    requires TotalPreorder(le) && Sorted(s, le)
    ensures Insert(s, x, le)[|s|] == if s != [] && !le(s[|s| - 1], x) then s[|s| - 1] else x
  {
    if s != [] {
      if le(s[0], x) {
        LastOfInsert(s[1..], x, le);
        assert Insert(s, x, le)[|s|] == Insert(s[1..], x, le)[|s| - 1];
      } else {
        assert le(s[0], s[0]);
        assert le(s[0], s[|s| - 1]);
      }
    }
  }

  lemma {:induction false} LastOfSort<T(!new)>(s: seq<T>, x: T, le: (T, T) -> bool)
    requires TotalPreorder(le)
    ensures StableSort(s + [x], le)[|s|]
         == if s != [] && !le(StableSort(s, le)[|s| - 1], x) then StableSort(s, le)[|s| - 1] else x
  {
    assert (s + [x])[..|s|] == s;
    StableSortSorted(s, le);
    LastOfInsert(StableSort(s, le), x, le);
  }

  // ---- the full characterisation ----------------------------------------------------

  ghost predicate IsStableSortOf<T(!new)>(r: seq<T>, s: seq<T>, le: (T, T) -> bool) {
    && Sorted(r, le)
    && multiset(r) == multiset(s)
    && forall x :: Filter(r, SameRank(x, le)) == Filter(s, SameRank(x, le))
  }

  lemma {:induction false} StableSortSpec<T(!new)>(s: seq<T>, le: (T, T) -> bool)
    requires TotalPreorder(le)
    ensures IsStableSortOf(StableSort(s, le), s, le)
  {
    StableSortSorted(s, le);
    forall x ensures Filter(StableSort(s, le), SameRank(x, le)) == Filter(s, SameRank(x, le)) {
      var p := SameRank(x, le);
      FilterStableSort(s, p, le);
      forall i, j | 0 <= i < j < |Filter(s, p)| ensures le(Filter(s, p)[i], Filter(s, p)[j]) {
        assert Filter(s, p)[i] in Filter(s, p) && Filter(s, p)[j] in Filter(s, p);
        assert p(Filter(s, p)[i]) && p(Filter(s, p)[j]);
      }
      StableSortOfSorted(Filter(s, p), le);
    }
  }

  lemma {:induction false} FirstOfRank<T(!new)>(r: seq<T>, le: (T, T) -> bool)
    requires TotalPreorder(le) && r != []
    ensures Filter(r, SameRank(r[0], le)) != []
    ensures Filter(r, SameRank(r[0], le))[0] == r[0]
    ensures forall x :: Filter(r, SameRank(x, le))
                     == (if SameRank(x, le)(r[0]) then [r[0]] else []) + Filter(r[1..], SameRank(x, le))
  {
    assert r == [r[0]] + r[1..];
    forall x ensures Filter(r, SameRank(x, le))
      == (if SameRank(x, le)(r[0]) then [r[0]] else []) + Filter(r[1..], SameRank(x, le)) {
      FilterAppend([r[0]], r[1..], SameRank(x, le));
    }
    assert le(r[0], r[0]);
  }

  /** Sorted + permutation + stable determines the list: there is only one stable sort. */
  lemma {:induction false} StableSortUnique<T(!new)>(r: seq<T>, s: seq<T>, le: (T, T) -> bool)
    requires TotalPreorder(le) && IsStableSortOf(r, s, le)
    ensures r == StableSort(s, le)
  {
    StableSortSpec(s, le);
    assert |r| == |multiset(r)| == |multiset(s)| == |s|;
    SameMembers(r, StableSort(s, le));
    SortedStableEqual(r, StableSort(s, le), le);
  }

  /** Sorting commutes with appending elements that are nowhere smaller. */
  lemma {:induction false} SortConcat<T(!new)>(a: seq<T>, b: seq<T>, le: (T, T) -> bool)
    requires TotalPreorder(le) && forall x, y :: x in a && y in b ==> le(x, y)
    ensures StableSort(a + b, le) == StableSort(a, le) + StableSort(b, le)
  {
    var x, y := StableSort(a, le), StableSort(b, le);
    StableSortSpec(a, le);
    StableSortSpec(b, le);
    SameMembers(x, a);
    SameMembers(y, b);
    forall i, j | 0 <= i < |x| && 0 <= j < |y| ensures le(x[i], y[j]) {
      assert x[i] in a && y[j] in b;
    }
    forall z ensures Filter(x + y, SameRank(z, le)) == Filter(a + b, SameRank(z, le)) {
      FilterAppend(x, y, SameRank(z, le));
      FilterAppend(a, b, SameRank(z, le));
    }
    StableSortUnique(x + y, a + b, le);
  }

  lemma {:induction false} SortedStableEqual<T(!new)>(a: seq<T>, b: seq<T>, le: (T, T) -> bool)
    requires TotalPreorder(le) && Sorted(a, le) && Sorted(b, le)
    requires |a| == |b|
    requires forall x :: x in a <==> x in b
    requires forall x :: Filter(a, SameRank(x, le)) == Filter(b, SameRank(x, le))
    ensures a == b
  {
    if a != [] {
      FirstOfRank(a, le);
      FirstOfRank(b, le);
      assert a[0] in b && b[0] in a;
      assert le(a[0], b[0]) by { var i :| 0 <= i < |a| && a[i] == b[0]; assert le(a[0], a[0]); }
      assert le(b[0], a[0]) by { var i :| 0 <= i < |b| && b[i] == a[0]; assert le(b[0], b[0]); }
      var p := SameRank(a[0], le);
      assert p(b[0]);
      assert Filter(b, p)[0] == b[0];
      assert a[0] == b[0];
      forall x ensures Filter(a[1..], SameRank(x, le)) == Filter(b[1..], SameRank(x, le)) {
        var h := if SameRank(x, le)(a[0]) then [a[0]] else [];
        assert Filter(a, SameRank(x, le)) == h + Filter(a[1..], SameRank(x, le));
        assert Filter(b, SameRank(x, le)) == h + Filter(b[1..], SameRank(x, le));
        assert (h + Filter(a[1..], SameRank(x, le)))[|h|..] == Filter(a[1..], SameRank(x, le));
        assert (h + Filter(b[1..], SameRank(x, le)))[|h|..] == Filter(b[1..], SameRank(x, le));
      }
      forall x ensures x in a[1..] <==> x in b[1..] {
        assert le(x, x);
        var q := SameRank(x, le);
        assert q(x);
        assert x in Filter(a[1..], q) <==> x in a[1..];
        assert x in Filter(b[1..], q) <==> x in b[1..];
      }
      SortedStableEqual(a[1..], b[1..], le);
    }
  }

  // ---- bounded top-k ----------------------------------------------------------------

  /** Dropping everything past `k` before an insertion does not change the first `k`. */
  lemma {:induction false} TakeInsert<T(!new)>(s: seq<T>, x: T, le: (T, T) -> bool, k: nat)
    ensures Take(Insert(Take(s, k), x, le), k) == Take(Insert(s, x, le), k)
  {
    if |s| > k && k > 0 && le(s[0], x) {
      TakeInsert(s[1..], x, le, k - 1);
      assert Take(s, k)[1..] == Take(s[1..], k - 1);
      assert Take(Insert(s, x, le), k) == [s[0]] + Take(Insert(s[1..], x, le), k - 1);
    }
  }

  /** Appending to a sorted list and stable-sorting again is one insertion. */
  lemma {:induction false} SortAppend<T(!new)>(s: seq<T>, x: T, le: (T, T) -> bool)
    requires Sorted(s, le)
    ensures StableSort(s + [x], le) == Insert(s, x, le)
  {
    assert (s + [x])[..|s|] == s;
    StableSortOfSorted(s, le);
  }

  // ---- Python string order ----------------------------------------------------------

  predicate StrLe(a: string, b: string) {
    if a == [] then true
    else if b == [] then false
    else if a[0] != b[0] then a[0] < b[0]
    else StrLe(a[1..], b[1..])
  }

  lemma {:induction false} StrLeOrder()
    ensures forall a, b :: StrLe(a, b) || StrLe(b, a)
    ensures forall a, b :: StrLe(a, b) && StrLe(b, a) ==> a == b
    ensures forall a, b, c :: StrLe(a, b) && StrLe(b, c) ==> StrLe(a, c)
  {
    forall a, b ensures StrLe(a, b) || StrLe(b, a) { StrLeTotal(a, b); }
    forall a, b | StrLe(a, b) && StrLe(b, a) ensures a == b { StrLeAnti(a, b); }
    forall a, b, c | StrLe(a, b) && StrLe(b, c) ensures StrLe(a, c) { StrLeTrans(a, b, c); }
  }

  lemma {:induction false} StrLeTotal(a: string, b: string)
    ensures StrLe(a, b) || StrLe(b, a)
  {
    if a != [] && b != [] { StrLeTotal(a[1..], b[1..]); }
  }

  lemma {:induction false} StrLeAnti(a: string, b: string)
    requires StrLe(a, b) && StrLe(b, a)
    ensures a == b
  {
    if a != [] && b != [] {
      StrLeAnti(a[1..], b[1..]);
      assert a == [a[0]] + a[1..] && b == [b[0]] + b[1..];
    }
  }

  lemma {:induction false} StrLeTrans(a: string, b: string, c: string)
    requires StrLe(a, b) && StrLe(b, c)
    ensures StrLe(a, c)
  {
    if a != [] && b != [] && c != [] && a[0] == b[0] == c[0] { StrLeTrans(a[1..], b[1..], c[1..]); }
  }
}
