/**
 * Bounded capture of a child's stderr: a tail of the last bytes, and out-of-memory
 * markers recognised across chunk boundaries from a short carry.
 *
 * Case folding and encoding act character by character; `fold` may expand a character
 * but folding a folded character changes nothing.
 */
module StderrCapture {
  import opened Sorting

  const MARKERS: seq<string> := [
    "error 137", "exit code 137", "exited with code 137",
    "oomkilled", "out of memory", "memory cgroup out of memory"]

  const LONGEST_MARKER: nat := 27

  lemma {:induction false} MarkerLengths()
    ensures forall m :: m in MARKERS ==> 0 < |m| <= LONGEST_MARKER
    ensures exists m :: m in MARKERS && |m| == LONGEST_MARKER
  {
    assert MARKERS[5] in MARKERS && |MARKERS[5]| == LONGEST_MARKER;
  }

  ghost predicate Idempotent(fold: char -> string) {
    forall c, x :: x in fold(c) ==> fold(x) == [x]
  }

  /** A per-character mapping applied to a whole text. */
  function MapText<B>(f: char -> seq<B>, s: string): seq<B> {
    if s == [] then [] else MapText(f, s[..|s| - 1]) + f(s[|s| - 1])
  }

  predicate OccursAt(m: string, s: string, i: int) {
    0 <= i && i + |m| <= |s| && s[i..i + |m|] == m
  }

  ghost predicate Occurs(m: string, s: string) {
    exists i :: OccursAt(m, s, i)
  }

  ghost predicate AnyMarker(s: string) {
    exists m :: m in MARKERS && Occurs(m, s)
  }

  /** `marker in text`. */
  method Contains(m: string, s: string) returns (found: bool)
    ensures found <==> Occurs(m, s)
  {
    var i := 0;
    while i + |m| <= |s|
      invariant 0 <= i
      invariant forall j :: j < i ==> !OccursAt(m, s, j)
      decreases |s| - i
    {
      if OccursAt(m, s, i) { return true; }
      i := i + 1;
    }
    found := false;
  }

  method HasMarker(s: string) returns (found: bool)
    ensures found <==> AnyMarker(s)
  {
    for k := 0 to |MARKERS|
      invariant forall j :: 0 <= j < k ==> !Occurs(MARKERS[j], s)
    {
      var hit := Contains(MARKERS[k], s);
      if hit { assert MARKERS[k] in MARKERS; return true; }
    }
    found := false;
  }

  lemma {:induction false} MapTextAppend<B>(f: char -> seq<B>, a: string, b: string)
    ensures MapText(f, a + b) == MapText(f, a) + MapText(f, b)
  {
    if b == [] {
      assert a + b == a;
    } else {
      MapTextAppend(f, a, b[..|b| - 1]);
      assert (a + b)[..|a + b| - 1] == a + b[..|b| - 1];
    }
  }

  ghost predicate Fixed(fold: char -> string, s: string) {
    forall x :: x in s ==> fold(x) == [x]
  }

  lemma {:induction false} FoldFixed(fold: char -> string, s: string)
    requires Fixed(fold, s)
    ensures MapText(fold, s) == s
  {
    if s != [] {
      assert s == s[..|s| - 1] + [s[|s| - 1]];
      FoldFixed(fold, s[..|s| - 1]);
    }
  }

  lemma {:induction false} FoldedIsFixed(fold: char -> string, s: string)
    requires Idempotent(fold)
    ensures Fixed(fold, MapText(fold, s))
  {
    if s != [] { FoldedIsFixed(fold, s[..|s| - 1]); }
  }

  lemma {:induction false} OccursInside(m: string, s: string, lo: nat, hi: nat)
    requires lo <= hi <= |s| && Occurs(m, s[lo..hi])
    ensures Occurs(m, s)
  {
    var t := s[lo..hi];
    var i :| OccursAt(m, t, i);
    forall k | 0 <= k < |m| ensures s[lo + i..lo + i + |m|][k] == m[k] {
      assert m[k] == t[i..i + |m|][k] == t[i + k];
    }
    assert OccursAt(m, s, lo + i);
  }

  /** A marker of at most k + 1 characters is in f + v exactly when it is in f or in (last k of f) + v. */
  lemma {:induction false} OccursAcross(m: string, f: string, v: string, k: nat)
    requires |m| <= k + 1
    ensures Occurs(m, f + v) <==> Occurs(m, f) || Occurs(m, LastN(f, k) + v)
  {
    var all, cut := f + v, |f| - |LastN(f, k)|;
    assert all[cut..|all|] == LastN(f, k) + v;
    assert all[0..|f|] == f;
    if Occurs(m, f) { OccursInside(m, all, 0, |f|); }
    if Occurs(m, LastN(f, k) + v) { OccursInside(m, all, cut, |all|); }
    if Occurs(m, all) {
      var i :| OccursAt(m, all, i);
      if i + |m| <= |f| {
        assert f[i..i + |m|] == all[i..i + |m|];
        assert OccursAt(m, f, i);
      } else {
        assert all[cut..|all|][i - cut..i - cut + |m|] == all[i..i + |m|];
        assert OccursAt(m, LastN(f, k) + v, i - cut);
      }
    }
  }

  lemma {:induction false} AnyMarkerAcross(f: string, v: string)
    ensures AnyMarker(f + v) <==> AnyMarker(f) || AnyMarker(LastN(f, LONGEST_MARKER - 1) + v)
  {
    MarkerLengths();
    forall m | m in MARKERS
      ensures Occurs(m, f + v) <==> Occurs(m, f) || Occurs(m, LastN(f, LONGEST_MARKER - 1) + v)
    {
      OccursAcross(m, f, v, LONGEST_MARKER - 1);
    }
  }

  class Capture {
    const limit: nat
    const fold: char -> string
    const encode: char -> seq<bv8>
    var tail: seq<bv8>
    var carry: string
    var oomObserved: bool
    ghost var seen: string

    /** What a capture knows after any sequence of chunks, in terms of their concatenation. */
    ghost predicate Valid()
      reads this
    {
      && Idempotent(fold)
      && tail == LastN(MapText(encode, seen), limit)
      && carry == LastN(MapText(fold, seen), LONGEST_MARKER - 1)
      && (oomObserved <==> AnyMarker(MapText(fold, seen)))
    }

    constructor (limit: nat, fold: char -> string, encode: char -> seq<bv8>)
      requires Idempotent(fold)
      ensures Valid() && seen == []
      ensures this.limit == limit && this.fold == fold && this.encode == encode
    {
      this.limit, this.fold, this.encode := limit, fold, encode;
      tail, carry, oomObserved, seen := [], [], false, [];
      new;
      MarkerLengths();
    }

    method Append(value: string)
      requires Valid()
      modifies this
      ensures Valid() && seen == old(seen) + value
    {
      var encoded := MapText(encode, value);
      MapTextAppend(encode, seen, value);
      LastNAppend(MapText(encode, seen), encoded, limit);
      tail := tail + encoded;
      var overflow := |tail| - limit;
      if overflow > 0 { tail := tail[overflow..]; }

      ghost var folded := MapText(fold, seen);
      FoldedIsFixed(fold, seen);
      FoldFixed(fold, carry);
      MapTextAppend(fold, carry, value);
      MapTextAppend(fold, seen, value);
      var window := MapText(fold, carry + value);
      AnyMarkerAcross(folded, MapText(fold, value));
      var hit := HasMarker(window);
      oomObserved := oomObserved || hit;
      LastNAppend(folded, MapText(fold, value), LONGEST_MARKER - 1);
      carry := LastN(window, LONGEST_MARKER - 1);
      seen := seen + value;
    }
  }

  function Concat(chunks: seq<string>): string {
    if chunks == [] then [] else Concat(chunks[..|chunks| - 1]) + chunks[|chunks| - 1]
  }

  /** Draining a stream: flag and tail depend only on the concatenation of its lines. */
  method Drain(lines: seq<string>, limit: nat, fold: char -> string, encode: char -> seq<bv8>)
    returns (oom: bool, tail: seq<bv8>)
    requires Idempotent(fold)
    ensures oom <==> AnyMarker(MapText(fold, Concat(lines)))
    ensures tail == LastN(MapText(encode, Concat(lines)), limit)
  {
    var capture := new Capture(limit, fold, encode);
    for i := 0 to |lines|
      invariant capture.Valid() && capture.seen == Concat(lines[..i])
      invariant capture.limit == limit && capture.fold == fold && capture.encode == encode
      invariant fresh(capture)
    {
      assert lines[..i + 1][..i] == lines[..i];
      capture.Append(lines[i]);
    }
    assert lines[..|lines|] == lines;
    oom, tail := capture.oomObserved, capture.tail;
  }
}
