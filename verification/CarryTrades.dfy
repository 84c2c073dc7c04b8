/** Closed carry positions, and how many are open at once. */
module CarryTrades {
  import opened Wrappers
  import opened Sorting

  datatype Trade = Trade(symbol: string, entryFill: int, exitFill: int,
                         fundingBps: real, basisBps: real, feeBps: real,
                         closedAtEnd: bool, exitDelayed: bool,
                         maxHighRatio: Option<real>, liquidated: bool)

  /** A step of the sweep: +1 at an entry fill, -1 at an exit fill. */
  datatype Mark = Mark(at: int, step: int)

  /** Exits sort before entries at the same time. */
  predicate MarkLe(a: Mark, b: Mark) {
    a.at < b.at || (a.at == b.at && a.step <= b.step)
  }

  function Entries(trades: seq<Trade>): seq<Mark> {
    if trades == [] then [] else Entries(trades[..|trades| - 1]) + [Mark(trades[|trades| - 1].entryFill, 1)]
  }

  function Exits(trades: seq<Trade>): seq<Mark> {
    if trades == [] then [] else Exits(trades[..|trades| - 1]) + [Mark(trades[|trades| - 1].exitFill, -1)]
  }

  function Level(ms: seq<Mark>): int {
    if ms == [] then 0 else Level(ms[..|ms| - 1]) + ms[|ms| - 1].step
  }

  function Timeline(trades: seq<Trade>): seq<Mark> {
    StableSort(Entries(trades) + Exits(trades), MarkLe)
  }

  ghost predicate PositiveDurations(trades: seq<Trade>) {
    forall i :: 0 <= i < |trades| ==> trades[i].entryFill < trades[i].exitFill
  }

  /** Positions open at `t`: entered at or before it and not yet exited. */
  function Open(trades: seq<Trade>, t: int): nat {
    if trades == [] then 0
    else Open(trades[..|trades| - 1], t)
         + if trades[|trades| - 1].entryFill <= t < trades[|trades| - 1].exitFill then 1 else 0
  }

  /** The largest number of positions open at any one time. */
  ghost predicate IsPeak(trades: seq<Trade>, peak: nat) {
    && (forall t :: Open(trades, t) <= peak)
    && (peak == 0 || exists t :: Open(trades, t) >= peak)
  }

  function UpTo(t: int): Mark -> bool { (m: Mark) => m.at <= t }

  lemma {:induction false} LevelAppend(a: seq<Mark>, b: seq<Mark>)
    ensures Level(a + b) == Level(a) + Level(b)
  {
    if b == [] {
      assert a + b == a;
    } else {
      LevelAppend(a, b[..|b| - 1]);
      assert (a + b)[..|a + b| - 1] == a + b[..|b| - 1];
    }
  }

  lemma {:induction false} LevelInsert(s: seq<Mark>, x: Mark)
    ensures Level(Insert(s, x, MarkLe)) == Level(s) + x.step
  {
    LevelAppend([], [x]);
    assert [] + [x] == [x] && [x][..0] == [];
    if s != [] {
      assert s == [s[0]] + s[1..];
      if MarkLe(s[0], x) {
        LevelInsert(s[1..], x);
        LevelAppend([s[0]], Insert(s[1..], x, MarkLe));
        LevelAppend([s[0]], s[1..]);
      } else {
        LevelAppend([x], s);
      }
    }
  }

  lemma {:induction false} LevelSort(s: seq<Mark>)
    ensures Level(StableSort(s, MarkLe)) == Level(s)
  {
    if s != [] {
      LevelSort(s[..|s| - 1]);
      LevelInsert(StableSort(s[..|s| - 1], MarkLe), s[|s| - 1]);
    }
  }

  lemma {:induction false} OpenIsLevel(trades: seq<Trade>, t: int)
    requires PositiveDurations(trades)
    ensures Open(trades, t) == Level(Filter(Entries(trades), UpTo(t))) + Level(Filter(Exits(trades), UpTo(t)))
  {
    if trades != [] {
      var front, last := trades[..|trades| - 1], trades[|trades| - 1];
      OpenIsLevel(front, t);
      LevelSnoc(Entries(front), Mark(last.entryFill, 1), t);
      LevelSnoc(Exits(front), Mark(last.exitFill, -1), t);
    }
  }

  lemma {:induction false} LevelSnoc(s: seq<Mark>, m: Mark, t: int)
    ensures Level(Filter(s + [m], UpTo(t))) == Level(Filter(s, UpTo(t))) + if m.at <= t then m.step else 0
  {
    FilterSnoc(s, m, UpTo(t));
    assert (Filter(s, UpTo(t)) + [m])[..|Filter(s, UpTo(t))|] == Filter(s, UpTo(t));
  }

  /** At any time, the level of the marks so far is the number of open positions. */
  lemma {:induction false} LevelAtTime(trades: seq<Trade>, t: int)
    requires PositiveDurations(trades)
    ensures Level(Filter(Timeline(trades), UpTo(t))) == Open(trades, t)
  {
    var raw := Entries(trades) + Exits(trades);
    FilterStableSort(raw, UpTo(t), MarkLe);
    LevelSort(Filter(raw, UpTo(t)));
    FilterAppend(Entries(trades), Exits(trades), UpTo(t));
    LevelAppend(Filter(Entries(trades), UpTo(t)), Filter(Exits(trades), UpTo(t)));
    OpenIsLevel(trades, t);
  }

  lemma {:induction false} EarlierMarksFirst(ms: seq<Mark>, t: int) returns (k: nat)
    requires Sorted(ms, MarkLe)
    ensures k <= |ms| && ms[..k] == Filter(ms, UpTo(t))
    ensures forall i :: 0 <= i < |ms| ==> (i < k <==> ms[i].at <= t)
  {
    k := FilterIsPrefix(ms, UpTo(t), MarkLe);
  }

  /** Marks after the first entry of an instant, up to the end of that instant, are entries. */
  lemma {:induction false} LevelRises(ms: seq<Mark>, i: nat, k: nat)
    requires i <= k <= |ms| && forall j :: i <= j < k ==> ms[j].step == 1
    ensures Level(ms[..i]) <= Level(ms[..k])
  {
    if i < k {
      LevelRises(ms, i, k - 1);
      assert ms[..k][..k - 1] == ms[..k - 1];
    }
  }

  lemma {:induction false} LevelWithinOpen(trades: seq<Trade>, i: nat)
    requires PositiveDurations(trades) && i <= |Timeline(trades)|
    requires Sorted(Timeline(trades), MarkLe)
    requires forall m :: m in Timeline(trades) ==> m.step == 1 || m.step == -1
    ensures Level(Timeline(trades)[..i]) <= 0 || exists t :: Level(Timeline(trades)[..i]) <= Open(trades, t)
  {
    var ms := Timeline(trades);
    if i > 0 {
      assert ms[..i][..i - 1] == ms[..i - 1];
      assert ms[i - 1] in ms;
      if ms[i - 1].step == -1 {
        LevelWithinOpen(trades, i - 1);
      } else {
        var t := ms[i - 1].at;
        var k := EarlierMarksFirst(ms, t);
        forall j | i <= j < k ensures ms[j].step == 1 { assert MarkLe(ms[i - 1], ms[j]); assert ms[j] in ms; }
        LevelRises(ms, i, k);
        LevelAtTime(trades, t);
      }
    }
  }

  lemma {:induction false} MarkSteps(trades: seq<Trade>)
    ensures forall m :: m in Entries(trades) ==> m.step == 1
    ensures forall m :: m in Exits(trades) ==> m.step == -1
  {
    if trades != [] { MarkSteps(trades[..|trades| - 1]); }
  }

  lemma {:induction false} TimelineShape(trades: seq<Trade>)
    ensures Sorted(Timeline(trades), MarkLe)
    ensures forall m :: m in Timeline(trades) ==> m.step == 1 || m.step == -1
  {
    MarkSteps(trades);
    StableSortSorted(Entries(trades) + Exits(trades), MarkLe);
    SameMembers(Timeline(trades), Entries(trades) + Exits(trades));
  }

  /** p is the highest level reached in the first n marks, at least 0. */
  ghost predicate IsHighest(ms: seq<Mark>, n: nat, p: int) {
    && n <= |ms|
    && (forall j :: 0 <= j <= n ==> Level(ms[..j]) <= p)
    && exists j :: 0 <= j <= n && Level(ms[..j]) == p
  }

  lemma {:induction false} HighestIsPeak(trades: seq<Trade>, p: int)
    requires PositiveDurations(trades) && IsHighest(Timeline(trades), |Timeline(trades)|, p)
    ensures p >= 0 && IsPeak(trades, p)
  {
    var ms := Timeline(trades);
    TimelineShape(trades);
    assert Level(ms[..0]) == 0;
    forall t ensures Open(trades, t) <= p {
      var k := EarlierMarksFirst(ms, t);
      LevelAtTime(trades, t);
      assert Level(ms[..k]) <= p;
    }
    var j :| 0 <= j <= |ms| && Level(ms[..j]) == p;
    LevelWithinOpen(trades, j);
  }

  lemma {:induction false} HighestStep(ms: seq<Mark>, n: nat, p: int)
    requires IsHighest(ms, n, p) && n < |ms|
    ensures Level(ms[..n + 1]) == Level(ms[..n]) + ms[n].step
    ensures IsHighest(ms, n + 1, if Level(ms[..n + 1]) > p then Level(ms[..n + 1]) else p)
  {
    assert ms[..n + 1][..n] == ms[..n];
  }

  /** The sweep finds the largest number of positions open at once. */
  method MaxConcurrent(trades: seq<Trade>) returns (peak: int)
    ensures PositiveDurations(trades) ==> peak >= 0 && IsPeak(trades, peak)
  {
    var events := Timeline(trades);
    var current := 0;
    peak := 0;
    assert Level(events[..0]) == 0;
    for i := 0 to |events|
      invariant current == Level(events[..i])
      invariant IsHighest(events, i, peak)
    {
      HighestStep(events, i, peak);
      current := current + events[i].step;
      if current > peak { peak := current; }
    }
    if PositiveDurations(trades) { HighestIsPeak(trades, peak); }
  }

  /** One position at a time: positive durations, and each entry at or after the exit before it. */
  ghost predicate Exclusive(trades: seq<Trade>) {
    && PositiveDurations(trades)
    && forall i, j :: 0 <= i < j < |trades| ==> trades[i].exitFill <= trades[j].entryFill
  }

  lemma {:induction false} ExclusiveOpen(trades: seq<Trade>, t: int)
    requires Exclusive(trades)
    ensures Open(trades, t) <= 1
    ensures Open(trades, t) == 1 ==> exists i :: 0 <= i < |trades| && trades[i].entryFill <= t < trades[i].exitFill
  {
    if trades != [] {
      var front, last := trades[..|trades| - 1], trades[|trades| - 1];
      ExclusiveOpen(front, t);
      if Open(front, t) == 1 {
        var i :| 0 <= i < |front| && front[i].entryFill <= t < front[i].exitFill;
        assert trades[i].exitFill <= trades[|trades| - 1].entryFill;
        assert trades[i].entryFill <= t < trades[i].exitFill;
      }
    }
  }

  /** Positions held one at a time never raise the sweep above one. */
  lemma {:induction false} ExclusivePeak(trades: seq<Trade>, peak: nat)
    requires Exclusive(trades) && IsPeak(trades, peak)
    ensures peak <= 1
  {
    if peak != 0 {
      var t :| Open(trades, t) >= peak;
      ExclusiveOpen(trades, t);
    }
  }
}
