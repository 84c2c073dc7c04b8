/**
 * Why a priced path is unresolved. The outcome reader resolves a row when every minute of
 * its path is present and price-complete; the taxonomy classifies rows from the same bars
 * without reading a price, and treats a resolved row with a path problem as a hard error.
 */
module PathTaxonomy {
  import opened Wrappers

  // ---- bars -------------------------------------------------------------------------------

  /** One bar as stored; a minute may be stored more than once. */
  datatype RawBar = RawBar(at: int, open: Option<real>, close: Option<real>, complete: bool, gap: bool)

  datatype Bar = Bar(open: Option<real>, close: Option<real>, complete: bool)

  datatype MinuteState = MinuteState(complete: bool, gap: bool)

  /** The reader's dictionary: a later copy of a minute replaces an earlier one. */
  method LoadBars(raw: seq<RawBar>) returns (bars: map<int, Bar>)
    ensures forall t :: Find(bars, t) == LastCopy(raw, t)
  {
    bars := map[];
    for i := 0 to |raw|
      invariant forall t :: Find(bars, t) == LastCopy(raw[..i], t)
    {
      assert raw[..i + 1][..i] == raw[..i];
      bars := bars[raw[i].at := Bar(raw[i].open, raw[i].close, raw[i].complete)];
    }
    assert raw[..|raw|] == raw;
  }

  function Find<V>(m: map<int, V>, t: int): Option<V> { if t in m then Some(m[t]) else None }

  function LastCopy(raw: seq<RawBar>, t: int): Option<Bar> {
    if raw == [] then None
    else if raw[|raw| - 1].at == t then Some(Bar(raw[|raw| - 1].open, raw[|raw| - 1].close, raw[|raw| - 1].complete))
    else LastCopy(raw[..|raw| - 1], t)
  }

  /** The taxonomy's grouping: a duplicated minute is complete only when every copy is. */
  function Grouped(raw: seq<RawBar>, t: int): Option<MinuteState> {
    if raw == [] then None
    else
      var rest, b := Grouped(raw[..|raw| - 1], t), raw[|raw| - 1];
      if b.at != t then rest
      else if rest.None? then Some(MinuteState(b.complete, b.gap))
      else Some(MinuteState(rest.value.complete && b.complete, rest.value.gap || b.gap))
  }

  ghost predicate GroupsOf(minutes: map<int, MinuteState>, raw: seq<RawBar>) {
    forall t :: Find(minutes, t) == Grouped(raw, t)
  }

  // ---- the reader -------------------------------------------------------------------------

  datatype PathRule = EveryMinute | EntryExit

  datatype Outcome = Outcome(entry: real, exit: real)

  function EntryAt(decisionAt: int): int { decisionAt + 1 }

  /** The offsets a rule looks at. */
  predicate Checked(rule: PathRule, horizon: nat, i: int) {
    0 <= i <= horizon && (rule.EveryMinute? || i == 0 || i == horizon)
  }

  predicate Usable(bars: map<int, Bar>, t: int) { t in bars && bars[t].complete }

  /** What a rule must return: prices exactly when every checked bar is usable and both legs are priced. */
  ghost predicate IsRead(bars: map<int, Bar>, decisionAt: int, horizon: nat, rule: PathRule, r: Option<Outcome>) {
    var entry := EntryAt(decisionAt);
    if (forall i :: Checked(rule, horizon, i) ==> Usable(bars, entry + i))
    then
      assert Checked(rule, horizon, 0) && Checked(rule, horizon, horizon);
      assert Usable(bars, entry + 0) && Usable(bars, entry + horizon);
      var open, close := bars[entry].open, bars[entry + horizon].close;
      r == if open.Some? && close.Some? then Some(Outcome(open.value, close.value)) else None
    else r == None
  }

  method ReadOutcome(bars: map<int, Bar>, decisionAt: int, horizon: nat, rule: PathRule) returns (r: Option<Outcome>)
    ensures IsRead(bars, decisionAt, horizon, rule, r)
  {
    var entry := EntryAt(decisionAt);
    var offsets := if rule.EveryMinute? then seq(horizon + 1, i => i) else [0, horizon];
    assert forall i :: Checked(rule, horizon, i) ==> i in offsets by {
      forall i | Checked(rule, horizon, i) ensures i in offsets {
        if rule.EveryMinute? { assert offsets[i] == i; } else { assert offsets[0] == 0 && offsets[1] == horizon; }
      }
    }
    assert forall k :: 0 <= k < |offsets| ==> Checked(rule, horizon, offsets[k]);
    var path: seq<Bar> := [];
    for k := 0 to |offsets|
      invariant |path| == k
      invariant forall j :: 0 <= j < k ==> Usable(bars, entry + offsets[j]) && path[j] == bars[entry + offsets[j]]
    {
      if entry + offsets[k] !in bars || !bars[entry + offsets[k]].complete {
        assert Checked(rule, horizon, offsets[k]);
        return None;
      }
      path := path + [bars[entry + offsets[k]]];
    }
    assert offsets[0] == 0 && offsets[|offsets| - 1] == horizon;
    assert Usable(bars, entry + horizon) && path[|path| - 1] == bars[entry + horizon];
    assert forall i :: Checked(rule, horizon, i) ==> Usable(bars, entry + i);
    var open, close := path[0].open, path[|path| - 1].close;
    r := if open.Some? && close.Some? then Some(Outcome(open.value, close.value)) else None;
  }

  /** The two-bar rule extends the every-minute rule: same prices wherever that one has them. */
  lemma {:induction false} EntryExitExtendsEveryMinute(bars: map<int, Bar>, decisionAt: int, horizon: nat,
        full: Option<Outcome>, ends: Option<Outcome>)
    requires IsRead(bars, decisionAt, horizon, EveryMinute, full) && IsRead(bars, decisionAt, horizon, EntryExit, ends)
    ensures full.Some? ==> ends == full
  {
    var entry := EntryAt(decisionAt);
    if full.Some? {
      forall i | Checked(EntryExit, horizon, i) ensures Usable(bars, entry + i) {
        assert Checked(EveryMinute, horizon, i);
      }
    }
  }

  // ---- the diagnosis ------------------------------------------------------------------------

  datatype Reason =
    | NoRouteBars | MissingEntryBar | EntryBarIncomplete | InternalGap
    | MissingHorizonBar | PriceIncompleteInside | Unexplained

  datatype Diagnosis = Diagnosis(
    primary: Option<Reason>, missingEntry: bool, entryIncomplete: bool, internalGap: bool,
    missingHorizon: bool, incompleteInside: bool, exitIncomplete: bool, entryExitComplete: bool,
    collectorGap: bool, firstProblem: Option<nat>, firstGapLength: Option<nat>,
    missingMinutes: nat, incompleteMinutes: nat)

  datatype Result = Diagnosed(d: Diagnosis) | HardError(message: string)

  /** Offset i of the path has no bar. */
  predicate Absent(minutes: map<int, MinuteState>, entry: int, horizon: nat, i: int) {
    0 <= i <= horizon && entry + i !in minutes
  }

  /** Offset i of the path has a bar whose price is not complete. */
  predicate Incomplete(minutes: map<int, MinuteState>, entry: int, horizon: nat, i: int) {
    0 <= i <= horizon && entry + i in minutes && !minutes[entry + i].complete
  }

  /** Offset i of the path has a bar on which the collector marked a gap. */
  predicate Marked(minutes: map<int, MinuteState>, entry: int, horizon: nat, i: int) {
    0 <= i <= horizon && entry + i in minutes && minutes[entry + i].gap
  }

  ghost predicate HasProblem(minutes: map<int, MinuteState>, entry: int, horizon: nat) {
    exists i :: Absent(minutes, entry, horizon, i) || Incomplete(minutes, entry, horizon, i)
  }

  /** The offsets below n with property p, in order. */
  function Collected(p: int -> bool, n: nat): (r: seq<nat>)
    ensures |r| <= n
  {
    if n == 0 then [] else Collected(p, n - 1) + if p(n - 1) then [n - 1] else []
  }

  function AnyBelow(p: int -> bool, n: nat): bool {
    n > 0 && (AnyBelow(p, n - 1) || p(n - 1))
  }

  lemma {:induction false} CollectedSpec(p: int -> bool, n: nat)
    ensures forall j, k :: 0 <= j < k < |Collected(p, n)| ==> Collected(p, n)[j] < Collected(p, n)[k]
    ensures forall i :: i in Collected(p, n) <==> 0 <= i < n && p(i)
  {
    if n > 0 {
      CollectedSpec(p, n - 1);
      var r := Collected(p, n - 1);
      forall k | 0 <= k < |r| ensures r[k] < n - 1 { assert r[k] in r; }
    }
  }

  lemma {:induction false} AnyBelowSpec(p: int -> bool, n: nat)
    ensures AnyBelow(p, n) <==> exists i :: 0 <= i < n && p(i)
  {
    if n > 0 { AnyBelowSpec(p, n - 1); }
  }

  function AbsentAt(minutes: map<int, MinuteState>, entry: int, horizon: nat): int -> bool {
    i => Absent(minutes, entry, horizon, i)
  }

  function IncompleteAt(minutes: map<int, MinuteState>, entry: int, horizon: nat): int -> bool {
    i => Incomplete(minutes, entry, horizon, i)
  }

  function MarkedAt(minutes: map<int, MinuteState>, entry: int, horizon: nat): int -> bool {
    i => Marked(minutes, entry, horizon, i)
  }

  method ScanPath(minutes: map<int, MinuteState>, entry: int, horizon: nat)
    returns (absent: seq<nat>, incomplete: seq<nat>, gap: bool)
    ensures absent == Collected(AbsentAt(minutes, entry, horizon), horizon + 1)
    ensures incomplete == Collected(IncompleteAt(minutes, entry, horizon), horizon + 1)
    ensures gap == AnyBelow(MarkedAt(minutes, entry, horizon), horizon + 1)
  {
    absent, incomplete, gap := [], [], false;
    for i := 0 to horizon + 1
      invariant absent == Collected(AbsentAt(minutes, entry, horizon), i)
      invariant incomplete == Collected(IncompleteAt(minutes, entry, horizon), i)
      invariant gap == AnyBelow(MarkedAt(minutes, entry, horizon), i)
    {
      if entry + i !in minutes {
        absent := absent + [i];
        continue;
      }
      gap := gap || minutes[entry + i].gap;
      if !minutes[entry + i].complete { incomplete := incomplete + [i]; }
    }
  }

  /** The stretch of listed offsets that starts at the first one. */
  method GapLength(absent: seq<nat>) returns (run: nat)
    requires absent != [] && forall j, k :: 0 <= j < k < |absent| ==> absent[j] < absent[k]
    ensures run >= 1 && absent[0] + run !in absent
    ensures forall v :: absent[0] <= v < absent[0] + run ==> v in absent
  {
    run := 1;
    while absent[0] + run in absent
      invariant 1 <= run
      invariant forall v :: absent[0] <= v < absent[0] + run ==> v in absent
      decreases absent[|absent| - 1] - absent[0] + 1 - run
    {
      assert absent[0] + run <= absent[|absent| - 1];
      run := run + 1;
    }
  }

  /** What each field of a diagnosis says about the path. */
  ghost predicate Describes(d: Diagnosis, minutes: map<int, MinuteState>, entry: int, last: nat) {
    && (d.missingEntry <==> Absent(minutes, entry, last, 0))
    && (d.entryIncomplete <==> Incomplete(minutes, entry, last, 0))
    && (d.internalGap <==> exists i :: 0 < i < last && Absent(minutes, entry, last, i))
    && (d.missingHorizon <==> Absent(minutes, entry, last, last))
    && (d.incompleteInside <==> exists i :: i > 0 && Incomplete(minutes, entry, last, i))
    && (d.exitIncomplete <==> Incomplete(minutes, entry, last, last))
    && (d.entryExitComplete <==> !(d.missingEntry || d.entryIncomplete || d.missingHorizon || d.exitIncomplete))
    && (d.collectorGap <==> exists i :: Marked(minutes, entry, last, i))
    && d.missingMinutes == |Collected(AbsentAt(minutes, entry, last), last + 1)|
    && d.incompleteMinutes == |Collected(IncompleteAt(minutes, entry, last), last + 1)|
  }

  ghost predicate IsProblem(minutes: map<int, MinuteState>, entry: int, last: nat, i: int) {
    Absent(minutes, entry, last, i) || Incomplete(minutes, entry, last, i)
  }

  /** The first offset with a problem, if any. */
  ghost predicate IsFirstProblem(r: Option<nat>, minutes: map<int, MinuteState>, entry: int, last: nat) {
    match r
    case None => !HasProblem(minutes, entry, last)
    case Some(i) => IsProblem(minutes, entry, last, i) && forall j :: j < i ==> !IsProblem(minutes, entry, last, j)
  }

  ghost predicate IsFirstGap(r: Option<nat>, minutes: map<int, MinuteState>, entry: int, last: nat) {
    match r
    case None => forall i :: !Absent(minutes, entry, last, i)
    case Some(n) => exists a :: FirstGap(minutes, entry, last, a, n)
  }

  ghost predicate Locates(d: Diagnosis, minutes: map<int, MinuteState>, entry: int, last: nat) {
    IsFirstProblem(d.firstProblem, minutes, entry, last) && IsFirstGap(d.firstGapLength, minutes, entry, last)
  }

  /** The first stretch of absent minutes is a .. a + n - 1. */
  ghost predicate FirstGap(minutes: map<int, MinuteState>, entry: int, last: nat, a: int, n: nat) {
    && n >= 1
    && (forall i :: i < a ==> !Absent(minutes, entry, last, i))
    && (forall i :: a <= i < a + n ==> Absent(minutes, entry, last, i))
    && !Absent(minutes, entry, last, a + n)
  }

  /** The first flag that is set names the reason, in the registered order. */
  function PrimaryOf(d: Diagnosis, last: nat, resolved: bool): Option<Reason> {
    if d.missingMinutes == last + 1 then Some(NoRouteBars)
    else if d.missingEntry then Some(MissingEntryBar)
    else if d.entryIncomplete then Some(EntryBarIncomplete)
    else if d.internalGap then Some(InternalGap)
    else if d.missingHorizon then Some(MissingHorizonBar)
    else if d.incompleteInside then Some(PriceIncompleteInside)
    else if resolved then None
    else Some(Unexplained)
  }

  function MinutesOf(minutes: Option<map<int, MinuteState>>): map<int, MinuteState> {
    if minutes.Some? then minutes.value else map[]
  }

  function First(a: seq<nat>, b: seq<nat>): Option<nat> {
    if a == [] && b == [] then None
    else if b == [] || (a != [] && a[0] <= b[0]) then Some(a[0])
    else Some(b[0])
  }

  /** The flags read off the two lists of offsets. */
  function Flags(absent: seq<nat>, incomplete: seq<nat>, gap: bool, firstGap: Option<nat>, last: nat): Diagnosis {
    Diagnosis(None, 0 in absent, 0 in incomplete, exists i :: i in absent && 0 < i < last,
              last in absent, exists i :: i in incomplete && i > 0, last in incomplete,
              !(0 in absent || 0 in incomplete || last in absent || last in incomplete),
              gap, First(absent, incomplete), firstGap, |absent|, |incomplete|)
  }

  /** Any flag set, or no bar at all, is a listed offset. */
  predicate Flagged(d: Diagnosis, last: nat) {
    d.missingMinutes == last + 1
    || d.missingEntry || d.entryIncomplete || d.internalGap || d.missingHorizon || d.incompleteInside
  }

  /** The two lists hold, in order, exactly the absent and the incomplete offsets. */
  ghost predicate AreLists(absent: seq<nat>, incomplete: seq<nat>, minutes: map<int, MinuteState>, entry: int,
        last: nat) {
    && (forall i :: i in absent <==> Absent(minutes, entry, last, i))
    && (forall i :: i in incomplete <==> Incomplete(minutes, entry, last, i))
    && (forall j, k :: 0 <= j < k < |absent| ==> absent[j] < absent[k])
    && (forall j, k :: 0 <= j < k < |incomplete| ==> incomplete[j] < incomplete[k])
  }

  lemma {:induction false} ListsOf(minutes: map<int, MinuteState>, entry: int, last: nat)
    ensures AreLists(Collected(AbsentAt(minutes, entry, last), last + 1),
                     Collected(IncompleteAt(minutes, entry, last), last + 1), minutes, entry, last)
  {
    CollectedSpec(AbsentAt(minutes, entry, last), last + 1);
    CollectedSpec(IncompleteAt(minutes, entry, last), last + 1);
  }

  lemma {:induction false} MarksOf(minutes: map<int, MinuteState>, entry: int, last: nat)
    ensures AnyBelow(MarkedAt(minutes, entry, last), last + 1) <==> exists i :: Marked(minutes, entry, last, i)
  {
    AnyBelowSpec(MarkedAt(minutes, entry, last), last + 1);
    forall i ensures 0 <= i < last + 1 && MarkedAt(minutes, entry, last)(i) <==> Marked(minutes, entry, last, i) { }
  }

  lemma {:induction false} FlagsDescribe(minutes: map<int, MinuteState>, entry: int, last: nat,
                      absent: seq<nat>, incomplete: seq<nat>, gap: bool, firstGap: Option<nat>)
    requires AreLists(absent, incomplete, minutes, entry, last)
    requires |absent| == |Collected(AbsentAt(minutes, entry, last), last + 1)|
    requires |incomplete| == |Collected(IncompleteAt(minutes, entry, last), last + 1)|
    requires gap <==> exists i :: Marked(minutes, entry, last, i)
    ensures Describes(Flags(absent, incomplete, gap, firstGap, last), minutes, entry, last)
  {
  }

  lemma {:induction false} FlaggedIffProblem(d: Diagnosis, minutes: map<int, MinuteState>, entry: int, last: nat)
    requires Describes(d, minutes, entry, last)
    ensures Flagged(d, last) <==> HasProblem(minutes, entry, last)
  {
    if d.missingMinutes == last + 1 {
      CollectedSpec(AbsentAt(minutes, entry, last), last + 1);
      var absent := Collected(AbsentAt(minutes, entry, last), last + 1);
      assert absent[0] in absent;
      assert Absent(minutes, entry, last, absent[0]);
    }
  }

  lemma {:induction false} FirstIsFirst(minutes: map<int, MinuteState>, entry: int, last: nat, absent: seq<nat>,
        incomplete: seq<nat>)
    requires AreLists(absent, incomplete, minutes, entry, last)
    ensures IsFirstProblem(First(absent, incomplete), minutes, entry, last)
  {
    if absent != [] { assert absent[0] in absent; }
    if incomplete != [] { assert incomplete[0] in incomplete; }
    forall i | IsProblem(minutes, entry, last, i)
      ensures First(absent, incomplete).Some? && First(absent, incomplete).value <= i
    {
      assert i in absent || i in incomplete;
    }
  }

  lemma {:induction false} NoGap(minutes: map<int, MinuteState>, entry: int, last: nat, incomplete: seq<nat>)
    requires AreLists([], incomplete, minutes, entry, last)
    ensures IsFirstGap(None, minutes, entry, last)
  {
    forall i ensures !Absent(minutes, entry, last, i) { assert i !in []; }
  }

  lemma {:induction false} GapIsFirst(minutes: map<int, MinuteState>, entry: int, last: nat, absent: seq<nat>,
        incomplete: seq<nat>, run: nat)
    requires AreLists(absent, incomplete, minutes, entry, last)
    requires absent != [] && run >= 1 && absent[0] + run !in absent
    requires forall v :: absent[0] <= v < absent[0] + run ==> v in absent
    ensures IsFirstGap(Some(run), minutes, entry, last)
  {
    assert FirstGap(minutes, entry, last, absent[0], run);
  }

  method ScanAndFlag(minutes: map<int, MinuteState>, entry: int, last: nat) returns (d: Diagnosis)
    ensures Describes(d, minutes, entry, last) && Locates(d, minutes, entry, last)
  {
    var absent, incomplete, gap := ScanPath(minutes, entry, last);
    ListsOf(minutes, entry, last);
    MarksOf(minutes, entry, last);
    var firstGap := FirstGapOf(minutes, entry, last, absent, incomplete);
    d := Flags(absent, incomplete, gap, firstGap, last);
    FlagsDescribe(minutes, entry, last, absent, incomplete, gap, firstGap);
    FirstIsFirst(minutes, entry, last, absent, incomplete);
  }

  method FirstGapOf(ghost minutes: map<int, MinuteState>, ghost entry: int, ghost last: nat,
                    absent: seq<nat>, ghost incomplete: seq<nat>) returns (firstGap: Option<nat>)
    requires AreLists(absent, incomplete, minutes, entry, last)
    ensures IsFirstGap(firstGap, minutes, entry, last)
  {
    if absent == [] {
      NoGap(minutes, entry, last, incomplete);
      return None;
    }
    var run := GapLength(absent);
    GapIsFirst(minutes, entry, last, absent, incomplete, run);
    firstGap := Some(run);
  }

  /** Classify one row; a resolved row with a path problem is refused. */
  method DiagnosePath(minutes: Option<map<int, MinuteState>>, decisionAt: int, horizon: nat, resolved: bool)
    returns (r: Result)
    ensures r.HardError? <==> resolved && HasProblem(MinutesOf(minutes), EntryAt(decisionAt), horizon)
    ensures r.Diagnosed? ==>
      && Describes(r.d, MinutesOf(minutes), EntryAt(decisionAt), horizon)
      && Locates(r.d, MinutesOf(minutes), EntryAt(decisionAt), horizon)
      && r.d.primary == PrimaryOf(r.d, horizon, resolved)
  {
    var entry, ms := EntryAt(decisionAt), MinutesOf(minutes);
    var d := ScanAndFlag(ms, entry, horizon);
    FlaggedIffProblem(d, ms, entry, horizon);
    if d.missingMinutes == horizon + 1 {
      if resolved { return HardError("a row with no bar in its path cannot have been resolved"); }
    } else if Flagged(d, horizon) {
      if resolved { return HardError("a row with a path problem was recorded as resolved"); }
    }
    r := Diagnosed(d.(primary := PrimaryOf(d, horizon, resolved)));
  }

  // ---- the reader against the taxonomy ------------------------------------------------------

  /** Both loaders read the same stored bars. */
  ghost predicate SameBars(bars: map<int, Bar>, minutes: map<int, MinuteState>, raw: seq<RawBar>) {
    (forall t :: Find(bars, t) == LastCopy(raw, t)) && GroupsOf(minutes, raw)
  }

  ghost predicate HasIncompleteCopy(raw: seq<RawBar>, t: int) {
    exists k :: IncompleteCopy(raw, t, k)
  }

  ghost predicate IncompleteCopy(raw: seq<RawBar>, t: int, k: int) {
    0 <= k < |raw| && raw[k].at == t && !raw[k].complete
  }

  lemma {:induction false} CopiesAgree(raw: seq<RawBar>, t: int)
    ensures Grouped(raw, t).None? <==> LastCopy(raw, t).None?
    ensures Grouped(raw, t).Some? ==> (!Grouped(raw, t).value.complete <==> HasIncompleteCopy(raw, t))
    ensures Grouped(raw, t).Some? && Grouped(raw, t).value.complete ==> LastCopy(raw, t).value.complete
    ensures Grouped(raw, t).None? ==> forall k :: !IncompleteCopy(raw, t, k)
  {
    if raw != [] {
      var front := raw[..|raw| - 1];
      CopiesAgree(front, t);
      forall k | k < |front| ensures IncompleteCopy(raw, t, k) <==> IncompleteCopy(front, t, k) { }
      if raw[|raw| - 1].at == t && !raw[|raw| - 1].complete { assert IncompleteCopy(raw, t, |raw| - 1); }
    }
  }

  /** A path minute that the taxonomy rejects although the reader's copy of it is complete. */
  ghost predicate Overruled(raw: seq<RawBar>, entry: int, horizon: nat, i: int) {
    0 <= i <= horizon && HasIncompleteCopy(raw, entry + i)
  }

  lemma {:induction false} ProblemAt(bars: map<int, Bar>, minutes: map<int, MinuteState>, raw: seq<RawBar>, entry: int,
        horizon: nat, i: int)
    requires SameBars(bars, minutes, raw) && 0 <= i <= horizon && Usable(bars, entry + i)
    ensures IsProblem(minutes, entry, horizon, i) <==> Overruled(raw, entry, horizon, i)
  {
    CopiesAgree(raw, entry + i);
    assert Find(bars, entry + i) == LastCopy(raw, entry + i);
    assert Find(minutes, entry + i) == Grouped(raw, entry + i);
  }

  /**
   * Rows the reader resolves reach the hard error exactly when some minute of their path
   * has an incomplete copy stored besides the complete one the reader kept.
   */
  lemma {:induction false} ResolvedRowRefusedIff(bars: map<int, Bar>, minutes: map<int, MinuteState>, raw: seq<RawBar>,
                              decisionAt: int, horizon: nat, read: Option<Outcome>)
    requires SameBars(bars, minutes, raw) && IsRead(bars, decisionAt, horizon, EveryMinute, read) && read.Some?
    ensures HasProblem(minutes, EntryAt(decisionAt), horizon)
       <==> exists i :: Overruled(raw, EntryAt(decisionAt), horizon, i)
  {
    var entry := EntryAt(decisionAt);
    forall i | 0 <= i <= horizon
      ensures IsProblem(minutes, entry, horizon, i) <==> Overruled(raw, entry, horizon, i)
    {
      assert Checked(EveryMinute, horizon, i);
      ProblemAt(bars, minutes, raw, entry, horizon, i);
    }
    if HasProblem(minutes, entry, horizon) {
      var i :| Absent(minutes, entry, horizon, i) || Incomplete(minutes, entry, horizon, i);
      assert IsProblem(minutes, entry, horizon, i);
    }
    if i :| Overruled(raw, entry, horizon, i) { assert IsProblem(minutes, entry, horizon, i); }
  }

  /** With every minute stored at most once, no problem is reported exactly when the reader's path is complete. */
  lemma {:induction false} DiagnosisMatchesReader(bars: map<int, Bar>, minutes: map<int, MinuteState>, raw: seq<RawBar>,
        entry: int, horizon: nat)
    requires SameBars(bars, minutes, raw)
    requires forall j, k :: 0 <= j < k < |raw| ==> raw[j].at != raw[k].at
    ensures !HasProblem(minutes, entry, horizon)
       <==> forall i :: Checked(EveryMinute, horizon, i) ==> Usable(bars, entry + i)
  {
    forall i | Checked(EveryMinute, horizon, i)
      ensures IsProblem(minutes, entry, horizon, i) <==> !Usable(bars, entry + i)
    {
      assert Find(bars, entry + i) == LastCopy(raw, entry + i);
      assert Find(minutes, entry + i) == Grouped(raw, entry + i);
      CopiesAgree(raw, entry + i);
      if Usable(bars, entry + i) { OnlyCopy(raw, entry + i); }
    }
    if HasProblem(minutes, entry, horizon) {
      var i :| Absent(minutes, entry, horizon, i) || Incomplete(minutes, entry, horizon, i);
      assert Checked(EveryMinute, horizon, i) && IsProblem(minutes, entry, horizon, i);
    } else {
      forall i | Checked(EveryMinute, horizon, i) ensures Usable(bars, entry + i) {
        assert !IsProblem(minutes, entry, horizon, i);
      }
    }
  }

  lemma {:induction false} OnlyCopy(raw: seq<RawBar>, t: int)
    requires forall j, k :: 0 <= j < k < |raw| ==> raw[j].at != raw[k].at
    requires LastCopy(raw, t).Some? && LastCopy(raw, t).value.complete
    ensures forall k :: !IncompleteCopy(raw, t, k)
  {
    if raw[|raw| - 1].at != t {
      OnlyCopy(raw[..|raw| - 1], t);
      forall k ensures !IncompleteCopy(raw, t, k) { assert !IncompleteCopy(raw[..|raw| - 1], t, k); }
    }
  }

  /**
   * A stored duplicate does make the two disagree. The minute after decision 0 is stored
   * twice, incomplete and then complete: with a horizon of 0 the reader resolves the row
   * and the taxonomy finds a problem in its path, which is the hard error.
   */
  lemma {:induction false} DuplicateCopyDisagrees()
    returns (raw: seq<RawBar>, bars: map<int, Bar>, minutes: map<int, MinuteState>)
    ensures SameBars(bars, minutes, raw)
    ensures IsRead(bars, 0, 0, EveryMinute, Some(Outcome(1.0, 2.0)))
    ensures HasProblem(minutes, EntryAt(0), 0)
  {
    var stale, kept := RawBar(1, Some(1.0), Some(2.0), false, false), RawBar(1, Some(1.0), Some(2.0), true, false);
    raw := [stale, kept];
    bars := map[1 := Bar(Some(1.0), Some(2.0), true)];
    minutes := map[1 := MinuteState(false, false)];
    assert raw[..1] == [stale] && [stale][..0] == [];
    forall t ensures Find(bars, t) == LastCopy(raw, t) && Find(minutes, t) == Grouped(raw, t) {
      assert Grouped([stale], t) == if t == 1 then Some(MinuteState(false, false)) else None;
      assert LastCopy([stale], t) == if t == 1 then Some(Bar(Some(1.0), Some(2.0), false)) else None;
    }
    assert Incomplete(minutes, EntryAt(0), 0, 0);
  }

  /** Without a path problem, the reader leaves a row unresolved only for want of a price. */
  lemma {:induction false} UnexplainedMeansUnpriced(bars: map<int, Bar>, minutes: map<int, MinuteState>,
        raw: seq<RawBar>, decisionAt: int, horizon: nat, read: Option<Outcome>)
    requires SameBars(bars, minutes, raw) && IsRead(bars, decisionAt, horizon, EveryMinute, read)
    requires !HasProblem(minutes, EntryAt(decisionAt), horizon)
    ensures var entry := EntryAt(decisionAt);
      && Usable(bars, entry) && Usable(bars, entry + horizon)
      && (read.None? <==> bars[entry].open.None? || bars[entry + horizon].close.None?)
  {
    var entry := EntryAt(decisionAt);
    forall i | Checked(EveryMinute, horizon, i) ensures Usable(bars, entry + i) {
      assert !Absent(minutes, entry, horizon, i) && !Incomplete(minutes, entry, horizon, i);
      assert Find(bars, entry + i) == LastCopy(raw, entry + i);
      assert Find(minutes, entry + i) == Grouped(raw, entry + i);
      CopiesAgree(raw, entry + i);
    }
    assert Checked(EveryMinute, horizon, 0) && Checked(EveryMinute, horizon, horizon);
    assert entry + 0 == entry;
  }
}
