/**
 * F24(t): settled funding in (t - 24 h, t], from prefix sums, against the direct sum.
 */
module CarrySignal {
  import opened Wrappers

  const HOUR_MS: int := 3_600_000
  const DAY_MS: int := 24 * HOUR_MS
  const MAX_SETTLEMENT_GAP_MS: int := 8 * HOUR_MS

  datatype Settlement = Settlement(ts: int, rate: real)

  /** Settlements in time order, as a loaded series holds them; equal times are possible. */
  ghost predicate InOrder(funding: seq<Settlement>) {
    forall i, j :: 0 <= i < j < |funding| ==> funding[i].ts <= funding[j].ts
  }

  /** Number of settlements at or before `t`. */
  function BisectRight(funding: seq<Settlement>, t: int): (k: nat)
    requires InOrder(funding)
    ensures k <= |funding|
    ensures forall i :: 0 <= i < k ==> funding[i].ts <= t
    ensures forall i :: k <= i < |funding| ==> funding[i].ts > t
  {
    if funding == [] || funding[0].ts > t then 0 else 1 + BisectRight(funding[1..], t)
  }

  // ---- the direct definition ------------------------------------------------------------

  /** The sum of the rates settled in (after, upTo]. */
  function DirectSum(funding: seq<Settlement>, after: int, upTo: int): real {
    if funding == [] then 0.0
    else
      var front, s := funding[..|funding| - 1], funding[|funding| - 1];
      DirectSum(front, after, upTo) + if after < s.ts <= upTo then s.rate else 0.0
  }

  /** Some settlement is at or before the start of the day that ends at `t`. */
  ghost predicate Covered(funding: seq<Settlement>, t: int) {
    exists i :: 0 <= i < |funding| && funding[i].ts <= t - DAY_MS
  }

  /** Settlement k falls in the day and comes more than the allowed gap after the one before it. */
  ghost predicate LateSettlement(funding: seq<Settlement>, t: int, k: int) {
    0 < k < |funding| && t - DAY_MS < funding[k].ts <= t && funding[k].ts - funding[k - 1].ts > MAX_SETTLEMENT_GAP_MS
  }

  /** No settlement in the last allowed gap before `t`. */
  ghost predicate Silent(funding: seq<Settlement>, t: int) {
    forall i :: 0 <= i < |funding| ==> !(t - MAX_SETTLEMENT_GAP_MS <= funding[i].ts <= t)
  }

  // ---- the prefix sums ------------------------------------------------------------------

  function RateSum(funding: seq<Settlement>): real {
    if funding == [] then 0.0 else RateSum(funding[..|funding| - 1]) + funding[|funding| - 1].rate
  }

  function GapCount(funding: seq<Settlement>): nat {
    if |funding| < 2 then 0
    else GapCount(funding[..|funding| - 1])
         + if funding[|funding| - 1].ts - funding[|funding| - 2].ts > MAX_SETTLEMENT_GAP_MS then 1 else 0
  }

  /** Summing from the start or between two bounds skips the same settlements. */
  lemma {:induction false} DirectUpTo(funding: seq<Settlement>, after: int, upTo: int)
    requires after <= upTo
    ensures DirectSum(funding, after, upTo) == SumUpTo(funding, upTo) - SumUpTo(funding, after)
  {
    if funding != [] { DirectUpTo(funding[..|funding| - 1], after, upTo); }
  }

  function SumUpTo(funding: seq<Settlement>, t: int): real {
    if funding == [] then 0.0
    else SumUpTo(funding[..|funding| - 1], t)
         + if funding[|funding| - 1].ts <= t then funding[|funding| - 1].rate else 0.0
  }

  lemma {:induction false} SumUpToIsPrefix(funding: seq<Settlement>, t: int)
    requires InOrder(funding)
    ensures SumUpTo(funding, t) == RateSum(funding[..BisectRight(funding, t)])
  {
    if funding == [] {
      assert funding[..0] == [];
    } else {
      var front := funding[..|funding| - 1];
      BisectFront(funding, t);
      SumUpToIsPrefix(front, t);
      if funding[|funding| - 1].ts <= t {
        assert funding[..|funding|] == funding;
        AllCounted(front, t);
      } else {
        assert front[..BisectRight(front, t)] == funding[..BisectRight(funding, t)];
      }
    }
  }

  lemma {:induction false} AllCounted(funding: seq<Settlement>, t: int)
    requires InOrder(funding) && SumUpTo(funding, t) == RateSum(funding[..BisectRight(funding, t)])
    ensures (forall i :: 0 <= i < |funding| ==> funding[i].ts <= t) ==> SumUpTo(funding, t) == RateSum(funding)
  {
    assert funding[..|funding|] == funding;
  }

  lemma {:induction false} DirectIsPrefixDifference(funding: seq<Settlement>, after: int, upTo: int)
    requires InOrder(funding) && after <= upTo
    ensures var lo, hi := BisectRight(funding, after), BisectRight(funding, upTo);
      lo <= hi && DirectSum(funding, after, upTo) == RateSum(funding[..hi]) - RateSum(funding[..lo])
  {
    DirectUpTo(funding, after, upTo);
    SumUpToIsPrefix(funding, after);
    SumUpToIsPrefix(funding, upTo);
  }

  lemma {:induction false} BisectFront(funding: seq<Settlement>, t: int)
    requires InOrder(funding) && funding != []
    ensures InOrder(funding[..|funding| - 1])
    ensures BisectRight(funding, t)
         == if funding[|funding| - 1].ts <= t then |funding| else BisectRight(funding[..|funding| - 1], t)
  {
    var front := funding[..|funding| - 1];
    var k, n := BisectRight(front, t), BisectRight(funding, t);
    assert forall i :: 0 <= i < |front| ==> front[i] == funding[i];
    if funding[|funding| - 1].ts > t {
      assert n <= |front|;
      assert k < |front| ==> front[k].ts > t;
      assert funding[n].ts > t;
    }
  }

  /** Settlement k, from position lo and before hi, comes long after the one before it. */
  ghost predicate IsLateGap(funding: seq<Settlement>, lo: nat, hi: nat, k: int) {
    0 < lo <= k < hi <= |funding| && funding[k].ts - funding[k - 1].ts > MAX_SETTLEMENT_GAP_MS
  }

  lemma {:induction false} GapCountGrows(funding: seq<Settlement>, lo: nat, hi: nat)
    requires 1 <= lo <= hi <= |funding|
    ensures GapCount(funding[..lo]) <= GapCount(funding[..hi])
    ensures GapCount(funding[..lo]) < GapCount(funding[..hi]) <==> exists k :: IsLateGap(funding, lo, hi, k)
  {
    if lo < hi {
      GapCountGrows(funding, lo, hi - 1);
      assert funding[..hi][..hi - 1] == funding[..hi - 1];
      assert funding[..hi][hi - 1] == funding[hi - 1] && (hi > 1 ==> funding[..hi][hi - 2] == funding[hi - 2]);
      assert GapCount(funding[..hi - 1]) < GapCount(funding[..hi]) <==> IsLateGap(funding, lo, hi, hi - 1);
      var front := hi - 1;
      if k :| IsLateGap(funding, lo, hi, k) { assert k == front || IsLateGap(funding, lo, front, k); }
      if k :| IsLateGap(funding, lo, front, k) { assert IsLateGap(funding, lo, hi, k); }
    }
  }

  /** Entry k counts the long gaps among the first k + 1 settlements. */
  ghost predicate IsGapPrefix(funding: seq<Settlement>, gaps: seq<int>) {
    && |gaps| == (if funding == [] then 1 else |funding|)
    && forall k :: 0 <= k < |gaps| && k < |funding| ==> gaps[k] == GapCount(funding[..k + 1])
  }

  lemma {:induction false} GapDifference(funding: seq<Settlement>, gaps: seq<int>, lo: nat, hi: nat)
    requires IsGapPrefix(funding, gaps) && 0 < lo <= hi <= |funding|
    ensures gaps[hi - 1] - gaps[lo - 1] == GapCount(funding[..hi]) - GapCount(funding[..lo])
  {
  }

  lemma {:induction false} SilentIff(funding: seq<Settlement>, t: int)
    requires InOrder(funding) && BisectRight(funding, t) > 0
    ensures t - funding[BisectRight(funding, t) - 1].ts > MAX_SETTLEMENT_GAP_MS <==> Silent(funding, t)
  {
  }

  lemma {:induction false} LateIff(funding: seq<Settlement>, t: int)
    requires InOrder(funding) && 0 < BisectRight(funding, t - DAY_MS) <= BisectRight(funding, t)
    ensures GapCount(funding[..BisectRight(funding, t)]) - GapCount(funding[..BisectRight(funding, t - DAY_MS)]) > 0
       <==> exists k :: LateSettlement(funding, t, k)
  {
    var lo, hi := BisectRight(funding, t - DAY_MS), BisectRight(funding, t);
    GapCountGrows(funding, lo, hi);
    forall k ensures IsLateGap(funding, lo, hi, k) <==> LateSettlement(funding, t, k) { LateAt(funding, t, k); }
  }

  lemma {:induction false} LateAt(funding: seq<Settlement>, t: int, k: int)
    requires InOrder(funding) && 0 < BisectRight(funding, t - DAY_MS)
    ensures IsLateGap(funding, BisectRight(funding, t - DAY_MS), BisectRight(funding, t), k)
       <==> LateSettlement(funding, t, k)
  {
  }

  /** The two bisections decide coverage, silence and gaps. */
  lemma {:induction false} BoundsMean(funding: seq<Settlement>, t: int)
    requires InOrder(funding)
    ensures var lo, hi := BisectRight(funding, t - DAY_MS), BisectRight(funding, t);
      && (lo > 0 <==> Covered(funding, t))
      && (hi > 0 ==> (t - funding[hi - 1].ts > MAX_SETTLEMENT_GAP_MS <==> Silent(funding, t)))
      && (0 < lo <= hi ==> (GapCount(funding[..hi]) - GapCount(funding[..lo]) > 0
                            <==> exists k :: LateSettlement(funding, t, k)))
  {
    var lo, hi := BisectRight(funding, t - DAY_MS), BisectRight(funding, t);
    if lo > 0 { assert funding[0].ts <= t - DAY_MS; }
    if hi > 0 { SilentIff(funding, t); }
    if 0 < lo <= hi { LateIff(funding, t); }
  }

  class Signal {
    var funding: seq<Settlement>
    var prefix: seq<real>
    var gapPrefix: seq<int>

    ghost predicate Valid()
      reads this
    {
      && InOrder(funding)
      && |prefix| == |funding| + 1 && (forall k :: 0 <= k <= |funding| ==> prefix[k] == RateSum(funding[..k]))
      && IsGapPrefix(funding, gapPrefix)
    }

    constructor (funding: seq<Settlement>)
      requires InOrder(funding)
      ensures Valid() && this.funding == funding
    {
      var p := BuildPrefix(funding);
      var g := BuildGapPrefix(funding);
      this.funding, prefix, gapPrefix := funding, p, g;
    }

    /** Unavailable exactly when the day is uncovered, silent at its end, or broken by a long gap. */
    method F24(t: int) returns (r: Option<real>)
      requires Valid()
      ensures r.None? <==> !Covered(funding, t) || Silent(funding, t) || exists k :: LateSettlement(funding, t, k)
      ensures r.Some? ==> r.value == DirectSum(funding, t - DAY_MS, t) * 10_000.0
    {
      var hi := BisectRight(funding, t);
      var lo := BisectRight(funding, t - DAY_MS);
      DirectIsPrefixDifference(funding, t - DAY_MS, t);
      BoundsMean(funding, t);
      if lo == 0 || hi == 0 || t - funding[hi - 1].ts > MAX_SETTLEMENT_GAP_MS { return None; }
      GapDifference(funding, gapPrefix, lo, hi);
      if gapPrefix[hi - 1] - gapPrefix[lo - 1] > 0 { return None; }
      r := Some((prefix[hi] - prefix[lo]) * 10_000.0);
    }
  }

  method BuildPrefix(funding: seq<Settlement>) returns (prefix: seq<real>)
    ensures |prefix| == |funding| + 1
    ensures forall k :: 0 <= k <= |funding| ==> prefix[k] == RateSum(funding[..k])
  {
    prefix := [0.0];
    for i := 0 to |funding|
      invariant |prefix| == i + 1
      invariant forall k :: 0 <= k <= i ==> prefix[k] == RateSum(funding[..k])
    {
      assert funding[..i + 1][..i] == funding[..i];
      prefix := prefix + [prefix[|prefix| - 1] + funding[i].rate];
    }
  }

  method BuildGapPrefix(funding: seq<Settlement>) returns (gaps: seq<int>)
    ensures IsGapPrefix(funding, gaps)
  {
    gaps := [0];
    var i := 1;
    while i < |funding|
      invariant 1 <= i && |gaps| == i && (if funding == [] then i == 1 else i <= |funding|)
      invariant forall k :: 0 <= k < i && k < |funding| ==> gaps[k] == GapCount(funding[..k + 1])
      decreases |funding| - i
    {
      assert funding[..i + 1][..i] == funding[..i];
      var gap := funding[i].ts - funding[i - 1].ts > MAX_SETTLEMENT_GAP_MS;
      gaps := gaps + [gaps[i - 1] + if gap then 1 else 0];
      i := i + 1;
    }
  }
}
