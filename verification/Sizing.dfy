/**
 * Four-sided sizing of a spot-perpetual pair: one quantity on a step both venues accept,
 * walked through both sides of both books, shrunk until every notional fits the target.
 */
module Sizing {
  import opened Wrappers

  const TARGET_USD: real := 50.0
  const TAKER_FEE_BPS: real := 10.0
  const BOOK_AGE_MIN_MS: int := -1000
  const BOOK_AGE_MAX_MS: int := 2000
  const MAX_BOOK_SKEW_MS: int := 1000
  const MAX_ROUNDS: nat := 12

  // ---- the common step ----------------------------------------------------------------------

  /** A positive decimal, coefficient times a power of ten. */
  datatype Decimal = Decimal(coefficient: nat, exponent: int)

  function Pow10(n: nat): (r: nat)
    ensures r > 0
  {
    if n == 0 then 1 else 10 * Pow10(n - 1)
  }

  function Digits(d: Decimal): nat { if d.exponent < 0 then -d.exponent else 0 }

  /** How many of 1/10^places make up `d`; exact when `places` covers its digits. */
  function Units(d: Decimal, places: nat): nat
    requires Digits(d) <= places
  {
    d.coefficient * Pow10(places + d.exponent)
  }

  lemma {:induction false} MultiplesOrdered(b: nat, x: nat, y: nat)
    requires x <= y
    ensures b * x <= b * y
  {
  }

  lemma {:induction false} ExactDivision(x: nat, b: nat, q: nat)
    requires b > 0 && x == b * q
    ensures x % b == 0 && x / b == q
  {
    var d := x / b;
    assert x == b * d + x % b;
    if d < q { MultiplesOrdered(b, d + 1, q); }
    if d > q { MultiplesOrdered(b, q + 1, d); }
  }

  /** The least k' >= k for which k' * a is a multiple of b. */
  function LeastFactor(a: nat, b: nat, k: nat): (r: nat)
    requires a > 0 && 0 < k <= b
    ensures k <= r <= b && (r * a) % b == 0
    ensures forall x :: k <= x < r ==> (x * a) % b != 0
    decreases b - k
  {
    ExactDivision(b * a, b, a);
    if (k * a) % b == 0 then k
    else LeastFactor(a, b, k + 1)
  }

  function Lcm(a: nat, b: nat): (m: nat)
    requires a > 0 && b > 0
  {
    LeastFactor(a, b, 1) * a
  }

  /** The least common multiple: a positive multiple of both, and no smaller one exists. */
  lemma {:induction false} LcmIsLeast(a: nat, b: nat)
    requires a > 0 && b > 0
    ensures Lcm(a, b) > 0 && Lcm(a, b) % a == 0 && Lcm(a, b) % b == 0
    ensures forall m :: 0 < m < Lcm(a, b) && m % a == 0 ==> m % b != 0
  {
    var f := LeastFactor(a, b, 1);
    MultiplesOrdered(a, 1, f);
    assert Lcm(a, b) == a * f;
    ExactDivision(Lcm(a, b), a, f);
    forall m | 0 < m < Lcm(a, b) && m % a == 0 ensures m % b != 0 {
      var x := m / a;
      assert m == a * x == x * a;
      if x >= f { MultiplesOrdered(a, f, x); }
    }
  }

  /** Step of the pair in units of 1/10^places. */
  datatype Grid = Grid(places: nat, spot: nat, perp: nat, common: nat)

  function Places(a: Decimal, b: Decimal): nat {
    if Digits(a) >= Digits(b) then Digits(a) else Digits(b)
  }

  function CommonStep(a: Decimal, b: Decimal): (g: Grid)
    requires a.coefficient > 0 && b.coefficient > 0
    ensures g.spot > 0 && g.perp > 0 && g.common > 0
  {
    var places := Places(a, b);
    UnitsPositive(a, places);
    UnitsPositive(b, places);
    var x, y := Units(a, places), Units(b, places);
    LcmIsLeast(x, y);
    Grid(places, x, y, Lcm(x, y))
  }

  lemma {:induction false} UnitsPositive(d: Decimal, places: nat)
    requires Digits(d) <= places && d.coefficient > 0
    ensures Units(d, places) > 0
  {
    MultiplesOrdered(Pow10(places + d.exponent), 1, d.coefficient);
  }

  // ---- books --------------------------------------------------------------------------------

  datatype Level = Level(price: real, depth: real)

  /** A book answer: None for levels that could not be parsed. */
  datatype Answer = Answer(accepted: bool, symbol: string, ts: int, levels: Option<(seq<Level>, seq<Level>)>)

  datatype Book = Book(bids: seq<Level>, asks: seq<Level>, ts: int)

  datatype Checked<T> = Ok(value: T) | Refused(reason: string)

  predicate AllPositive(levels: seq<Level>) {
    forall i :: 0 <= i < |levels| ==> levels[i].price > 0.0 && levels[i].depth > 0.0
  }

  predicate Falling(levels: seq<Level>) {
    forall i :: 0 <= i < |levels| - 1 ==> levels[i].price >= levels[i + 1].price
  }

  predicate Rising(levels: seq<Level>) {
    forall i :: 0 <= i < |levels| - 1 ==> levels[i].price <= levels[i + 1].price
  }

  ghost predicate SoundBook(b: Book) {
    && b.bids != [] && b.asks != [] && AllPositive(b.bids) && AllPositive(b.asks)
    && Falling(b.bids) && Rising(b.asks) && b.bids[0].price < b.asks[0].price
  }

  /** An accepted book is nonempty, positive, sorted, uncrossed and fresh. */
  function CheckBook(a: Answer, symbol: string, receivedMs: int): (r: Checked<Book>)
    ensures r.Ok? ==> SoundBook(r.value) && BOOK_AGE_MIN_MS <= receivedMs - r.value.ts <= BOOK_AGE_MAX_MS
    ensures r.Ok? ==> a.symbol == symbol && a.levels == Some((r.value.bids, r.value.asks)) && r.value.ts == a.ts
  {
    if !a.accepted then Refused("book_ret_code")
    else if a.symbol != symbol then Refused("book_symbol_mismatch")
    else if a.levels.None? then Refused("book_malformed")
    else
      var (bids, asks) := a.levels.value;
      if bids == [] || asks == [] || !AllPositive(bids) || !AllPositive(asks) then Refused("book_empty_or_nonpositive")
      else if !Falling(bids) || !Rising(asks) then Refused("book_unsorted")
      else if bids[0].price >= asks[0].price then Refused("book_crossed")
      else if !(BOOK_AGE_MIN_MS <= receivedMs - a.ts <= BOOK_AGE_MAX_MS) then Refused("book_stale")
      else Ok(Book(bids, asks, a.ts))
  }

  // ---- walking a side -----------------------------------------------------------------------

  function Lesser(a: real, b: real): real { if a <= b then a else b }

  function Cost(fill: real, price: real): real { fill * price }

  /** What `qty` costs when it takes the levels in order; None when they are too thin. */
  function Walk(levels: seq<Level>, qty: real): Option<real> {
    if levels == [] then None
    else
      var fill := Lesser(levels[0].depth, qty);
      if qty - fill <= 0.0 then Some(Cost(fill, levels[0].price))
      else
        var rest := Walk(levels[1..], qty - fill);
        if rest.None? then None else Some(Cost(fill, levels[0].price) + rest.value)
  }

  function AddTo(total: real, rest: Option<real>): Option<real> {
    if rest.None? then None else Some(total + rest.value)
  }

  method VwapNotional(levels: seq<Level>, qty: real) returns (r: Option<real>)
    ensures r == Walk(levels, qty)
  {
    var remaining, total := qty, 0.0;
    for i := 0 to |levels|
      invariant Walk(levels, qty) == AddTo(total, Walk(levels[i..], remaining))
    {
      var fill := Lesser(levels[i].depth, remaining);
      assert levels[i..][1..] == levels[i + 1..] && levels[i..][0] == levels[i];
      total := total + Cost(fill, levels[i].price);
      remaining := remaining - fill;
      if remaining <= 0.0 { return Some(total); }
    }
    r := None;
  }

  lemma {:induction false} CostAtLeast(fill: real, price: real, p: real)
    requires fill >= 0.0 && price >= p
    ensures Cost(fill, price) >= Cost(fill, p)
  {
  }

  lemma {:induction false} CostAtMost(fill: real, price: real, p: real)
    requires fill >= 0.0 && price <= p
    ensures Cost(fill, price) <= Cost(fill, p)
  {
  }

  lemma {:induction false} CostSplits(a: real, b: real, p: real)
    ensures Cost(a + b, p) == Cost(a, p) + Cost(b, p)
  {
  }

  /** Levels priced at least p cost at least p per unit. */
  lemma {:induction false} WalkAtLeast(levels: seq<Level>, qty: real, p: real)
    requires qty > 0.0 && AllPositive(levels) && Walk(levels, qty).Some?
    requires forall i :: 0 <= i < |levels| ==> levels[i].price >= p
    ensures Walk(levels, qty).value >= Cost(qty, p)
  {
    var fill := Lesser(levels[0].depth, qty);
    CostAtLeast(fill, levels[0].price, p);
    if qty - fill > 0.0 {
      WalkAtLeast(levels[1..], qty - fill, p);
      CostSplits(fill, qty - fill, p);
    }
  }

  /** Levels priced at most p cost at most p per unit. */
  lemma {:induction false} WalkAtMost(levels: seq<Level>, qty: real, p: real)
    requires qty > 0.0 && AllPositive(levels) && Walk(levels, qty).Some?
    requires forall i :: 0 <= i < |levels| ==> levels[i].price <= p
    ensures Walk(levels, qty).value <= Cost(qty, p)
  {
    var fill := Lesser(levels[0].depth, qty);
    CostAtMost(fill, levels[0].price, p);
    if qty - fill > 0.0 {
      WalkAtMost(levels[1..], qty - fill, p);
      CostSplits(fill, qty - fill, p);
    }
  }

  lemma {:induction false} FallingFromFirst(levels: seq<Level>, i: nat)
    requires Falling(levels) && i < |levels|
    ensures levels[i].price <= levels[0].price
  {
    if i > 0 { FallingFromFirst(levels, i - 1); assert levels[i - 1].price >= levels[i - 1 + 1].price; }
  }

  lemma {:induction false} RisingFromFirst(levels: seq<Level>, i: nat)
    requires Rising(levels) && i < |levels|
    ensures levels[i].price >= levels[0].price
  {
    if i > 0 { RisingFromFirst(levels, i - 1); assert levels[i - 1].price <= levels[i - 1 + 1].price; }
  }

  lemma {:induction false} StrictCost(qty: real, low: real, high: real)
    requires qty > 0.0 && low < high
    ensures Cost(qty, low) < Cost(qty, high)
  {
  }

  /** Buying through a sound book costs strictly more than selling through it. */
  lemma {:induction false} BuyingCostsMore(b: Book, qty: real)
    requires SoundBook(b) && qty > 0.0 && Walk(b.asks, qty).Some? && Walk(b.bids, qty).Some?
    ensures Walk(b.asks, qty).value > Walk(b.bids, qty).value
    ensures Walk(b.asks, qty).value > 0.0
  {
    forall i | 0 <= i < |b.asks| ensures b.asks[i].price >= b.asks[0].price { RisingFromFirst(b.asks, i); }
    forall i | 0 <= i < |b.bids| ensures b.bids[i].price <= b.bids[0].price { FallingFromFirst(b.bids, i); }
    WalkAtLeast(b.asks, qty, b.asks[0].price);
    WalkAtMost(b.bids, qty, b.bids[0].price);
    StrictCost(qty, b.bids[0].price, b.asks[0].price);
    StrictCost(qty, 0.0, b.asks[0].price);
    assert Cost(qty, 0.0) == 0.0;
  }

  // ---- less costs less per unit ---------------------------------------------------------------

  /** Levels that hold a quantity hold any smaller one. */
  lemma {:induction false} WalkThinner(levels: seq<Level>, r: real, q: real)
    requires 0.0 < r <= q && AllPositive(levels) && Walk(levels, q).Some?
    ensures Walk(levels, r).Some?
  {
    if r > levels[0].depth { WalkThinner(levels[1..], r - levels[0].depth, q - levels[0].depth); }
  }

  /** Where all levels cost at least p, every further unit does. */
  lemma {:induction false} WalkMargin(levels: seq<Level>, r: real, q: real, p: real)
    requires 0.0 < r <= q && AllPositive(levels) && Walk(levels, q).Some? && Walk(levels, r).Some?
    requires forall i :: 0 <= i < |levels| ==> levels[i].price >= p
    ensures Walk(levels, q).value - Walk(levels, r).value >= Cost(q - r, p)
  {
    var d, price := levels[0].depth, levels[0].price;
    if q <= d {
      CostSplits(q - r, r, price);
      CostAtLeast(q - r, price, p);
    } else if r <= d {
      WalkAtLeast(levels[1..], q - d, p);
      CostSplits(d - r, r, price);
      CostAtLeast(d - r, price, p);
      CostSplits(d - r, q - d, p);
    } else {
      WalkMargin(levels[1..], r - d, q - d, p);
    }
  }

  lemma {:induction false} CombineLevels(d: real, p: real, q: real, r: real, wq: real, wr: real)
    requires d >= 0.0 && Cost(wr, q) <= Cost(wq, r) && wq - wr >= Cost(q - r, p)
    ensures Cost(Cost(d, p) + wr, d + q) <= Cost(Cost(d, p) + wq, d + r)
  {
    var gap := wq - wr - Cost(q - r, p);
    assert d * gap >= 0.0;
    calc {
      Cost(Cost(d, p) + wq, d + r) - Cost(Cost(d, p) + wr, d + q);
      (d * p + wq) * (d + r) - (d * p + wr) * (d + q);
      { assert (d * p + wq) * (d + r) == d * p * d + d * p * r + wq * d + wq * r; }
      { assert (d * p + wr) * (d + q) == d * p * d + d * p * q + wr * d + wr * q; }
      d * p * r - d * p * q + (wq * d - wr * d) + (wq * r - wr * q);
      { assert d * gap == d * wq - d * wr - (d * p * q - d * p * r); }
      d * gap + (wq * r - wr * q);
    }
  }

  /** Walking rising levels: the smaller quantity never costs more per unit than the larger. */
  lemma {:induction false} WalkConvex(levels: seq<Level>, r: real, q: real)
    requires 0.0 < r <= q && AllPositive(levels) && Rising(levels) && Walk(levels, q).Some? && Walk(levels, r).Some?
    ensures Cost(Walk(levels, r).value, q) <= Cost(Walk(levels, q).value, r)
  {
    var d, p := levels[0].depth, levels[0].price;
    forall i | 0 <= i < |levels| ensures levels[i].price >= p { RisingFromFirst(levels, i); }
    if r <= d {
      WalkAtLeast(levels, q, p);
      assert Walk(levels, r).value == Cost(r, p);
      Regroup(r, p, q);
      Scales(Cost(q, p), Walk(levels, q).value, r);
    } else {
      var rest := levels[1..];
      WalkConvex(rest, r - d, q - d);
      WalkMargin(rest, r - d, q - d, p);
      CombineLevels(d, p, q - d, r - d, Walk(rest, q - d).value, Walk(rest, r - d).value);
    }
  }

  lemma {:induction false} Regroup(r: real, p: real, q: real)
    ensures Cost(Cost(r, p), q) == Cost(Cost(q, p), r)
  {
  }

  // ---- one pair -----------------------------------------------------------------------------

  /** Limits are positive: a pair whose catalogue lacks one is excluded before it gets here. */
  datatype Pair = Pair(spotId: string, perpId: string, spotStep: Decimal, perpStep: Decimal,
                       spotMinAmount: real, perpMinQty: real, perpMinNotional: real,
                       spotMaxQty: Option<real>, perpMaxQty: Option<real>)

  ghost predicate ValidPair(p: Pair) {
    && p.spotStep.coefficient > 0 && p.perpStep.coefficient > 0
    && p.spotMinAmount > 0.0 && p.perpMinQty > 0.0 && p.perpMinNotional > 0.0
  }

  datatype Sides = Sides(spotBuy: real, spotSell: real, perpSell: real, perpBuy: real)

  function Sum(s: Sides): real { s.spotBuy + s.spotSell + s.perpSell + s.perpBuy }

  function Greater(a: real, b: real): real { if a >= b then a else b }

  function Top(s: Sides): real { Greater(Greater(s.spotBuy, s.spotSell), Greater(s.perpSell, s.perpBuy)) }

  /** k common steps as a quantity. */
  function Quantity(g: Grid, k: nat): real { (k * g.common) as real / Pow10(g.places) as real }

  function StepSize(g: Grid): real { g.common as real / Pow10(g.places) as real }

  lemma {:induction false} QuantityPositive(g: Grid, k: nat)
    requires g.common > 0 && k > 0
    ensures Quantity(g, k) > 0.0 && StepSize(g) > 0.0
  {
    MultiplesOrdered(g.common, 1, k);
    assert k * g.common == g.common * k;
    PositiveQuotient((k * g.common) as real, Pow10(g.places) as real);
    PositiveQuotient(g.common as real, Pow10(g.places) as real);
  }

  lemma {:induction false} PositiveQuotient(a: real, b: real)
    requires a > 0.0 && b > 0.0
    ensures a / b > 0.0
  {
  }

  /** A whole number of common steps is a whole number of either venue's steps. */
  lemma {:induction false} QuantityOnBothSteps(a: Decimal, b: Decimal, k: nat)
    requires a.coefficient > 0 && b.coefficient > 0
    ensures var g := CommonStep(a, b);
      (k * g.common) % g.spot == 0 && (k * g.common) % g.perp == 0
  {
    var g := CommonStep(a, b);
    UnitsPositive(a, g.places);
    UnitsPositive(b, g.places);
    LcmIsLeast(g.spot, g.perp);
    MultipleOfMultiple(g.common, g.spot, k);
    MultipleOfMultiple(g.common, g.perp, k);
  }

  lemma {:induction false} MultipleOfMultiple(m: nat, a: nat, k: nat)
    requires a > 0 && m % a == 0
    ensures (k * m) % a == 0
  {
    var q := m / a;
    assert m == a * q;
    assert k * m == a * (k * q);
    ExactDivision(k * m, a, k * q);
  }

  /** What a quantity costs or brings on each of the four sides; None when one of them is too thin. */
  function Walked(spot: Book, perp: Book, qty: real): Option<Sides> {
    var a, b, c, d := Walk(spot.asks, qty), Walk(spot.bids, qty), Walk(perp.bids, qty), Walk(perp.asks, qty);
    if a.None? || b.None? || c.None? || d.None? then None else Some(Sides(a.value, b.value, c.value, d.value))
  }

  method WalkFourSides(spot: Book, perp: Book, qty: real) returns (r: Option<Sides>)
    ensures r == Walked(spot, perp, qty)
  {
    var a := VwapNotional(spot.asks, qty);
    var b := VwapNotional(spot.bids, qty);
    var c := VwapNotional(perp.bids, qty);
    var d := VwapNotional(perp.asks, qty);
    if a.None? || b.None? || c.None? || d.None? { return None; }
    r := Some(Sides(a.value, b.value, c.value, d.value));
  }

  datatype Sized = Sized(steps: nat, sides: Sides)

  /** The largest number of steps that `target` buys at `unit` per step. */
  function StepsWithin(target: real, unit: real): (k: int)
    requires unit > 0.0
    ensures Cost(k as real, unit) <= target < Cost((k + 1) as real, unit)
  {
    var k := (target / unit).Floor;
    QuotientBounds(target, unit, k);
    k
  }

  lemma {:induction false} QuotientBounds(target: real, unit: real, k: int)
    requires unit > 0.0 && k as real <= target / unit < (k + 1) as real
    ensures Cost(k as real, unit) <= target < Cost((k + 1) as real, unit)
  {
    var q := target / unit;
    assert q * unit == target;
    Scales(k as real, q, unit);
    StrictlyScales(q, (k + 1) as real, unit);
  }

  lemma {:induction false} Scales(a: real, b: real, unit: real)
    requires unit > 0.0 && a <= b
    ensures a * unit <= b * unit
  {
  }

  lemma {:induction false} StrictlyScales(a: real, b: real, unit: real)
    requires unit > 0.0 && a < b
    ensures a * unit < b * unit
  {
  }

  lemma {:induction false} BestAskPositive(spot: Book, perp: Book, g: Grid)
    requires SoundBook(spot) && SoundBook(perp) && g.common > 0
    ensures Cost(StepSize(g), Greater(spot.asks[0].price, perp.asks[0].price)) > 0.0
  {
    QuantityPositive(g, 1);
    StrictCost(StepSize(g), 0.0, Greater(spot.asks[0].price, perp.asks[0].price));
    assert Cost(StepSize(g), 0.0) == 0.0;
  }

  /** The first try: what the target buys at the dearer of the two best asks. */
  function FirstTry(spot: Book, perp: Book, g: Grid): int
    requires SoundBook(spot) && SoundBook(perp) && g.common > 0
  {
    BestAskPositive(spot, perp, g);
    StepsWithin(TARGET_USD, Cost(StepSize(g), Greater(spot.asks[0].price, perp.asks[0].price)))
  }

  /** The number of steps tried after k steps came to `top`, more than the target. */
  function Shrunk(k: nat, top: real): (r: int)
    requires top > 0.0
    ensures r < k && Cost(r as real, top) <= k as real * TARGET_USD
  {
    var fits := StepsWithin(k as real * TARGET_USD, top);
    if fits < k - 1 then fits
    else
      Scales((k - 1) as real, fits as real, top);
      k - 1
  }

  lemma {:induction false} QuantityIsSteps(g: Grid, k: nat)
    ensures Quantity(g, k) == Cost(k as real, StepSize(g))
  {
    var unit := Pow10(g.places) as real;
    assert (k * g.common) as real == k as real * g.common as real;
    Associates(k as real, g.common as real, unit);
  }

  lemma {:induction false} Associates(a: real, b: real, c: real)
    requires c > 0.0
    ensures a * b / c == a * (b / c)
  {
    var q := b / c;
    assert q * c == b;
    assert a * b == a * q * c;
  }

  /** A cost per unit no higher than before brings the shrunk quantity within the target. */
  lemma {:induction false} ShrunkCost(k: nat, m: nat, step: real, top: real, before: real, after: real)
    requires 0 < m < k && step > 0.0 && 0.0 < before <= top && Cost(m as real, top) <= k as real * TARGET_USD
    requires Cost(after, Cost(k as real, step)) <= Cost(before, Cost(m as real, step))
    ensures after <= TARGET_USD
  {
    var x, y := k as real, m as real;
    assert after * x * step <= before * y * step by {
      assert Cost(after, Cost(x, step)) == after * x * step;
      assert Cost(before, Cost(y, step)) == before * y * step;
    }
    Cancels(after * x, before * y, step);
    Scales(before, top, y);
    assert after * x <= TARGET_USD * x;
    Cancels(after, TARGET_USD, x);
  }

  lemma {:induction false} Cancels(a: real, b: real, unit: real)
    requires unit > 0.0 && a * unit <= b * unit
    ensures a <= b
  {
  }

  lemma {:induction false} MoreSteps(m: real, k: real, step: real)
    requires m <= k && step > 0.0
    ensures Cost(m, step) <= Cost(k, step)
  {
  }

  /** One book after a shrink: deep enough, and both its sides within the target. */
  lemma {:induction false} ShrunkBookFits(b: Book, g: Grid, k: nat, m: nat, top: real)
    requires SoundBook(b) && g.common > 0 && 0 < m < k && Cost(m as real, top) <= k as real * TARGET_USD
    requires Walk(b.asks, Quantity(g, k)).Some? && Walk(b.bids, Quantity(g, k)).Some?
    requires Walk(b.asks, Quantity(g, k)).value <= top
    ensures Walk(b.asks, Quantity(g, m)).Some? && Walk(b.asks, Quantity(g, m)).value <= TARGET_USD
    ensures Walk(b.bids, Quantity(g, m)).Some? && Walk(b.bids, Quantity(g, m)).value <= TARGET_USD
  {
    var q, r := Quantity(g, k), Quantity(g, m);
    QuantityIsSteps(g, k);
    QuantityIsSteps(g, m);
    QuantityPositive(g, k);
    QuantityPositive(g, m);
    MoreSteps(m as real, k as real, StepSize(g));
    WalkThinner(b.asks, r, q);
    WalkThinner(b.bids, r, q);
    WalkConvex(b.asks, r, q);
    BuyingCostsMore(b, q);
    ShrunkCost(k, m, StepSize(g), top, Walk(b.asks, q).value, Walk(b.asks, r).value);
    BuyingCostsMore(b, r);
  }

  /** So the first shrink of a quantity that was too dear always fits. */
  lemma {:induction false} OneShrinkFits(spot: Book, perp: Book, g: Grid, k: nat, s: Sides)
    requires SoundBook(spot) && SoundBook(perp) && g.common > 0
    requires Walked(spot, perp, Quantity(g, k)) == Some(s) && Top(s) > TARGET_USD && Shrunk(k, Top(s)) > 0
    ensures var after := Walked(spot, perp, Quantity(g, Shrunk(k, Top(s))));
      after.Some? && Top(after.value) <= TARGET_USD
  {
    ShrunkBookFits(spot, g, k, Shrunk(k, Top(s)), Top(s));
    ShrunkBookFits(perp, g, k, Shrunk(k, Top(s)), Top(s));
  }

  /**
   * The sizing in closed form: the first try if it fits, else its one shrink. It is refused
   * only for rounding to nothing or for books too thin for the first try.
   */
  function Sizes(spot: Book, perp: Book, g: Grid): (r: Checked<Sized>)
    requires SoundBook(spot) && SoundBook(perp) && g.common > 0
    ensures r.Ok? ==> 0 < r.value.steps <= FirstTry(spot, perp, g) && Top(r.value.sides) <= TARGET_USD
    ensures r.Ok? ==> Walked(spot, perp, Quantity(g, r.value.steps)) == Some(r.value.sides)
  {
    var k := FirstTry(spot, perp, g);
    if k <= 0 then Refused("quantity_rounds_to_zero")
    else
      var first := Walked(spot, perp, Quantity(g, k));
      if first.None? then Refused("insufficient_four_side_depth")
      else if Top(first.value) <= TARGET_USD then Ok(Sized(k, first.value))
      else
        var m := Shrunk(k, Top(first.value));
        if m <= 0 then Refused("quantity_rounds_to_zero")
        else
          OneShrinkFits(spot, perp, g, k, first.value);
          Ok(Sized(m, Walked(spot, perp, Quantity(g, m)).value))
  }

  /** Shrink the quantity until all four notionals fit the target, at most twelve tries. */
  method SizeQuantity(spot: Book, perp: Book, g: Grid) returns (r: Checked<Sized>)
    requires SoundBook(spot) && SoundBook(perp) && g.common > 0
    ensures r == Sizes(spot, perp, g)
  {
    var k := FirstTry(spot, perp, g);
    if k <= 0 { return Refused("quantity_rounds_to_zero"); }
    for round := 0 to MAX_ROUNDS
      invariant k > 0 && round <= 1
      invariant round == 0 ==> k == FirstTry(spot, perp, g)
      invariant round == 1 ==> Sizes(spot, perp, g).Ok? && k == Sizes(spot, perp, g).value.steps
    {
      var qty := Quantity(g, k);
      var sides := WalkFourSides(spot, perp, qty);
      if sides.None? { return Refused("insufficient_four_side_depth"); }
      var top := Top(sides.value);
      if top <= TARGET_USD { return Ok(Sized(k, sides.value)); }
      k := Shrunk(k, top);
      if k <= 0 { return Refused("quantity_rounds_to_zero"); }
    }
    r := Refused("quantity_did_not_converge");
  }

  datatype Row =
    | Pass(quantity: real, steps: nat, sides: Sides, friction: real, frictionBps: real)
    | Fail(reason: string)

  function Fees(s: Sides): real { Sum(s) * TAKER_FEE_BPS / 10_000.0 }

  function Friction(s: Sides): real { s.spotBuy - s.spotSell + s.perpBuy - s.perpSell + Fees(s) }

  predicate MeetsMinimums(p: Pair, qty: real, s: Sides) {
    qty >= p.perpMinQty && s.spotBuy >= p.spotMinAmount && s.perpSell >= p.perpMinNotional
  }

  predicate WithinLimits(p: Pair, qty: real, s: Sides) {
    && MeetsMinimums(p, qty, s)
    && (p.spotMaxQty.Some? ==> qty <= p.spotMaxQty.value)
    && (p.perpMaxQty.Some? ==> qty <= p.perpMaxQty.value)
  }

  lemma {:induction false} FrictionPositive(spot: Book, perp: Book, qty: real, s: Sides)
    requires SoundBook(spot) && SoundBook(perp) && qty > 0.0 && Walked(spot, perp, qty) == Some(s)
    requires s.perpSell > 0.0
    ensures Friction(s) > 0.0
  {
    BuyingCostsMore(spot, qty);
    BuyingCostsMore(perp, qty);
    SellIsPositive(spot.bids, qty);
    assert Sum(s) > 0.0;
  }

  lemma {:induction false} SellIsPositive(levels: seq<Level>, qty: real)
    requires qty > 0.0 && AllPositive(levels) && Walk(levels, qty).Some?
    ensures Walk(levels, qty).value > 0.0
  {
    var fill := Lesser(levels[0].depth, qty);
    StrictCost(fill, 0.0, levels[0].price);
    assert Cost(fill, 0.0) == 0.0;
    if qty - fill > 0.0 { SellIsPositive(levels[1..], qty - fill); }
  }

  /** The two books of a pair, or the first reason to refuse them. */
  function Admitted(spot: Checked<Book>, perp: Checked<Book>): Checked<(Book, Book)> {
    if spot.Refused? then Refused(spot.reason)
    else if perp.Refused? then Refused(perp.reason)
    else if -MAX_BOOK_SKEW_MS <= spot.value.ts - perp.value.ts <= MAX_BOOK_SKEW_MS then Ok((spot.value, perp.value))
    else Refused("book_time_skew")
  }

  /** What a pass reports: the sized quantity, on both venues' steps, at a strictly positive friction. */
  ghost predicate Reports(r: Row, g: Grid, sized: Sized)
    requires g.spot > 0 && g.perp > 0
  {
    && r.Pass? && r.steps == sized.steps && r.sides == sized.sides && r.quantity == Quantity(g, r.steps)
    && r.quantity > 0.0 && (r.steps * g.common) % g.spot == 0 && (r.steps * g.common) % g.perp == 0
    && r.friction == Friction(r.sides) && r.friction > 0.0
    && r.sides.perpSell > 0.0 && r.frictionBps == r.friction / r.sides.perpSell * 10_000.0
  }

  /**
   * One pair at one instant. It passes exactly when both books are admitted, a quantity is
   * sized and every limit is met; otherwise it names the first thing that failed.
   */
  method EvaluatePair(p: Pair, spotAnswer: Answer, perpAnswer: Answer, spotReceived: int, perpReceived: int)
    returns (r: Row)
    requires ValidPair(p)
    ensures var books :=
        Admitted(CheckBook(spotAnswer, p.spotId, spotReceived), CheckBook(perpAnswer, p.perpId, perpReceived));
      if books.Refused? then r == Fail(books.reason)
      else
        var g := CommonStep(p.spotStep, p.perpStep);
        var sized := Sizes(books.value.0, books.value.1, g);
        if sized.Refused? then r == Fail(sized.reason)
        else
          var qty, s := Quantity(g, sized.value.steps), sized.value.sides;
          if WithinLimits(p, qty, s) then Reports(r, g, sized.value)
          else r == Fail(if MeetsMinimums(p, qty, s) then "maximum_market_qty_failed" else "minimum_order_failed")
  {
    var spot := CheckBook(spotAnswer, p.spotId, spotReceived);
    if spot.Refused? { return Fail(spot.reason); }
    var perp := CheckBook(perpAnswer, p.perpId, perpReceived);
    if perp.Refused? { return Fail(perp.reason); }
    var skew := spot.value.ts - perp.value.ts;
    if skew > MAX_BOOK_SKEW_MS || -skew > MAX_BOOK_SKEW_MS { return Fail("book_time_skew"); }
    var g := CommonStep(p.spotStep, p.perpStep);
    var sized := SizeQuantity(spot.value, perp.value, g);
    if sized.Refused? { return Fail(sized.reason); }
    var k, s := sized.value.steps, sized.value.sides;
    var qty := Quantity(g, k);
    if qty < p.perpMinQty || s.spotBuy < p.spotMinAmount || s.perpSell < p.perpMinNotional {
      return Fail("minimum_order_failed");
    }
    if (p.spotMaxQty.Some? && qty > p.spotMaxQty.value) || (p.perpMaxQty.Some? && qty > p.perpMaxQty.value) {
      return Fail("maximum_market_qty_failed");
    }
    QuantityPositive(g, k);
    QuantityOnBothSteps(p.spotStep, p.perpStep, k);
    FrictionPositive(spot.value, perp.value, qty, s);
    r := Pass(qty, k, s, Friction(s), Friction(s) / s.perpSell * 10_000.0);
  }
}
