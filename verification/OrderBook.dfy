/**
 * An order book rebuilt from snapshot and delta messages, and the one-pass capture of
 * the book at many target moments. Prices are the feed's text keys; `price` reads them.
 */
module OrderBook {
  import opened Wrappers
  import opened Sorting

  const STALE_MS: int := 5000

  datatype Level = Level(price: string, size: real)

  datatype Message =
    | Snapshot(ts: int, uid: int, bids: seq<Level>, asks: seq<Level>)
    | Delta(ts: int, uid: int, bids: seq<Level>, asks: seq<Level>)

  type Side = map<string, real>

  datatype State = State(bids: Side, asks: Side, updateId: Option<int>, ts: int, broken: bool)

  /** A snapshot's side: the last size given for each price. */
  function Listed(levels: seq<Level>): Side {
    if levels == [] then map[]
    else Listed(levels[..|levels| - 1])[levels[|levels| - 1].price := levels[|levels| - 1].size]
  }

  /** A delta's effect: size zero removes the price, anything else sets it. */
  function Updated(side: Side, levels: seq<Level>): Side {
    if levels == [] then side
    else
      var before, l := Updated(side, levels[..|levels| - 1]), levels[|levels| - 1];
      if l.size == 0.0 then before - {l.price} else before[l.price := l.size]
  }

  const FRESH: State := State(map[], map[], None, 0, true)

  function ApplyMessage(s: State, m: Message): State {
    match m
    case Snapshot(ts, uid, bids, asks) => State(Listed(bids), Listed(asks), Some(uid), ts, false)
    case Delta(ts, uid, bids, asks) =>
      State(Updated(s.bids, bids), Updated(s.asks, asks), Some(uid), ts,
            s.broken || s.updateId.None? || uid != s.updateId.value + 1)
  }

  function Replay(ms: seq<Message>): State {
    if ms == [] then FRESH else ApplyMessage(Replay(ms[..|ms| - 1]), ms[|ms| - 1])
  }

  // ---- captures -----------------------------------------------------------------------

  datatype Quote = Quote(key: string, price: real, size: real)

  datatype BookCapture = BookBroken | BookStale | BookEmpty | Ok(age: int, bids: seq<Quote>, asks: seq<Quote>)

  predicate Ascending(a: Quote, b: Quote) {
    a.price < b.price || (a.price == b.price && a.size <= b.size)
  }

  predicate Descending(a: Quote, b: Quote) {
    Ascending(b, a)
  }

  /** `quotes` lists exactly the levels of `side`, in the given order. */
  ghost predicate Lists(quotes: seq<Quote>, side: Side, price: string -> real, le: (Quote, Quote) -> bool) {
    && Sorted(quotes, le)
    && |quotes| == |side|
    && (forall q :: q in quotes ==> q.key in side && q == Quote(q.key, price(q.key), side[q.key]))
    && (forall k :: k in side ==> Quote(k, price(k), side[k]) in quotes)
  }

  ghost predicate IsCapture(c: BookCapture, s: State, at: int, price: string -> real) {
    if s.broken then c == BookBroken
    else if at - s.ts > STALE_MS then c == BookStale
    else if |s.bids| == 0 || |s.asks| == 0 then c == BookEmpty
    else c.Ok? && c.age == at - s.ts
         && Lists(c.bids, s.bids, price, Descending) && Lists(c.asks, s.asks, price, Ascending)
  }

  method SortedSide(side: Side, price: string -> real, le: (Quote, Quote) -> bool) returns (quotes: seq<Quote>)
    requires TotalPreorder(le)
    ensures Lists(quotes, side, price, le)
  {
    quotes := [];
    var left := side;
    while left != map[]
      invariant Sorted(quotes, le) && |quotes| + |left| == |side|
      invariant forall k :: k in left ==> k in side && left[k] == side[k]
      invariant forall q :: q in quotes ==> q.key in side && q == Quote(q.key, price(q.key), side[q.key])
      invariant forall k :: k in side && k !in left ==> Quote(k, price(k), side[k]) in quotes
      decreases |left|
    {
      var k :| k in left;
      var q := Quote(k, price(k), side[k]);
      InsertSorted(quotes, q, le);
      SameMembers(Insert(quotes, q, le), quotes + [q]);
      assert |left.Keys - {k}| == |left.Keys| - 1;
      assert (left - {k}).Keys == left.Keys - {k};
      quotes := Insert(quotes, q, le);
      left := left - {k};
    }
  }

  class Book {
    var bids: Side
    var asks: Side
    var updateId: Option<int>
    var ts: int
    var broken: bool

    function Value(): State
      reads this
    {
      State(bids, asks, updateId, ts, broken)
    }

    constructor ()
      ensures Value() == FRESH
    {
      bids, asks, updateId, ts, broken := map[], map[], None, 0, true;
    }

    method Apply(m: Message)
      modifies this
      ensures Value() == ApplyMessage(old(Value()), m)
    {
      ts := m.ts;
      if m.Snapshot? {
        bids, asks := Listed(m.bids), Listed(m.asks);
        broken := false;
      } else {
        if updateId.None? || m.uid != updateId.value + 1 { broken := true; }
        bids := ApplyLevels(bids, m.bids);
        asks := ApplyLevels(asks, m.asks);
      }
      updateId := Some(m.uid);
    }

    method CaptureAt(at: int, price: string -> real) returns (c: BookCapture)
      ensures IsCapture(c, Value(), at, price)
    {
      if broken { return BookBroken; }
      if at - ts > STALE_MS { return BookStale; }
      var b := SortedSide(bids, price, Descending);
      var a := SortedSide(asks, price, Ascending);
      if |b| == 0 || |a| == 0 { return BookEmpty; }
      c := Ok(at - ts, b, a);
    }
  }

  method ApplyLevels(side: Side, levels: seq<Level>) returns (r: Side)
    ensures r == Updated(side, levels)
  {
    r := side;
    for i := 0 to |levels|
      invariant r == Updated(side, levels[..i])
    {
      assert levels[..i + 1][..i] == levels[..i];
      if levels[i].size == 0.0 { r := r - {levels[i].price}; } else { r := r[levels[i].price := levels[i].size]; }
    }
    assert levels[..|levels|] == levels;
  }

  /** How many messages come before the first one later than `t`. */
  function Before(ms: seq<Message>, t: int): (n: nat)
    ensures n <= |ms|
    ensures forall i :: 0 <= i < n ==> ms[i].ts <= t
    ensures n < |ms| ==> ms[n].ts > t
  {
    if ms == [] || ms[0].ts > t then 0 else 1 + Before(ms[1..], t)
  }

  ghost predicate StrictlyAscending(s: seq<int>) {
    forall i, j :: 0 <= i < j < |s| ==> s[i] < s[j]
  }

  function AddTarget(s: seq<int>, t: int): seq<int> {
    if s == [] then [t]
    else if s[0] < t then [s[0]] + AddTarget(s[1..], t)
    else if s[0] == t then s
    else [t] + s
  }

  lemma {:induction false} AddTargetSpec(s: seq<int>, t: int)
    requires StrictlyAscending(s)
    ensures StrictlyAscending(AddTarget(s, t))
    ensures forall x :: x in AddTarget(s, t) <==> x in s || x == t
  {
    if s != [] && s[0] < t {
      AddTargetSpec(s[1..], t);
      assert s == [s[0]] + s[1..];
      var rest := AddTarget(s[1..], t);
      forall i | 0 <= i < |rest| ensures s[0] < rest[i] { assert rest[i] in rest; }
    }
  }

  /** `sorted(set(targets))`. */
  method SortTargets(targets: seq<int>) returns (pending: seq<int>)
    ensures StrictlyAscending(pending)
    ensures forall x :: x in pending <==> x in targets
  {
    pending := [];
    for i := 0 to |targets|
      invariant StrictlyAscending(pending)
      invariant forall x :: x in pending <==> x in targets[..i]
    {
      AddTargetSpec(pending, targets[i]);
      assert targets[..i + 1] == targets[..i] + [targets[i]];
      pending := AddTarget(pending, targets[i]);
    }
    assert targets[..|targets|] == targets;
  }

  /** Captures taken so far: one per pending target before position i. */
  ghost predicate Captured(out: map<int, BookCapture>, ms: seq<Message>, pending: seq<int>, i: nat,
        price: string -> real) {
    && i <= |pending|
    && (forall t :: t in out <==> t in pending[..i])
    && (forall t :: t in out ==> IsCapture(out[t], Replay(ms[..Before(ms, t)]), t, price))
  }

  /** The targets from position i on want at least the first n messages. */
  ghost predicate Waiting(ms: seq<Message>, pending: seq<int>, i: nat, n: nat) {
    forall j :: i <= j < |pending| ==> Before(ms, pending[j]) >= n
  }

  lemma {:induction false} WaitingOn(ms: seq<Message>, pending: seq<int>, i: nat, n: nat)
    requires Waiting(ms, pending, i, n) && StrictlyAscending(pending)
    requires i < |pending| && n < |ms| && pending[i] >= ms[n].ts
    ensures Waiting(ms, pending, i, n + 1)
  {
    forall j | i <= j < |pending| ensures Before(ms, pending[j]) >= n + 1 {
      assert pending[j] >= pending[i];
    }
  }

  /**
   * One pass over the day's messages. Each target gets the book obtained by replaying
   * exactly the messages before the first one later than the target.
   */
  method CaptureFile(ms: seq<Message>, targets: seq<int>, price: string -> real) returns (out: map<int, BookCapture>)
    ensures forall t :: t in out <==> t in targets
    ensures forall t :: t in targets ==> IsCapture(out[t], Replay(ms[..Before(ms, t)]), t, price)
  {
    var pending := SortTargets(targets);
    out := map[];
    var book := new Book();
    var i, n := 0, 0;
    while n < |ms| && i < |pending|
      invariant n <= |ms| && Captured(out, ms, pending, i, price)
      invariant book.Value() == Replay(ms[..n])
      invariant Waiting(ms, pending, i, n)
      invariant fresh(book)
      decreases |ms| - n
    {
      while i < |pending| && pending[i] < ms[n].ts
        invariant Captured(out, ms, pending, i, price)
        invariant book.Value() == Replay(ms[..n])
        invariant Waiting(ms, pending, i, n)
        decreases |pending| - i
      {
        out, i := TakeCapture(book, ms, pending, i, n, out, price);
      }
      if i == |pending| { break; }
      WaitingOn(ms, pending, i, n);
      book.Apply(ms[n]);
      assert ms[..n + 1][..n] == ms[..n];
      n := n + 1;
    }
    while i < |pending|
      invariant Captured(out, ms, pending, i, price)
      invariant i < |pending| ==> n == |ms| && book.Value() == Replay(ms[..n])
      invariant Waiting(ms, pending, i, n)
      decreases |pending| - i
    {
      out, i := TakeCapture(book, ms, pending, i, n, out, price);
    }
    assert pending[..|pending|] == pending;
  }

  method TakeCapture(book: Book, ghost ms: seq<Message>, pending: seq<int>, i: nat, ghost n: nat,
               out: map<int, BookCapture>, price: string -> real)
    returns (out': map<int, BookCapture>, i': nat)
    requires i < |pending| && n <= |ms| && Captured(out, ms, pending, i, price)
    requires book.Value() == Replay(ms[..n])
    requires Waiting(ms, pending, i, n) && (n < |ms| ==> pending[i] < ms[n].ts)
    ensures i' == i + 1 && Captured(out', ms, pending, i', price) && Waiting(ms, pending, i', n)
  {
    var t := pending[i];
    assert Before(ms, t) == n;
    var c := book.CaptureAt(t, price);
    out' := out[t := c];
    i' := i + 1;
    assert pending[..i'] == pending[..i] + [t];
  }

  // ---- what a sound capture rests on --------------------------------------------------

  /** `s` is the last snapshot and the deltas after it are numbered without a gap. */
  ghost predicate GapFreeSince(ms: seq<Message>, s: nat) {
    && s < |ms| && ms[s].Snapshot?
    && forall k :: s < k < |ms| ==> ms[k].Delta? && ms[k].uid == ms[k - 1].uid + 1
  }

  lemma {:induction false} ReplayUpdateId(ms: seq<Message>)
    ensures Replay(ms).updateId == if ms == [] then None else Some(ms[|ms| - 1].uid)
    ensures Replay(ms).ts == if ms == [] then 0 else ms[|ms| - 1].ts
  {
  }

  lemma {:induction false} GapFreeStep(front: seq<Message>, m: Message, s: nat)
    requires m.Delta?
    ensures GapFreeSince(front + [m], s)
       <==> GapFreeSince(front, s) && m.uid == front[|front| - 1].uid + 1
  {
    var ms := front + [m];
    assert forall k :: 0 <= k < |front| ==> ms[k] == front[k];
    assert ms[|front|] == m;
  }

  lemma {:induction false} BrokenSnoc(front: seq<Message>, m: Message)
    ensures !Replay(front + [m]).broken
       <==> m.Snapshot? || (!Replay(front).broken && front != [] && m.uid == front[|front| - 1].uid + 1)
  {
    assert (front + [m])[..|front|] == front;
    ReplayUpdateId(front);
  }

  ghost predicate GapFree(ms: seq<Message>) { exists s: nat :: GapFreeSince(ms, s) }

  lemma {:induction false} GapFreeSnoc(front: seq<Message>, m: Message)
    ensures GapFree(front + [m])
       <==> m.Snapshot? || (GapFree(front) && front != [] && m.uid == front[|front| - 1].uid + 1)
  {
    if m.Snapshot? {
      assert GapFreeSince(front + [m], |front|);
    } else {
      if GapFree(front + [m]) {
        var s: nat :| GapFreeSince(front + [m], s);
        GapFreeStep(front, m, s);
      }
      if GapFree(front) && front != [] && m.uid == front[|front| - 1].uid + 1 {
        var s: nat :| GapFreeSince(front, s);
        GapFreeStep(front, m, s);
      }
    }
  }

  /** A book is sound exactly when some snapshot has been followed by gap-free deltas only. */
  lemma {:induction false} SoundIffGapFree(ms: seq<Message>)
    ensures !Replay(ms).broken <==> GapFree(ms)
  {
    if ms != [] {
      var front, m := ms[..|ms| - 1], ms[|ms| - 1];
      assert ms == front + [m];
      SoundIffGapFree(front);
      BrokenSnoc(front, m);
      GapFreeSnoc(front, m);
    }
  }

  /** The side named by `bid` in a message. */
  function LevelsOf(m: Message, bid: bool): seq<Level> { if bid then m.bids else m.asks }

  function SideOf(s: State, bid: bool): Side { if bid then s.bids else s.asks }

  /** The last level of a list that names `p`. */
  function LastLevel(levels: seq<Level>, p: string): Option<real> {
    if levels == [] then None
    else if levels[|levels| - 1].price == p then Some(levels[|levels| - 1].size)
    else LastLevel(levels[..|levels| - 1], p)
  }

  /** Last writer wins: what the messages from snapshot `s` on say about price `p`. */
  function LastWriter(ms: seq<Message>, s: nat, p: string, bid: bool): Option<real>
    requires s < |ms|
    decreases |ms|
  {
    var own := LastLevel(LevelsOf(ms[|ms| - 1], bid), p);
    if |ms| - 1 == s then own
    else if own.Some? then (if own.value == 0.0 then None else own)
    else LastWriter(ms[..|ms| - 1], s, p, bid)
  }

  function Get(side: Side, p: string): Option<real> { if p in side then Some(side[p]) else None }

  lemma {:induction false} ListedIsLast(levels: seq<Level>, p: string)
    ensures Get(Listed(levels), p) == LastLevel(levels, p)
  {
    if levels != [] { ListedIsLast(levels[..|levels| - 1], p); }
  }

  lemma {:induction false} UpdatedIsLast(side: Side, levels: seq<Level>, p: string)
    ensures Get(Updated(side, levels), p)
         == var l := LastLevel(levels, p);
            if l.None? then Get(side, p) else if l.value == 0.0 then None else l
  {
    if levels != [] { UpdatedIsLast(side, levels[..|levels| - 1], p); }
  }

  /** From the last snapshot on, every level of the book is the last one written. */
  lemma {:induction false} LevelsAreLastWritten(ms: seq<Message>, s: nat, p: string, bid: bool)
    requires s < |ms| && ms[s].Snapshot? && forall k :: s < k < |ms| ==> ms[k].Delta?
    ensures Get(SideOf(Replay(ms), bid), p) == LastWriter(ms, s, p, bid)
  {
    var front, m := ms[..|ms| - 1], ms[|ms| - 1];
    if |ms| - 1 == s {
      ListedIsLast(LevelsOf(m, bid), p);
    } else {
      LevelsAreLastWritten(front, s, p, bid);
      UpdatedIsLast(SideOf(Replay(front), bid), LevelsOf(m, bid), p);
    }
  }

  /**
   * A capture with status ok: the messages up to the target hold a snapshot followed by
   * gap-free deltas, the last of them at most STALE_MS old, and each quoted level is the
   * last one written since that snapshot.
   */
  lemma {:induction false} OkCaptureIsSound(c: BookCapture, ms: seq<Message>, t: int, price: string -> real)
    requires IsCapture(c, Replay(ms[..Before(ms, t)]), t, price) && c.Ok?
    ensures GapFree(ms[..Before(ms, t)])
    ensures var upTo := ms[..Before(ms, t)]; forall s :: GapFreeSince(upTo, s) ==>
      && 0 <= c.age == t - upTo[|upTo| - 1].ts <= STALE_MS
      && (forall q :: q in c.bids ==> LastWriter(upTo, s, q.key, true) == Some(q.size))
      && (forall q :: q in c.asks ==> LastWriter(upTo, s, q.key, false) == Some(q.size))
  {
    var upTo := ms[..Before(ms, t)];
    SoundIffGapFree(upTo);
    ReplayUpdateId(upTo);
    forall s: nat | GapFreeSince(upTo, s)
      ensures 0 <= c.age == t - upTo[|upTo| - 1].ts <= STALE_MS
      ensures forall q :: q in c.bids ==> LastWriter(upTo, s, q.key, true) == Some(q.size)
      ensures forall q :: q in c.asks ==> LastWriter(upTo, s, q.key, false) == Some(q.size)
    {
      assert upTo[|upTo| - 1].ts <= t;
      forall q | q in c.bids ensures LastWriter(upTo, s, q.key, true) == Some(q.size) {
        LevelsAreLastWritten(upTo, s, q.key, true);
      }
      forall q | q in c.asks ensures LastWriter(upTo, s, q.key, false) == Some(q.size) {
        LevelsAreLastWritten(upTo, s, q.key, false);
      }
    }
  }
}
