/**
 * Crash safety of the canary runner. An observer sees only the disk and the deliveries.
 * Whatever a write shows (an interruption, a recovery, an archived restart) it expects an
 * alert for; the theorem is that the alert is then queued on disk or already delivered, at
 * every moment, however often and wherever runs are killed.
 */
module CanarySafety {
  import opened Wrappers
  import opened Canary

  /** How often an alert stands in the queue. */
  function Queued(pending: seq<Entry>, x: Item): nat {
    if pending == [] then 0
    else Queued(pending[..|pending| - 1], x) + if pending[|pending| - 1].item == x then 1 else 0
  }

  // ---- what a write demands -------------------------------------------------------------------

  predicate ShowsInterrupted(d: Disk, start: int) {
    d.active.Some? && d.active.value.start == start && d.active.value.status == Interrupted
  }

  /** The alert that the active epoch of `d'` asks for, if any, when `d'` replaces `d`. */
  function StatusDemand(d: Disk, d': Disk): Option<Item> {
    if d'.active.None? then None
    else
      var e := d'.active.value;
      if e.status == Interrupted && !ShowsInterrupted(d, e.start) then Some(Item(HealthLost(e.start), d'.generatedAt))
      else if e.status == Running && ShowsInterrupted(d, e.start) then Some(Item(HealthBack(e.start), d'.generatedAt))
      else None
  }

  /** An archived epoch that was not complete is owed a restart alert. */
  function FilingDemand(x: Archived): Option<Item> {
    if x.reason == RestartDetected then Some(Item(Restarted(x.epoch.start), x.at)) else None
  }

  function One(demand: Option<Item>, x: Item): nat { if demand == Some(x) then 1 else 0 }

  /** How often the entries beyond the first n ask for the alert. */
  function ArchiveDemand(n: nat, a: seq<Archived>, x: Item): nat {
    if |a| <= n then 0 else ArchiveDemand(n, a[..|a| - 1], x) + One(FilingDemand(a[|a| - 1]), x)
  }

  function Demands(d: Disk, d': Disk, x: Item): nat {
    One(StatusDemand(d, d'), x) + ArchiveDemand(|d.archived|, d'.archived, x)
  }

  // ---- the observer ---------------------------------------------------------------------------

  /** An observer counts, for one alert, how often it was owed and how often delivered. */
  datatype Obs = Obs(item: Item, disk: Disk, owed: nat, delivered: nat)

  function Observe(o: Obs, a: Action): Obs {
    match a
    case Persist(d) => o.(disk := d, owed := o.owed + Demands(o.disk, d, o.item))
    case Send(AlertSent(item), true) => if item == o.item then o.(delivered := o.delivered + 1) else o
    case Send(_, _) => o
  }

  function ObserveAll(o: Obs, log: seq<Action>): (r: Obs)
    ensures r.item == o.item
  {
    if log == [] then o else Observe(ObserveAll(o, log[..|log| - 1]), log[|log| - 1])
  }

  /** No alert is lost. */
  ghost predicate NothingLost(o: Obs) { o.owed <= Queued(o.disk.pending, o.item) + o.delivered }

  function ArchivedStarts(a: seq<Archived>): set<int> { set x | x in a :: x.epoch.start }

  function Starts(d: Disk): set<int> {
    ArchivedStarts(d.archived) + if d.active.Some? then {d.active.value.start} else {}
  }

  /** Archived epochs stay as they are, and no epoch disappears. */
  ghost predicate Kept(d: Disk, d': Disk) { d.archived <= d'.archived && Starts(d) <= Starts(d') }

  /** At every point of the log the observer is content. */
  ghost predicate SafeLog(o: Obs, log: seq<Action>) {
    && NothingLost(ObserveAll(o, log)) && Kept(o.disk, ObserveAll(o, log).disk)
    && (log != [] ==> SafeLog(o, log[..|log| - 1]))
  }

  lemma {:induction false} SafeAtEveryCrashPoint(o: Obs, log: seq<Action>, k: nat)
    requires SafeLog(o, log) && k <= |log|
    ensures NothingLost(ObserveAll(o, log[..k])) && Kept(o.disk, ObserveAll(o, log[..k]).disk)
  {
    if k == |log| {
      assert log[..k] == log;
    } else {
      SafeAtEveryCrashPoint(o, log[..|log| - 1], k);
      assert log[..|log| - 1][..k] == log[..k];
    }
  }

  // ---- the invariant of a run -----------------------------------------------------------------

  /** Nothing lost so far, and the next write of these variables will lose nothing either. */
  ghost predicate Ready(o: Obs, m: Mem, now: int) {
    && o.owed + Demands(o.disk, Written(m, now), o.item) <= Queued(m.pending, o.item) + o.delivered
    && Kept(o.disk, Written(m, now))
  }

  /** The same once the alert `x` is queued. */
  ghost predicate ReadyWith(o: Obs, m: Mem, x: Item, now: int) {
    && o.owed + Demands(o.disk, Written(m, now), o.item)
      <= Queued(m.pending, o.item) + One(Some(x), o.item) + o.delivered
    && Kept(o.disk, Written(m, now))
  }

  ghost predicate Inv(o0: Obs, m: Mem, now: int) {
    && SafeLog(o0, m.log) && Kept(o0.disk, ObserveAll(o0, m.log).disk) && Ready(ObserveAll(o0, m.log), m, now)
  }

  lemma {:induction false} LogSnoc(o: Obs, log: seq<Action>, a: Action)
    ensures ObserveAll(o, log + [a]) == Observe(ObserveAll(o, log), a)
    ensures SafeLog(o, log) && NothingLost(ObserveAll(o, log + [a])) && Kept(o.disk, ObserveAll(o, log + [a]).disk)
        ==> SafeLog(o, log + [a])
  {
    assert (log + [a])[..|log|] == log;
  }

  lemma {:induction false} KeptTransitive(a: Disk, b: Disk, c: Disk)
    requires Kept(a, b) && Kept(b, c)
    ensures Kept(a, c)
  {
  }

  lemma {:induction false} SameDemandsNothing(d: Disk, now: int, x: Item)
    ensures Demands(d, d.(generatedAt := now), x) == 0
  {
  }

  lemma {:induction false} SaveKeepsInv(o0: Obs, m: Mem, now: int)
    requires Inv(o0, m, now)
    ensures Inv(o0, Save(m, now), now)
    ensures ObserveAll(o0, Save(m, now).log).disk == Written(m, now)
  {
    var o := ObserveAll(o0, m.log);
    LogSnoc(o0, m.log, Persist(Written(m, now)));
    KeptTransitive(o0.disk, o.disk, Written(m, now));
    SameDemandsNothing(Written(m, now), now, o0.item);
  }

  ghost predicate OnlyOtherSends(log: seq<Action>) { forall a :: a in log ==> a.Send? && !a.what.AlertSent? }

  lemma {:induction false} MoreOtherSends(a: seq<Action>, b: seq<Action>)
    requires OnlyOtherSends(a) && OnlyOtherSends(b)
    ensures OnlyOtherSends(a + b)
  {
  }

  /** Sends that are not alerts change nothing the observer looks at. */
  lemma {:induction false} OtherSends(o0: Obs, log: seq<Action>, more: seq<Action>)
    requires SafeLog(o0, log)
    requires OnlyOtherSends(more)
    ensures SafeLog(o0, log + more) && ObserveAll(o0, log + more) == ObserveAll(o0, log)
  {
    if more == [] {
      assert log + more == log;
    } else {
      var front, a := more[..|more| - 1], more[|more| - 1];
      assert a in more && forall x :: x in front ==> x in more;
      OtherSends(o0, log, front);
      assert log + more == (log + front) + [a];
      LogSnoc(o0, log + front, a);
    }
  }

  /** Changes of the active epoch that ask for no new alert. */
  ghost predicate Quiet(a: Option<Epoch>, b: Option<Epoch>) {
    if a.None? then b.None?
    else b.Some? && b.value.start == a.value.start && (b.value.status == a.value.status || b.value.status == Completed)
  }

  lemma {:induction false} QuietKeepsReady(o: Obs, m: Mem, active: Option<Epoch>, now: int)
    requires Ready(o, m, now) && Quiet(m.active, active)
    ensures Ready(o, m.(active := active), now)
  {
    var m' := m.(active := active);
    assert One(StatusDemand(o.disk, Written(m', now)), o.item) <= One(StatusDemand(o.disk, Written(m, now)), o.item);
    assert Starts(Written(m', now)) == Starts(Written(m, now));
  }

  // ---- the steps ------------------------------------------------------------------------------

  /** Queue, write, send: the demanded alert is on disk with the very write that shows the change. */
  lemma {:induction false} SendOrQueueKeepsInv(o0: Obs, m: Mem, alert: Alert, env: Env)
    requires SafeLog(o0, m.log)
    requires ReadyWith(ObserveAll(o0, m.log), m, Item(alert, env.now), env.now)
    ensures var r := SendOrQueue(m, alert, env);
      Inv(o0, r, env.now) && r.active == m.active && r.archived == m.archived
    ensures ObserveAll(o0, SendOrQueue(m, alert, env).log).disk.active == m.active
    ensures ObserveAll(o0, SendOrQueue(m, alert, env).log).disk.archived == m.archived
  {
    var item := Item(alert, env.now);
    var q := m.(pending := m.pending + [Entry(item, None)]);
    QueuedReady(o0, m, item, env.now);
    SaveKeepsInv(o0, q, env.now);
    QueuedSnoc(m.pending, Entry(item, None), o0.item);
    QueuedSnoc(m.pending, Entry(item, env.alertError), o0.item);
    var a := Send(AlertSent(item), env.alertError.None?);
    LogSnoc(o0, Save(q, env.now).log, a);
    AfterWrite(o0, Save(q, env.now), SendOrQueue(m, alert, env), a, env.now);
  }

  /** With its alert queued, a change is ready to be written. */
  lemma {:induction false} QueuedReady(o0: Obs, m: Mem, item: Item, now: int)
    requires SafeLog(o0, m.log)
    requires ReadyWith(ObserveAll(o0, m.log), m, item, now)
    ensures Inv(o0, m.(pending := m.pending + [Entry(item, None)]), now)
  {
    var q := m.(pending := m.pending + [Entry(item, None)]);
    QueuedSnoc(m.pending, Entry(item, None), o0.item);
    assert Starts(Written(q, now)) == Starts(Written(m, now));
  }

  lemma {:induction false} QueuedSnoc(pending: seq<Entry>, e: Entry, x: Item)
    ensures Queued(pending + [e], x) == Queued(pending, x) + One(Some(e.item), x)
  {
    assert (pending + [e])[..|pending|] == pending;
  }

  /** Right after a write, a delivered alert may leave the queue; an undelivered one stays. */
  lemma {:induction false} AfterWrite(o0: Obs, s: Mem, r: Mem, a: Action, now: int)
    requires Inv(o0, s, now) && ObserveAll(o0, s.log).disk == Written(s, now)
    requires a.Send? && a.what.AlertSent? && r.log == s.log + [a]
    requires r.active == s.active && r.archived == s.archived
    requires Queued(s.pending, o0.item)
          <= Queued(r.pending, o0.item) + if a.delivered then One(Some(a.what.item), o0.item) else 0
    ensures Inv(o0, r, now)
  {
    var o, o' := ObserveAll(o0, s.log), ObserveAll(o0, r.log);
    LogSnoc(o0, s.log, a);
    assert o'.disk == o.disk && o'.owed == o.owed;
    assert Starts(Written(r, now)) == Starts(o.disk);
    assert Demands(o'.disk, Written(r, now), o0.item) == 0;
  }

  /** Sends alone touch neither the disk nor what is owed. */
  lemma {:induction false} SendsSafe(o0: Obs, log: seq<Action>)
    requires NothingLost(o0) && forall a :: a in log ==> a.Send?
    ensures SafeLog(o0, log)
    ensures var o := ObserveAll(o0, log);
      o.disk == o0.disk && o.owed == o0.owed
  {
    if log != [] {
      var front, a := log[..|log| - 1], log[|log| - 1];
      assert a in log && forall x :: x in front ==> x in log;
      SendsSafe(o0, front);
      assert log == front + [a];
      LogSnoc(o0, front, a);
    }
  }

  /** Retrying the queue touches neither the disk nor what is owed. */
  lemma {:induction false} FlushSafe(o0: Obs, env: Env, n: nat)
    requires NothingLost(o0) && n <= |o0.disk.pending|
    ensures SafeLog(o0, FlushLog(o0.disk.pending, n, env))
    ensures var o := ObserveAll(o0, FlushLog(o0.disk.pending, n, env));
      o.disk == o0.disk && o.owed == o0.owed
  {
    FlushLength(o0.disk.pending, n, env);
    SendsSafe(o0, FlushLog(o0.disk.pending, n, env));
  }

  lemma {:induction false} LeftOneMore(pending: seq<Entry>, n: nat, env: Env, x: Item)
    requires 0 < n <= |pending|
    ensures Queued(FlushLeft(pending, n, env), x)
         == Queued(FlushLeft(pending, n - 1, env), x)
          + if env.flushError(n - 1).None? then 0 else One(Some(pending[n - 1].item), x)
  {
    var left := FlushLeft(pending, n - 1, env);
    if env.flushError(n - 1).None? {
      assert FlushLeft(pending, n, env) == left;
    } else {
      QueuedSnoc(left, pending[n - 1].(lastError := env.flushError(n - 1)), x);
    }
  }

  lemma {:induction false} DeliveredOneMore(o: Obs, pending: seq<Entry>, n: nat, env: Env)
    requires 0 < n <= |pending|
    ensures ObserveAll(o, FlushLog(pending, n, env)).delivered
         == ObserveAll(o, FlushLog(pending, n - 1, env)).delivered
          + if env.flushError(n - 1).None? then One(Some(pending[n - 1].item), o.item) else 0
  {
    LogSnoc(o, FlushLog(pending, n - 1, env), Send(AlertSent(pending[n - 1].item), env.flushError(n - 1).None?));
  }

  /** An alert leaves the queue exactly by being delivered. */
  lemma {:induction false} FlushKeeps(o: Obs, pending: seq<Entry>, n: nat, env: Env)
    requires n <= |pending|
    ensures Queued(FlushLeft(pending, n, env), o.item) + ObserveAll(o, FlushLog(pending, n, env)).delivered
         == Queued(pending[..n], o.item) + o.delivered
  {
    if n > 0 {
      FlushKeeps(o, pending, n - 1, env);
      LeftOneMore(pending, n, env, o.item);
      DeliveredOneMore(o, pending, n, env);
      assert pending[..n] == pending[..n - 1] + [pending[n - 1]];
      QueuedSnoc(pending[..n - 1], pending[n - 1], o.item);
    }
  }

  lemma {:induction false} LoadedReady(o0: Obs, env: Env)
    requires NothingLost(o0)
    ensures Inv(o0, Loaded(o0.disk, env), env.now)
    ensures ObserveAll(o0, Loaded(o0.disk, env).log).disk == o0.disk
  {
    var pending := o0.disk.pending;
    FlushSafe(o0, env, |pending|);
    FlushKeeps(o0, pending, |pending|, env);
    assert pending[..|pending|] == pending;
    var m := Loaded(o0.disk, env);
    assert Demands(o0.disk, Written(m, env.now), o0.item) == 0;
    assert Starts(Written(m, env.now)) == Starts(o0.disk);
  }

  lemma {:induction false} HealthLostSafe(o0: Obs, env: Env)
    requires NothingLost(o0)
    ensures SafeLog(o0, HealthLostRun(Loaded(o0.disk, env), env).log)
  {
    LoadedReady(o0, env);
    var m := Loaded(o0.disk, env);
    if m.active.None? || m.active.value.status == Completed {
      SaveKeepsInv(o0, m, env.now);
    } else if m.active.value.status == Interrupted {
      LastErrorThenSave(o0, m, env);
    } else {
      var e := m.active.value;
      var marked := m.(active := Some(e.(status := Interrupted, since := Some(env.now))));
      assert Starts(Written(marked, env.now)) == Starts(Written(m, env.now));
      SendOrQueueKeepsInv(o0, marked, HealthLost(e.start), env);
      LastErrorThenSave(o0, SendOrQueue(marked, HealthLost(e.start), env), env);
    }
  }

  lemma {:induction false} LastErrorThenSave(o0: Obs, m: Mem, env: Env)
    requires Inv(o0, m, env.now) && m.active.Some?
    ensures var noted := m.(active := Some(m.active.value.(lastError := Some(env.healthError))));
      SafeLog(o0, Save(noted, env.now).log)
  {
    var active := Some(m.active.value.(lastError := Some(env.healthError)));
    QuietKeepsReady(ObserveAll(o0, m.log), m, active, env.now);
    SaveKeepsInv(o0, m.(active := active), env.now);
  }

  /** Going back to running demands exactly the recovery alert. */
  lemma {:induction false} RecoveryDemand(d: Disk, m: Mem, back: Mem, now: int, x: Item)
    requires m.active.Some? && back.active.Some? && back.archived == m.archived == d.archived
    requires back.active.value.start == m.active.value.start && back.active.value.status == Running
    ensures Demands(d, Written(back, now), x) <= One(Some(Item(HealthBack(m.active.value.start), now)), x)
    ensures Starts(Written(back, now)) == Starts(Written(m, now))
  {
  }

  lemma {:induction false} RecoveredSafe(o0: Obs, env: Env, start: int)
    requires NothingLost(o0)
    ensures var r := Recovered(Loaded(o0.disk, env), env, start);
      && Inv(o0, r, env.now)
      && (r.active.Some? && r.active.value.start == start ==> r.active.value.status != Interrupted)
  {
    LoadedReady(o0, env);
    var m := Loaded(o0.disk, env);
    if m.active.Some? && m.active.value.status == Interrupted && m.active.value.start == start {
      var back := m.(active := Some(m.active.value.(status := Running, since := None, lastError := None)));
      RecoveryDemand(o0.disk, m, back, env.now, o0.item);
      SendOrQueueKeepsInv(o0, back, HealthBack(start), env);
    }
  }

  /** Filing the old epoch before the alert is written keeps every epoch in sight. */
  lemma {:induction false} FiledReady(o: Obs, m: Mem, env: Env, a: Archived)
    requires Ready(o, m, env.now) && m.active == Some(a.epoch) && a.at == env.now
    ensures var filed := m.(archived := m.archived + [a]);
      && Kept(o.disk, Written(filed, env.now))
      && o.owed + Demands(o.disk, Written(filed, env.now), o.item)
           <= Queued(m.pending, o.item) + o.delivered + One(FilingDemand(a), o.item)
      && Starts(Written(filed, env.now)) == Starts(Written(m, env.now))
  {
    var filed := m.(archived := m.archived + [a]);
    assert filed.archived[|m.archived|] == a;
    forall i | 0 <= i < |m.archived| ensures filed.archived[i] == m.archived[i] { }
    ArchiveDemandSnoc(|o.disk.archived|, m.archived, a, o.item);
    StartsSnoc(m.archived, a);
  }

  lemma {:induction false} ArchiveDemandSnoc(n: nat, a: seq<Archived>, more: Archived, x: Item)
    requires n <= |a|
    ensures ArchiveDemand(n, a + [more], x) == ArchiveDemand(n, a, x) + One(FilingDemand(more), x)
  {
    assert (a + [more])[..|a|] == a;
  }

  lemma {:induction false} StartsSnoc(a: seq<Archived>, x: Archived)
    ensures ArchivedStarts(a + [x]) == ArchivedStarts(a) + {x.epoch.start}
  {
    var more := a + [x];
    forall s ensures s in ArchivedStarts(more) <==> s in ArchivedStarts(a) || s == x.epoch.start {
      if s in ArchivedStarts(a) {
        var y :| y in a && y.epoch.start == s;
        assert y in more;
      }
      if s == x.epoch.start { assert more[|a|] == x; assert x in more; }
    }
  }

  /** Opening a new epoch drops the old one from the active place only after it has been archived. */
  lemma {:induction false} NewActiveReady(o0: Obs, m: Mem, env: Env, start: int)
    requires Inv(o0, m, env.now)
    requires m.active.Some? ==> m.active.value.start in ArchivedStarts(m.archived)
    requires m.active.Some? ==> m.active.value.start != start
    requires !ShowsInterrupted(ObserveAll(o0, m.log).disk, start)
    ensures Inv(o0, m.(active := Some(NewEpoch(start))), env.now)
  {
    var r := m.(active := Some(NewEpoch(start)));
    assert Starts(Written(m, env.now)) <= Starts(Written(r, env.now));
  }

  lemma {:induction false} OpenedSafe(o0: Obs, env: Env, start: int)
    requires NothingLost(o0)
    ensures Inv(o0, Opened(Recovered(Loaded(o0.disk, env), env, start), env, start), env.now)
    ensures Opened(Recovered(Loaded(o0.disk, env), env, start), env, start).active.value.status != Interrupted
  {
    RecoveredSafe(o0, env, start);
    LoadedReady(o0, env);
    var m := Recovered(Loaded(o0.disk, env), env, start);
    if m.active.None? {
      NewActiveReady(o0, m, env, start);
    } else if m.active.value.start != start {
      assert m == Loaded(o0.disk, env);
      var e, o := m.active.value, ObserveAll(o0, m.log);
      var a := Archived(e, env.now, if e.status == Completed then NewEpochAfterCompletion else RestartDetected);
      FiledReady(o, m, env, a);
      var filed := m.(archived := m.archived + [a]);
      StartsSnoc(m.archived, a);
      if e.status == Completed {
        NewActiveReady(o0, filed, env, start);
      } else {
        SendOrQueueKeepsInv(o0, filed, Restarted(e.start), env);
        NewActiveReady(o0, SendOrQueue(filed, Restarted(e.start), env), env, start);
      }
    }
  }

  /** A visit keeps start and status and sends no operational alert. */
  lemma {:induction false} VisitIsQuiet(env: Env, x: Loop, i: nat)
    requires i < |x.epoch.cps|
    ensures var y := Visit(env, x, i);
      y.epoch.start == x.epoch.start && y.epoch.status == x.epoch.status && y.log == x.log + VisitSends(env, x, i)
    ensures OnlyOtherSends(VisitSends(env, x, i))
  {
  }

  lemma {:induction false} LoopIsQuiet(env: Env, x: Loop, i: nat) returns (more: seq<Action>)
    requires i <= |x.epoch.cps|
    ensures var y := VisitFrom(env, x, i);
      y.epoch.start == x.epoch.start && y.epoch.status == x.epoch.status && y.log == x.log + more
    ensures OnlyOtherSends(more)
    decreases |x.epoch.cps| - i
  {
    if i == |x.epoch.cps| {
      more := [];
      assert x.log + more == x.log;
    } else {
      VisitIsQuiet(env, x, i);
      var rest := LoopIsQuiet(env, Visit(env, x, i), i + 1);
      more := VisitSends(env, x, i) + rest;
      MoreOtherSends(VisitSends(env, x, i), rest);
      assert (x.log + VisitSends(env, x, i)) + rest == x.log + more;
    }
  }

  lemma {:induction false} CheckedSafe(o0: Obs, m: Mem, env: Env)
    requires Inv(o0, m, env.now) && m.active.Some?
    ensures SafeLog(o0, Checked(m, env).log)
  {
    var x := Loop(WithBaseline(m.active.value, env), false, m.log);
    var more := LoopIsQuiet(env, x, 0);
    var y := VisitFrom(env, x, 0);
    OtherSends(o0, m.log, more);
    var active := Some(MarkCompleted(y.epoch));
    QuietKeepsReady(ObserveAll(o0, m.log), m, active, env.now);
    SaveKeepsInv(o0, m.(active := active, log := y.log), env.now);
  }

  // ---- the theorems ---------------------------------------------------------------------------

  /** One run, killed after any number of its actions, loses no alert and no epoch. */
  lemma {:induction false} RunIsSafe(o: Obs, env: Env, k: nat)
    requires NothingLost(o) && k <= |RunLog(o.disk, env)|
    ensures var after := ObserveAll(o, RunLog(o.disk, env)[..k]);
      NothingLost(after) && Kept(o.disk, after.disk)
  {
    if env.health.None? {
      HealthLostSafe(o, env);
    } else {
      OpenedSafe(o, env, env.health.value);
      CheckedSafe(o, Opened(Recovered(Loaded(o.disk, env), env, env.health.value), env, env.health.value), env);
    }
    SafeAtEveryCrashPoint(o, RunLog(o.disk, env), k);
  }

  /** What the observer knows after a history of attempts. */
  function Watch(o: Obs, attempts: seq<Attempt>): Obs {
    if attempts == [] then o
    else
      var before := Watch(o, attempts[..|attempts| - 1]);
      ObserveAll(before, Happened(before.disk, attempts[|attempts| - 1]))
  }

  /**
   * Over every history of runs, each killed anywhere or not at all: every alert ever owed
   * is queued on disk or delivered, archived epochs are untouched, and no epoch is gone.
   */
  lemma {:induction false} HistoryIsSafe(o: Obs, attempts: seq<Attempt>)
    requires NothingLost(o)
    ensures NothingLost(Watch(o, attempts)) && Kept(o.disk, Watch(o, attempts).disk)
  {
    if attempts != [] {
      var before, a := Watch(o, attempts[..|attempts| - 1]), attempts[|attempts| - 1];
      HistoryIsSafe(o, attempts[..|attempts| - 1]);
      var log := RunLog(before.disk, a.env);
      RunIsSafe(before, a.env, if a.done <= |log| then a.done else |log|);
      assert log[..|log|] == log;
      KeptTransitive(o.disk, before.disk, Watch(o, attempts).disk);
    }
  }

  /** The theorem from a missing snapshot on, with nothing owed yet. */
  lemma {:induction false} HistoryFromNothing(item: Item, attempts: seq<Attempt>)
    ensures NothingLost(Watch(Obs(item, EMPTY, 0, 0), attempts))
  {
    HistoryIsSafe(Obs(item, EMPTY, 0, 0), attempts);
  }

  // ---- restarts -------------------------------------------------------------------------------

  function StartOf(d: Disk): Option<int> { if d.active.Some? then Some(d.active.value.start) else None }

  /** The service start seen by this run is not that of the active epoch. */
  predicate Changes(start: Option<int>, env: Env) { start.Some? && env.health.Some? && start != env.health }

  ghost predicate IsRestart(d: Disk, env: Env) { Changes(StartOf(d), env) }

  ghost predicate Unfinished(d: Disk) { d.active.Some? && MarkCompleted(d.active.value).status != Completed }

  function Filed(d: Disk, env: Env): Archived
    requires d.active.Some?
  {
    var e := MarkCompleted(d.active.value);
    Archived(e, env.now, if e.status == Completed then NewEpochAfterCompletion else RestartDetected)
  }

  /** The checks end with one write of what was archived and which epoch is active. */
  lemma {:induction false} FinalWrite(d: Disk, m: Mem, env: Env) returns (more: seq<Action>, final: Disk)
    requires m.active.Some?
    ensures Checked(m, env).log == m.log + more + [Persist(final)]
    ensures DiskAfter(d, Checked(m, env).log) == final
    ensures final.archived == m.archived && StartOf(final) == Some(m.active.value.start)
    ensures OnlyOtherSends(more)
  {
    var x := Loop(WithBaseline(m.active.value, env), false, m.log);
    more := LoopIsQuiet(env, x, 0);
    final := Checked(m, env).log[|m.log + more|].disk;
  }

  /** What a run that saw another start holds before its checks. */
  lemma {:induction false} OpenedArchives(d: Disk, env: Env)
    requires env.health.Some?
    ensures var m := Opened(Recovered(Loaded(d, env), env, env.health.value), env, env.health.value);
      && m.archived == d.archived + (if IsRestart(d, env) then [Filed(d, env)] else [])
      && m.active.value.start == env.health.value
  {
    var r := Recovered(Loaded(d, env), env, env.health.value);
    assert r.archived == d.archived;
    if IsRestart(d, env) { assert r == Loaded(d, env); }
  }

  /** A run that is not killed archives the old epoch exactly once on a restart, and otherwise nothing. */
  lemma {:induction false} FullRunArchives(d: Disk, env: Env)
    ensures var final := DiskAfter(d, RunLog(d, env));
      && final.archived == d.archived + (if IsRestart(d, env) then [Filed(d, env)] else [])
      && StartOf(final) == if env.health.Some? then env.health else StartOf(d)
  {
    if env.health.Some? {
      OpenedArchives(d, env);
      var m := Opened(Recovered(Loaded(d, env), env, env.health.value), env, env.health.value);
      var more, final := FinalWrite(d, m, env);
    }
  }

  function FullRun(d: Disk, env: Env): Disk { DiskAfter(d, RunLog(d, env)) }

  /** The disks before, between and after a list of full runs. */
  ghost predicate FullRuns(ds: seq<Disk>, envs: seq<Env>) {
    |ds| == |envs| + 1 && forall k :: 0 <= k < |envs| ==> ds[k + 1] == FullRun(ds[k], envs[k])
  }

  function Seen(start: Option<int>, env: Env): Option<int> { if env.health.Some? then env.health else start }

  /** The service start last seen. */
  function LastSeen(start: Option<int>, envs: seq<Env>, n: nat): Option<int>
    requires n <= |envs|
  {
    if n == 0 then start else Seen(LastSeen(start, envs, n - 1), envs[n - 1])
  }

  /** The start that a run replaces, with the time. */
  function Replacement(seen: Option<int>, env: Env): seq<(int, int)> {
    if Changes(seen, env) then [(seen.value, env.now)] else []
  }

  /** All the starts that were replaced, in order. */
  function Replaced(start: Option<int>, envs: seq<Env>, n: nat): seq<(int, int)>
    requires n <= |envs|
  {
    if n == 0 then [] else Replaced(start, envs, n - 1) + Replacement(LastSeen(start, envs, n - 1), envs[n - 1])
  }

  function Filings(a: seq<Archived>): seq<(int, int)> {
    seq(|a|, i requires 0 <= i < |a| => (a[i].epoch.start, a[i].at))
  }

  /**
   * Over any list of full runs: one archived entry per observed change of the service
   * start, in order, with the replaced start and the time; and the last start seen is active.
   */
  lemma {:induction false} OneEntryPerChange(ds: seq<Disk>, envs: seq<Env>, n: nat)
    requires FullRuns(ds, envs) && n <= |envs|
    ensures Filings(ds[n].archived) == Filings(ds[0].archived) + Replaced(StartOf(ds[0]), envs, n)
    ensures StartOf(ds[n]) == LastSeen(StartOf(ds[0]), envs, n)
  {
    forall k | 0 <= k < |envs| ensures OneStep(ds[k], ds[k + 1], envs[k]) { OneFiling(ds[k], envs[k]); }
    AddsUp(ds, envs, n);
  }

  ghost predicate OneStep(d: Disk, d': Disk, env: Env) {
    Filings(d'.archived) == Filings(d.archived) + Replacement(StartOf(d), env) && StartOf(d') == Seen(StartOf(d), env)
  }

  lemma {:induction false} AddsUp(ds: seq<Disk>, envs: seq<Env>, n: nat)
    requires |ds| == |envs| + 1 && n <= |envs| && forall k :: 0 <= k < |envs| ==> OneStep(ds[k], ds[k + 1], envs[k])
    ensures Filings(ds[n].archived) == Filings(ds[0].archived) + Replaced(StartOf(ds[0]), envs, n)
    ensures StartOf(ds[n]) == LastSeen(StartOf(ds[0]), envs, n)
  {
    if n > 0 {
      AddsUp(ds, envs, n - 1);
      assert OneStep(ds[n - 1], ds[n - 1 + 1], envs[n - 1]);
    }
  }

  lemma {:induction false} OneFiling(d: Disk, env: Env)
    ensures OneStep(d, FullRun(d, env), env)
  {
    FullRunArchives(d, env);
    if IsRestart(d, env) { FilingsSnoc(d.archived, Filed(d, env)); }
  }

  lemma {:induction false} FilingsSnoc(a: seq<Archived>, x: Archived)
    ensures Filings(a + [x]) == Filings(a) + [(x.epoch.start, x.at)]
  {
  }

  // ---- restarts that are killed ---------------------------------------------------------------

  function RestartAlert(d: Disk, env: Env): Action
    requires d.active.Some?
  {
    Send(AlertSent(Item(Restarted(d.active.value.start), env.now)), env.alertError.None?)
  }

  /** The write and the alert with which a restart begins; nothing when the old epoch was complete. */
  function Filing(d: Disk, env: Env, first: Disk): seq<Action>
    requires d.active.Some?
  {
    if MarkCompleted(d.active.value).status == Completed then [] else [Persist(first), RestartAlert(d, env)]
  }

  function Shape(d: Disk, env: Env, first: Disk, more: seq<Action>, final: Disk): seq<Action>
    requires d.active.Some?
  {
    FlushLog(d.pending, |d.pending|, env) + Filing(d, env, first) + more + [Persist(final)]
  }

  /** The log of a restart: retries, the filing, sends that are no alerts, the final write. */
  lemma {:induction false} RestartLog(d: Disk, env: Env) returns (first: Disk, more: seq<Action>, final: Disk)
    requires IsRestart(d, env)
    ensures RunLog(d, env) == Shape(d, env, first, more, final)
    ensures first.archived == d.archived + [Filed(d, env)] && first.active == Some(MarkCompleted(d.active.value))
    ensures OnlyOtherSends(more)
  {
    var m, start := Loaded(d, env), env.health.value;
    assert Recovered(m, env, start) == m;
    var filed := m.(archived := m.archived + [Filed(d, env)]);
    var item := Item(Restarted(d.active.value.start), env.now);
    first := Written(filed.(pending := filed.pending + [Entry(item, None)]), env.now);
    OpenedLog(d, env, first);
    more, final := FinalWrite(d, Opened(m, env, start), env);
  }

  lemma {:induction false} OpenedLog(d: Disk, env: Env, first: Disk)
    requires IsRestart(d, env)
    requires var m := Loaded(d, env);
      first == Disk(env.now, m.active, m.archived + [Filed(d, env)],
                    m.pending + [Entry(Item(Restarted(d.active.value.start), env.now), None)])
    ensures Opened(Loaded(d, env), env, env.health.value).log
         == FlushLog(d.pending, |d.pending|, env) + Filing(d, env, first)
  {
  }

  /**
   * No recovery is announced for an epoch that is being replaced: besides retries of earlier
   * alerts a restart sends only its own alert, and that only for an unfinished epoch.
   */
  lemma {:induction false} RestartRaisesNoRecovery(d: Disk, env: Env, k: nat)
    requires IsRestart(d, env) && |d.pending| <= k < |RunLog(d, env)|
    requires RunLog(d, env)[k].Send? && RunLog(d, env)[k].what.AlertSent?
    ensures Unfinished(d) && RunLog(d, env)[k] == RestartAlert(d, env)
  {
    var first, more, final := RestartLog(d, env);
    FlushLength(d.pending, |d.pending|, env);
    OnlyAlert(FlushLog(d.pending, |d.pending|, env), Filing(d, env, first), more, final, k);
  }

  lemma {:induction false} OnlyAlert(flush: seq<Action>, filing: seq<Action>, more: seq<Action>, final: Disk, k: nat)
    requires OnlyOtherSends(more)
    requires var log := flush + filing + more + [Persist(final)];
      |flush| <= k < |log| && log[k].Send? && log[k].what.AlertSent?
    ensures k - |flush| < |filing| && (flush + filing + more + [Persist(final)])[k] == filing[k - |flush|]
  {
    var n, log := |flush| + |filing|, flush + filing + more + [Persist(final)];
    assert forall j :: 0 <= j < |more| ==> log[n + j] == more[j] && more[j] in more;
  }

  lemma {:induction false} FlushLength(pending: seq<Entry>, n: nat, env: Env)
    requires n <= |pending|
    ensures |FlushLog(pending, n, env)| == n && forall k :: 0 <= k < n ==> FlushLog(pending, n, env)[k].Send?
  {
    if n > 0 { FlushLength(pending, n - 1, env); }
  }

  lemma {:induction false} DiskAfterSends(d: Disk, log: seq<Action>, n: nat)
    requires n <= |log| && forall k :: n <= k < |log| ==> log[k].Send?
    ensures DiskAfter(d, log) == DiskAfter(d, log[..n])
  {
    if n < |log| {
      DiskAfterSends(d, log[..|log| - 1], n);
      assert log[..|log| - 1][..n] == log[..n];
    } else {
      assert log[..n] == log;
    }
  }

  /** A kill before the first write: retries alone, or a complete epoch up to the final write. */
  ghost predicate BeforeFiling(d: Disk, k: nat) { k <= |d.pending| || !Unfinished(d) }

  /**
   * Where a kill during a restart leaves the disk: as it was before the first write; with
   * the old epoch archived but still active between the first and the final write.
   */
  lemma {:induction false} KilledRestart(d: Disk, env: Env, k: nat)
    requires IsRestart(d, env) && k < |RunLog(d, env)|
    ensures var after := DiskAfter(d, RunLog(d, env)[..k]);
      if BeforeFiling(d, k) then after == d
      else after.archived == d.archived + [Filed(d, env)] && after.active == Some(MarkCompleted(d.active.value))
  {
    var first, more, final := RestartLog(d, env);
    FlushLength(d.pending, |d.pending|, env);
    OneWrite(d, FlushLog(d.pending, |d.pending|, env), Filing(d, env, first), more, final, k);
  }

  lemma {:induction false} OneWrite(d: Disk, flush: seq<Action>, filing: seq<Action>, more: seq<Action>, final: Disk,
        k: nat)
    requires (forall a :: a in flush ==> a.Send?) && (forall a :: a in more ==> a.Send?)
    requires filing == [] || (|filing| == 2 && filing[0].Persist? && filing[1].Send?)
    requires k <= |flush| + |filing| + |more|
    ensures DiskAfter(d, (flush + filing + more + [Persist(final)])[..k])
         == if k <= |flush| || filing == [] then d else filing[0].disk
  {
    var n, log := |flush|, flush + filing + more + [Persist(final)];
    forall j | 0 <= j < k && (filing == [] || j != n) ensures log[j].Send? {
      if j < n { assert log[j] in flush; } else if j >= n + |filing| { assert log[j] in more; }
    }
    if k <= n || filing == [] {
      DiskAfterSends(d, log[..k], 0);
    } else {
      DiskAfterSends(d, log[..k], n + 1);
      assert log[..k][..n + 1][n] == filing[0];
    }
  }

  lemma {:induction false} MarkTwice(e: Epoch)
    ensures MarkCompleted(MarkCompleted(e)) == MarkCompleted(e)
  {
  }

  /**
   * A restart killed after k actions, then one full run that sees the same start: what is
   * archived, and that it is the one entry due exactly when the kill did not fall between
   * the two writes of an unfinished epoch's restart.
   */
  lemma {:induction false} KilledRestartArchivedOnceIff(d: Disk, env: Env, k: nat, next: Env)
    requires IsRestart(d, env) && k <= |RunLog(d, env)| && next.health == env.health
    ensures var killed := DiskAfter(d, RunLog(d, env)[..k]);
      var final := DiskAfter(killed, RunLog(killed, next));
      && final.archived == d.archived + (if k == |RunLog(d, env)| then [Filed(d, env)]
                                         else if BeforeFiling(d, k) then [Filed(d, next)]
                                         else [Filed(d, env), Filed(d, next)])
      && (|final.archived| == |d.archived| + 1 <==> k == |RunLog(d, env)| || BeforeFiling(d, k))
  {
    var killed := DiskAfter(d, RunLog(d, env)[..k]);
    if k == |RunLog(d, env)| {
      assert RunLog(d, env)[..k] == RunLog(d, env);
      FullRunArchives(d, env);
    } else {
      KilledRestart(d, env, k);
      if !BeforeFiling(d, k) { FiledAgain(d, env, killed, next); }
    }
    FullRunArchives(killed, next);
  }

  lemma {:induction false} FiledAgain(d: Disk, env: Env, killed: Disk, next: Env)
    requires IsRestart(d, env) && next.health == env.health && killed.active == Some(MarkCompleted(d.active.value))
    ensures IsRestart(killed, next) && Filed(killed, next) == Filed(d, next)
  {
    MarkTwice(d.active.value);
  }
}
