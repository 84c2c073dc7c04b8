/**
 * The life of one epoch's checkpoints over every run, killed anywhere or not: states only
 * move forward, saved data is never rewritten, readings are timely, completion is final.
 */
module CanaryLifecycle {
  import opened Wrappers
  import opened Canary

  /** What a checkpoint's record says about when it was read. */
  ghost predicate Timely(cp: Checkpoint, start: int, i: nat) {
    match cp.state
    case Pending => cp.data.None? && cp.message.None? && cp.collectedAt.None? && cp.missedAt.None?
    case Missed => cp.data.None? && cp.missedAt.Some? && cp.missedAt.value > DueAt(start, i) + GRACE_MS
    case _ =>
      && cp.data.Some? && cp.message.Some? && cp.message.value.data == cp.data.value && cp.missedAt.None?
      && cp.collectedAt.Some? && DueAt(start, i) <= cp.collectedAt.value <= DueAt(start, i) + GRACE_MS
  }

  /** Later record of the same checkpoint. */
  ghost predicate Evolves(a: Checkpoint, b: Checkpoint) {
    && (b.state == a.state || a.state == Pending || (a.state == Collected && b.state == Notified))
    && (a.state != Pending ==>
          b.data == a.data && b.message == a.message && b.collectedAt == a.collectedAt && b.missedAt == a.missedAt)
  }

  ghost predicate WellFormed(e: Epoch) {
    && |e.cps| == CHECKPOINTS && (forall i :: 0 <= i < CHECKPOINTS ==> Timely(e.cps[i], e.start, i))
    && (e.status == Completed ==> AllFinal(e))
  }

  /** Later state of the same epoch. */
  ghost predicate EpochEvolves(a: Epoch, b: Epoch) {
    && b.start == a.start && |a.cps| == |b.cps|
    && (forall i :: 0 <= i < |a.cps| ==> Evolves(a.cps[i], b.cps[i]))
    && (a.baseline.Some? ==> b.baseline == a.baseline)
    && a.late <= b.late && a.diagnostics <= b.diagnostics
    && (a.status == Completed ==> b.status == Completed)
  }

  ghost predicate ValidDisk(d: Disk) { d.active.Some? ==> WellFormed(d.active.value) }

  /** `e` is a well-formed later state of what `d` holds, if that is the same epoch. */
  ghost predicate Continues(d: Disk, e: Option<Epoch>) {
    && (e.Some? ==> WellFormed(e.value))
    && (e.Some? && d.active.Some? && d.active.value.start == e.value.start ==> EpochEvolves(d.active.value, e.value))
  }

  lemma {:induction false} EvolvesTransitive(a: Epoch, b: Epoch, c: Epoch)
    requires EpochEvolves(a, b) && EpochEvolves(b, c)
    ensures EpochEvolves(a, c)
  {
  }

  // ---- the loop -------------------------------------------------------------------------------

  lemma {:induction false} NextCpEvolves(env: Env, e: Epoch, i: nat)
    requires i < |e.cps| && Timely(e.cps[i], e.start, i)
    ensures Timely(NextCp(env, e, i), e.start, i) && Evolves(e.cps[i], NextCp(env, e, i))
    ensures Final(e.cps[i]) ==> NextCp(env, e, i) == e.cps[i]
  {
  }

  /** `b` is `a` after the visit of offset i: its own checkpoint is rewritten, from what `a` held. */
  ghost predicate OneVisit(env: Env, a: Epoch, b: Epoch, i: nat) {
    && i < |a.cps| && b.start == a.start && b.status == a.status && b.baseline == a.baseline
    && b.cps == a.cps[i := NextCp(env, a, i)] && a.late <= b.late && a.diagnostics <= b.diagnostics
  }

  /** `b` is `a` after the visits from offset i on. */
  ghost predicate Passed(env: Env, a: Epoch, b: Epoch, i: nat) {
    && b.start == a.start && b.status == a.status && b.baseline == a.baseline && |b.cps| == |a.cps|
    && (forall j :: 0 <= j < |a.cps| ==> b.cps[j] == if j < i then a.cps[j] else NextCp(env, a, j))
    && a.late <= b.late && a.diagnostics <= b.diagnostics
  }

  lemma {:induction false} VisitCps(env: Env, x: Loop, i: nat)
    requires i < |x.epoch.cps|
    ensures OneVisit(env, x.epoch, Visit(env, x, i).epoch, i)
  {
  }

  lemma {:induction false} SameCpSameNext(env: Env, a: Epoch, b: Epoch, j: nat)
    requires j < |a.cps| && j < |b.cps| && a.cps[j] == b.cps[j] && a.start == b.start && a.baseline == b.baseline
    ensures NextCp(env, a, j) == NextCp(env, b, j)
  {
  }

  lemma {:induction false} OneMoreVisit(env: Env, a: Epoch, b: Epoch, c: Epoch, i: nat)
    requires OneVisit(env, a, b, i) && Passed(env, b, c, i + 1)
    ensures Passed(env, a, c, i)
  {
    forall j | i < j < |a.cps| ensures c.cps[j] == NextCp(env, a, j) { SameCpSameNext(env, a, b, j); }
  }

  lemma {:induction false} LoopCps(env: Env, x: Loop, i: nat)
    requires i <= |x.epoch.cps|
    ensures Passed(env, x.epoch, VisitFrom(env, x, i).epoch, i)
    decreases |x.epoch.cps| - i
  {
    if i < |x.epoch.cps| {
      var next := Visit(env, x, i);
      VisitCps(env, x, i);
      LoopCps(env, next, i + 1);
      OneMoreVisit(env, x.epoch, next.epoch, VisitFrom(env, next, i + 1).epoch, i);
    }
  }

  /** One pass over the checkpoints, then completion, is a later well-formed state. */
  lemma {:induction false} LoopEvolves(env: Env, e: Epoch, log: seq<Action>)
    requires WellFormed(e)
    ensures var y := VisitFrom(env, Loop(e, false, log), 0).epoch;
      WellFormed(MarkCompleted(y)) && EpochEvolves(e, MarkCompleted(y))
  {
    var x := Loop(e, false, log);
    LoopCps(env, x, 0);
    forall i | 0 <= i < |e.cps|
      ensures Timely(NextCp(env, e, i), e.start, i) && Evolves(e.cps[i], NextCp(env, e, i))
      ensures Final(e.cps[i]) ==> NextCp(env, e, i) == e.cps[i]
    {
      NextCpEvolves(env, e, i);
    }
  }

  lemma {:induction false} LoopCp(env: Env, e: Epoch, log: seq<Action>, j: nat)
    requires j < |e.cps|
    ensures VisitFrom(env, Loop(e, false, log), 0).epoch.cps[j] == NextCp(env, e, j)
  {
    LoopCps(env, Loop(e, false, log), 0);
  }

  lemma {:induction false} NextCpSampled(env: Env, e: Epoch, i: nat, j: nat)
    requires i < |e.cps| && j < |e.cps|
    ensures NextCp(env.(sample := Some(i)), e, j) == if j == i then e.cps[i] else NextCp(env.(sample := None), e, j)
  {
  }

  /** The sampled offset is left exactly as it was; every other one is treated as in a plain run. */
  lemma {:induction false} SampleNowTouchesNothing(env: Env, e: Epoch, log: seq<Action>, i: nat, j: nat)
    requires i < |e.cps| && j < |e.cps|
    ensures VisitFrom(env.(sample := Some(i)), Loop(e, false, log), 0).epoch.cps[j]
         == if j == i then e.cps[i] else VisitFrom(env.(sample := None), Loop(e, false, log), 0).epoch.cps[j]
  {
    LoopCp(env.(sample := Some(i)), e, log, j);
    LoopCp(env.(sample := None), e, log, j);
    NextCpSampled(env, e, i, j);
  }

  // ---- what the loop sends --------------------------------------------------------------------

  lemma {:induction false} VisitDelivers(env: Env, x: Loop, i: nat, j: nat)
    requires i < |x.epoch.cps|
    ensures Send(CheckpointSent(j), true) in VisitSends(env, x, i)
       <==> j == i && x.epoch.cps[i].state != Notified && NextCp(env, x.epoch, i).state == Notified
  {
  }

  /**
   * A checkpoint turns notified in exactly the pass that delivers its message; the log of
   * the rest of the loop from offset i on holds that delivery or not.
   */
  lemma {:induction false} NotifiedIffDelivered(env: Env, x: Loop, i: nat, j: nat)
    requires i <= |x.epoch.cps| && j < |x.epoch.cps| && Send(CheckpointSent(j), true) !in x.log
    ensures Send(CheckpointSent(j), true) in VisitFrom(env, x, i).log
       <==> i <= j && x.epoch.cps[j].state != Notified && NextCp(env, x.epoch, j).state == Notified
    decreases |x.epoch.cps| - i
  {
    if i < |x.epoch.cps| {
      var next := Visit(env, x, i);
      VisitOne(env, x, i, j);
      if Send(CheckpointSent(j), true) in next.log {
        LoopOnlySends(env, next, i + 1);
        StaysInPrefix(next.log, VisitFrom(env, next, i + 1).log, Send(CheckpointSent(j), true));
      } else {
        NotifiedIffDelivered(env, next, i + 1, j);
      }
    }
  }

  /** What one visit means for checkpoint j, its own or another's. */
  lemma {:induction false} VisitOne(env: Env, x: Loop, i: nat, j: nat)
    requires i < |x.epoch.cps| && j < |x.epoch.cps| && Send(CheckpointSent(j), true) !in x.log
    ensures Send(CheckpointSent(j), true) in Visit(env, x, i).log
       <==> j == i && x.epoch.cps[i].state != Notified && NextCp(env, x.epoch, i).state == Notified
    ensures j != i ==> Visit(env, x, i).epoch.cps[j] == x.epoch.cps[j]
    ensures j != i ==> NextCp(env, Visit(env, x, i).epoch, j) == NextCp(env, x.epoch, j)
  {
    VisitDelivers(env, x, i, j);
    VisitCps(env, x, i);
  }

  lemma {:induction false} StaysInPrefix<T>(a: seq<T>, b: seq<T>, x: T)
    requires a <= b && x in a
    ensures x in b
  {
    var i :| 0 <= i < |a| && a[i] == x;
    assert b[i] == x;
  }

  function LateSends(log: seq<Action>): nat {
    if log == [] then 0
    else LateSends(log[..|log| - 1]) + if log[|log| - 1].Send? && log[|log| - 1].what == LateSent then 1 else 0
  }

  predicate IsCatchUp(more: seq<Action>) { |more| == 1 && more[0].Send? && more[0].what == LateSent }

  lemma {:induction false} LateSendsSnoc(log: seq<Action>, more: seq<Action>)
    requires |more| <= 1
    ensures LateSends(log + more) == LateSends(log) + if IsCatchUp(more) then 1 else 0
  {
    if more == [] { assert log + more == log; } else { assert (log + more)[..|log|] == log; }
  }

  lemma {:induction false} VisitCatchesUpOnce(env: Env, x: Loop, i: nat)
    requires i < |x.epoch.cps|
    ensures var y := Visit(env, x, i);
      y.log == x.log + VisitSends(env, x, i) && |VisitSends(env, x, i)| <= 1
      && (IsCatchUp(VisitSends(env, x, i)) ==> !x.lateTaken && y.lateTaken) && (x.lateTaken ==> y.lateTaken)
  {
  }

  /** However many windows were missed, a run sends at most one late catch-up. */
  lemma {:induction false} OneCatchUpPerRun(env: Env, x: Loop, i: nat)
    requires i <= |x.epoch.cps|
    ensures LateSends(VisitFrom(env, x, i).log) <= LateSends(x.log) + if x.lateTaken then 0 else 1
    decreases |x.epoch.cps| - i
  {
    if i < |x.epoch.cps| {
      var y := Visit(env, x, i);
      VisitCatchesUpOnce(env, x, i);
      LateSendsSnoc(x.log, VisitSends(env, x, i));
      OneCatchUpPerRun(env, y, i + 1);
    }
  }

  // ---- one run --------------------------------------------------------------------------------

  /** Every write of the log continues `d`; until the final write the checkpoints are as loaded. */
  ghost predicate Writes(d: Disk, log: seq<Action>) {
    forall k :: 0 <= k < |log| && log[k].Persist? ==> Continues(d, log[k].disk.active)
  }

  ghost predicate HoldsBack(d: Disk, log: seq<Action>) {
    forall k :: 0 <= k < |log| && log[k].Persist? && log[k].disk.active.Some? ==>
      d.active.Some? && log[k].disk.active.value.start == d.active.value.start
      && log[k].disk.active.value.cps == d.active.value.cps
  }

  lemma {:induction false} MarkEvolves(e: Epoch)
    requires WellFormed(e)
    ensures WellFormed(MarkCompleted(e)) && EpochEvolves(e, MarkCompleted(e))
    ensures MarkCompleted(e).cps == e.cps
  {
  }

  lemma {:induction false} FlushWritesNothing(pending: seq<Entry>, n: nat, env: Env)
    requires n <= |pending|
    ensures forall k :: 0 <= k < |FlushLog(pending, n, env)| ==> FlushLog(pending, n, env)[k].Send?
  {
    if n > 0 { FlushWritesNothing(pending, n - 1, env); }
  }

  /** The variables hold a continuation of the disk's epoch with its checkpoints unchanged. */
  ghost predicate Untouched(d: Disk, m: Mem) {
    && Continues(d, m.active) && Writes(d, m.log) && HoldsBack(d, m.log)
    && (m.active.Some? ==> d.active.Some? && m.active.value.start == d.active.value.start
                           && m.active.value.cps == d.active.value.cps)
  }

  lemma {:induction false} LoadedUntouched(d: Disk, env: Env)
    requires ValidDisk(d)
    ensures Untouched(d, Loaded(d, env))
  {
    FlushWritesNothing(d.pending, |d.pending|, env);
    if d.active.Some? { MarkEvolves(d.active.value); }
  }

  lemma {:induction false} SaveUntouched(d: Disk, m: Mem, now: int)
    requires Untouched(d, m)
    ensures Untouched(d, Save(m, now))
  {
  }

  lemma {:induction false} SendOrQueueUntouched(d: Disk, m: Mem, alert: Alert, env: Env)
    requires Untouched(d, m)
    ensures Untouched(d, SendOrQueue(m, alert, env))
  {
    var q := m.(pending := m.pending + [Entry(Item(alert, env.now), None)]);
    SaveUntouched(d, q, env.now);
  }

  /** A change of status, interruption time or error that is allowed for this epoch. */
  lemma {:induction false} StatusChange(d: Disk, m: Mem, e: Epoch)
    requires Untouched(d, m) && m.active.Some? && m.active.value.status != Completed && e.status != Completed
    requires e == m.active.value.(status := e.status, since := e.since, lastError := e.lastError)
    requires d.active.value.status != Completed
    ensures Untouched(d, m.(active := Some(e)))
  {
  }

  lemma {:induction false} HealthLostUntouched(d: Disk, env: Env)
    requires ValidDisk(d)
    ensures Untouched(d, HealthLostRun(Loaded(d, env), env))
  {
    LoadedUntouched(d, env);
    var m := Loaded(d, env);
    if m.active.None? || m.active.value.status == Completed {
      SaveUntouched(d, m, env.now);
    } else {
      var e := m.active.value;
      var alerted := m;
      if e.status != Interrupted {
        var hurt := e.(status := Interrupted, since := Some(env.now));
        StatusChange(d, m, hurt);
        SendOrQueueUntouched(d, m.(active := Some(hurt)), HealthLost(e.start), env);
        alerted := SendOrQueue(m.(active := Some(hurt)), HealthLost(e.start), env);
      }
      var noted := alerted.active.value.(lastError := Some(env.healthError));
      StatusChange(d, alerted, noted);
      SaveUntouched(d, alerted.(active := Some(noted)), env.now);
    }
  }

  lemma {:induction false} RecoveredUntouched(d: Disk, env: Env, start: int)
    requires ValidDisk(d)
    ensures Untouched(d, Recovered(Loaded(d, env), env, start))
  {
    LoadedUntouched(d, env);
    var m := Loaded(d, env);
    if m.active.Some? && m.active.value.status == Interrupted && m.active.value.start == start {
      var back := m.active.value.(status := Running, since := None, lastError := None);
      StatusChange(d, m, back);
      SendOrQueueUntouched(d, m.(active := Some(back)), HealthBack(start), env);
    }
  }

  lemma {:induction false} NewEpochWellFormed(start: int)
    ensures WellFormed(NewEpoch(start))
  {
  }

  /** Before the checkpoint loop: nothing written has moved a checkpoint. */
  lemma {:induction false} OpenedHoldsBack(d: Disk, env: Env, start: int)
    requires ValidDisk(d)
    ensures var m := Opened(Recovered(Loaded(d, env), env, start), env, start);
      Continues(d, m.active) && m.active.value.start == start && Writes(d, m.log) && HoldsBack(d, m.log)
  {
    RecoveredUntouched(d, env, start);
    NewEpochWellFormed(start);
    var m := Recovered(Loaded(d, env), env, start);
    if m.active.Some? && m.active.value.start != start {
      var e := m.active.value;
      var reason := if e.status == Completed then NewEpochAfterCompletion else RestartDetected;
      var filed := m.(archived := m.archived + [Archived(e, env.now, reason)]);
      assert Untouched(d, filed);
      SendOrQueueUntouched(d, filed, Restarted(e.start), env);
    }
  }

  lemma {:induction false} BaselineEvolves(e: Epoch, env: Env)
    requires WellFormed(e)
    ensures WellFormed(WithBaseline(e, env)) && EpochEvolves(e, WithBaseline(e, env))
    ensures WithBaseline(e, env).cps == e.cps
  {
  }

  lemma {:induction false} LoopOnlySends(env: Env, x: Loop, i: nat)
    requires i <= |x.epoch.cps|
    ensures var y := VisitFrom(env, x, i);
      x.log <= y.log && forall k :: |x.log| <= k < |y.log| ==> y.log[k].Send?
    decreases |x.epoch.cps| - i
  {
    if i < |x.epoch.cps| { LoopOnlySends(env, Visit(env, x, i), i + 1); }
  }

  lemma {:induction false} CheckedWrites(d: Disk, m: Mem, env: Env)
    requires m.active.Some? && Continues(d, m.active) && Writes(d, m.log) && HoldsBack(d, m.log)
    ensures var log := Checked(m, env).log;
      log != [] && log[|log| - 1].Persist? && Writes(d, log) && HoldsBack(d, log[..|log| - 1])
  {
    var x := Loop(WithBaseline(m.active.value, env), false, m.log);
    CheckedContinues(d, m, env);
    LoopOnlySends(env, x, 0);
    SendsThenWrite(d, m.log, VisitFrom(env, x, 0).log, Written(Checked(m, env), env.now));
  }

  lemma {:induction false} SendsThenWrite(d: Disk, before: seq<Action>, sent: seq<Action>, last: Disk)
    requires Writes(d, before) && HoldsBack(d, before) && Continues(d, last.active)
    requires before <= sent && forall k :: |before| <= k < |sent| ==> sent[k].Send?
    ensures var log := sent + [Persist(last)];
      Writes(d, log) && log[..|log| - 1] == sent && HoldsBack(d, sent)
  {
    assert forall k :: 0 <= k < |before| ==> sent[k] == before[k];
  }

  lemma {:induction false} CheckedContinues(d: Disk, m: Mem, env: Env)
    requires m.active.Some? && Continues(d, m.active)
    ensures Continues(d, Checked(m, env).active)
  {
    var e := m.active.value;
    BaselineEvolves(e, env);
    var based := WithBaseline(e, env);
    LoopEvolves(env, based, m.log);
    var after := MarkCompleted(VisitFrom(env, Loop(based, false, m.log), 0).epoch);
    EvolvesTransitive(e, based, after);
    if d.active.Some? && d.active.value.start == e.start { EvolvesTransitive(d.active.value, e, after); }
  }

  /**
   * Whatever a run writes continues what it read; and no checkpoint moves on disk before
   * the run's very last action.
   */
  lemma {:induction false} RunContinues(d: Disk, env: Env)
    requires ValidDisk(d)
    ensures var log := RunLog(d, env);
      log != [] && log[|log| - 1].Persist? && Writes(d, log) && HoldsBack(d, log[..|log| - 1])
  {
    if env.health.None? {
      HealthLostUntouched(d, env);
    } else {
      OpenedHoldsBack(d, env, env.health.value);
      CheckedWrites(d, Opened(Recovered(Loaded(d, env), env, env.health.value), env, env.health.value), env);
    }
  }

  // ---- every history --------------------------------------------------------------------------

  lemma {:induction false} DiskAfterContinues(d: Disk, log: seq<Action>)
    requires ValidDisk(d) && Writes(d, log)
    ensures Continues(d, DiskAfter(d, log).active)
  {
    if log != [] && !log[|log| - 1].Persist? { DiskAfterContinues(d, log[..|log| - 1]); }
  }

  lemma {:induction false} AttemptContinues(d: Disk, a: Attempt)
    requires ValidDisk(d)
    ensures ValidDisk(After(d, a)) && Continues(d, After(d, a).active)
  {
    RunContinues(d, a.env);
    DiskAfterContinues(d, Happened(d, a));
  }

  // ---- the epoch stays while the service does ---------------------------------------------------

  ghost predicate ActiveIs(a: Option<Epoch>, start: int) { a.Some? && a.value.start == start }

  /** The variables and everything written so far hold the epoch that started at `start`. */
  ghost predicate Keeps(m: Mem, start: int) { ActiveIs(m.active, start) && LogKeeps(m.log, start) }

  ghost predicate LogKeeps(log: seq<Action>, start: int) {
    forall k :: 0 <= k < |log| && log[k].Persist? ==> ActiveIs(log[k].disk.active, start)
  }

  lemma {:induction false} SendOrQueueKeeps(m: Mem, alert: Alert, env: Env, start: int)
    requires Keeps(m, start)
    ensures Keeps(SendOrQueue(m, alert, env), start)
  {
  }

  lemma {:induction false} LoadedKeeps(d: Disk, env: Env, start: int)
    requires ActiveIs(d.active, start)
    ensures Keeps(Loaded(d, env), start)
  {
    FlushWritesNothing(d.pending, |d.pending|, env);
  }

  lemma {:induction false} HealthLostKeeps(m: Mem, env: Env, start: int)
    requires Keeps(m, start)
    ensures Keeps(HealthLostRun(m, env), start)
  {
    var e := m.active.value;
    var hurt := e.(status := Interrupted, since := Some(env.now));
    SendOrQueueKeeps(m.(active := Some(hurt)), HealthLost(e.start), env, start);
  }

  lemma {:induction false} HealthyKeeps(m: Mem, env: Env, start: int)
    requires Keeps(m, start)
    ensures Keeps(HealthyRun(m, env, start), start)
  {
    var back := m.active.value.(status := Running, since := None, lastError := None);
    SendOrQueueKeeps(m.(active := Some(back)), HealthBack(start), env, start);
    var r := Opened(Recovered(m, env, start), env, start);
    assert Keeps(r, start);
    var x := Loop(WithBaseline(r.active.value, env), false, r.log);
    LoopCps(env, x, 0);
    LoopOnlySends(env, x, 0);
  }

  /** The service was not seen with another start. */
  ghost predicate SameService(env: Env, start: int) { env.health.None? || env.health == Some(start) }

  lemma {:induction false} DiskAfterKeeps(d: Disk, log: seq<Action>, start: int)
    requires ActiveIs(d.active, start) && LogKeeps(log, start)
    ensures ActiveIs(DiskAfter(d, log).active, start)
  {
    if log != [] && !log[|log| - 1].Persist? { DiskAfterKeeps(d, log[..|log| - 1], start); }
  }

  /** An attempt, killed anywhere, that does not see another start leaves the epoch active. */
  lemma {:induction false} AttemptKeepsEpoch(d: Disk, a: Attempt, start: int)
    requires ActiveIs(d.active, start) && SameService(a.env, start)
    ensures ActiveIs(After(d, a).active, start)
  {
    LoadedKeeps(d, a.env, start);
    if a.env.health.None? {
      HealthLostKeeps(Loaded(d, a.env), a.env, start);
    } else {
      HealthyKeeps(Loaded(d, a.env), a.env, start);
    }
    DiskAfterKeeps(d, Happened(d, a), start);
  }

  /**
   * Over all runs of one service, killed anywhere or not: its epoch stays the active one,
   * checkpoints only move forward, what was saved is never rewritten, every reading was
   * timely, and a completed epoch stays completed.
   */
  lemma {:induction false} EpochLife(d: Disk, attempts: seq<Attempt>, start: int)
    requires ValidDisk(d) && ActiveIs(d.active, start)
    requires forall k :: 0 <= k < |attempts| ==> SameService(attempts[k].env, start)
    ensures ValidDisk(DiskHistory(d, attempts)) && ActiveIs(DiskHistory(d, attempts).active, start)
    ensures EpochEvolves(d.active.value, DiskHistory(d, attempts).active.value)
  {
    if attempts != [] {
      var front, a := attempts[..|attempts| - 1], attempts[|attempts| - 1];
      EpochLife(d, front, start);
      AttemptKeepsEpoch(DiskHistory(d, front), a, start);
      AttemptContinues(DiskHistory(d, front), a);
      EvolvesTransitive(d.active.value, DiskHistory(d, front).active.value, DiskHistory(d, attempts).active.value);
    }
  }

  /** Every disk reached from a missing snapshot is valid. */
  lemma {:induction false} ReachableValid(attempts: seq<Attempt>)
    ensures ValidDisk(DiskHistory(EMPTY, attempts))
  {
    if attempts != [] {
      ReachableValid(attempts[..|attempts| - 1]);
      AttemptContinues(DiskHistory(EMPTY, attempts[..|attempts| - 1]), attempts[|attempts| - 1]);
    }
  }

  // ---- delivered and saved ----------------------------------------------------------------------

  /** A run killed before its last action leaves every checkpoint on disk as it was. */
  lemma {:induction false} KilledRunMovesNoCheckpoint(d: Disk, log: seq<Action>)
    requires HoldsBack(d, log) && DiskAfter(d, log).active.Some?
    ensures d.active.Some? && DiskAfter(d, log).active.value.start == d.active.value.start
    ensures DiskAfter(d, log).active.value.cps == d.active.value.cps
  {
    if log != [] && !log[|log| - 1].Persist? { KilledRunMovesNoCheckpoint(d, log[..|log| - 1]); }
  }

  ghost predicate NoCheckpointSent(log: seq<Action>) {
    forall k :: 0 <= k < |log| && log[k].Send? ==> !log[k].what.CheckpointSent?
  }

  lemma {:induction false} FlushSendsNoCheckpoint(pending: seq<Entry>, n: nat, env: Env)
    requires n <= |pending|
    ensures NoCheckpointSent(FlushLog(pending, n, env))
  {
    if n > 0 { FlushSendsNoCheckpoint(pending, n - 1, env); }
  }

  lemma {:induction false} SendOrQueueSendsNoCheckpoint(m: Mem, alert: Alert, env: Env)
    requires NoCheckpointSent(m.log)
    ensures NoCheckpointSent(SendOrQueue(m, alert, env).log)
  {
  }

  /** Without health no checkpoint message is sent. */
  lemma {:induction false} HealthLostSendsNoCheckpoint(d: Disk, env: Env)
    ensures NoCheckpointSent(HealthLostRun(Loaded(d, env), env).log)
  {
    FlushSendsNoCheckpoint(d.pending, |d.pending|, env);
    var m := Loaded(d, env);
    if m.active.Some? {
      var e := m.active.value;
      var hurt := e.(status := Interrupted, since := Some(env.now));
      SendOrQueueSendsNoCheckpoint(m.(active := Some(hurt)), HealthLost(e.start), env);
    }
  }

  /** Before the checkpoint loop only operational alerts are sent. */
  lemma {:induction false} OpenedSendsNoCheckpoint(d: Disk, env: Env, start: int)
    ensures NoCheckpointSent(Opened(Recovered(Loaded(d, env), env, start), env, start).log)
  {
    FlushSendsNoCheckpoint(d.pending, |d.pending|, env);
    var m := Loaded(d, env);
    if m.active.Some? {
      var e := m.active.value;
      var back := e.(status := Running, since := None, lastError := None);
      SendOrQueueSendsNoCheckpoint(m.(active := Some(back)), HealthBack(start), env);
      var reason := if e.status == Completed then NewEpochAfterCompletion else RestartDetected;
      var filed := m.archived + [Archived(e, env.now, reason)];
      SendOrQueueSendsNoCheckpoint(m.(archived := filed), Restarted(e.start), env);
    }
  }

  /** The epoch whose checkpoints a healthy run visits. */
  function Visited(d: Disk, env: Env): Epoch
    requires env.health.Some?
  {
    WithBaseline(Opened(Recovered(Loaded(d, env), env, env.health.value), env, env.health.value).active.value, env)
  }

  /** What the visited epoch's checkpoints are: those on disk, or fresh ones after a change of start. */
  lemma {:induction false} VisitedCps(d: Disk, env: Env)
    requires ValidDisk(d) && env.health.Some?
    ensures Visited(d, env).start == env.health.value
    ensures Visited(d, env).cps == if ActiveIs(d.active, env.health.value) then d.active.value.cps else NewEpoch(0).cps
  {
  }

  /** The full run writes what the visits made of each checkpoint. */
  lemma {:induction false} FullRunCps(d: Disk, env: Env, j: nat)
    requires ValidDisk(d) && env.health.Some? && j < CHECKPOINTS
    ensures var final := DiskAfter(d, RunLog(d, env)).active;
      ActiveIs(final, env.health.value) && |final.value.cps| == CHECKPOINTS
      && final.value.cps[j] == NextCp(env, Visited(d, env), j)
  {
    VisitedCps(d, env);
    var m := Opened(Recovered(Loaded(d, env), env, env.health.value), env, env.health.value);
    LoopCps(env, Loop(Visited(d, env), false, m.log), 0);
  }

  /** A run delivers a checkpoint's message exactly when its visit turns it notified. */
  lemma {:induction false} RunDelivers(d: Disk, env: Env, j: nat)
    requires ValidDisk(d) && j < CHECKPOINTS
    ensures Send(CheckpointSent(j), true) in RunLog(d, env)
       <==> env.health.Some? && |Visited(d, env).cps| == CHECKPOINTS
            && Visited(d, env).cps[j].state != Notified && NextCp(env, Visited(d, env), j).state == Notified
  {
    if env.health.None? {
      HealthLostSendsNoCheckpoint(d, env);
    } else {
      VisitedCps(d, env);
      OpenedSendsNoCheckpoint(d, env, env.health.value);
      var m := Opened(Recovered(Loaded(d, env), env, env.health.value), env, env.health.value);
      NotifiedIffDelivered(env, Loop(Visited(d, env), false, m.log), 0, j);
    }
  }

  /** The disk records the service's checkpoint as notified. */
  ghost predicate Recorded(d: Disk, start: int, j: nat) {
    ActiveIs(d.active, start) && j < |d.active.value.cps| && d.active.value.cps[j].state == Notified
  }

  /**
   * A checkpoint's message is sent before its data is saved: whatever the disk and the
   * checkpoint, once the message is delivered the disk records it exactly when the run is
   * not killed before its last action.
   */
  lemma {:induction false} DeliveredIsRecordedIff(d: Disk, env: Env, k: nat, j: nat)
    requires ValidDisk(d) && j < CHECKPOINTS && k <= |RunLog(d, env)|
    requires Send(CheckpointSent(j), true) in RunLog(d, env)[..k]
    ensures env.health.Some?
    ensures Recorded(DiskAfter(d, RunLog(d, env)[..k]), env.health.value, j) <==> k == |RunLog(d, env)|
  {
    var log := RunLog(d, env);
    StaysInPrefix(log[..k], log, Send(CheckpointSent(j), true));
    RunDelivers(d, env, j);
    VisitedCps(d, env);
    if k == |log| {
      assert log[..k] == log;
      FullRunCps(d, env, j);
    } else {
      KilledLeavesCps(d, env, k);
    }
  }

  /** Killed before its last action, a run leaves the checkpoints of the service it saw as they were. */
  lemma {:induction false} KilledLeavesCps(d: Disk, env: Env, k: nat)
    requires ValidDisk(d) && k < |RunLog(d, env)|
    ensures var after := DiskAfter(d, RunLog(d, env)[..k]);
      after.active.Some? ==> d.active.Some? && after.active.value.start == d.active.value.start
                             && after.active.value.cps == d.active.value.cps
  {
    var log := RunLog(d, env);
    RunContinues(d, env);
    assert log[..k] == log[..|log| - 1][..k];
    if DiskAfter(d, log[..k]).active.Some? { KilledRunMovesNoCheckpoint(d, log[..k]); }
  }

  /** The reading was saved by an earlier run and only its message is being sent. */
  ghost predicate SavedBefore(d: Disk, start: int, j: nat) {
    ActiveIs(d.active, start) && j < |d.active.value.cps| && d.active.value.cps[j].state == Collected
  }

  /**
   * What becomes of a checkpoint that was delivered by a run killed before its last action,
   * when the next run of the same service completes: recorded as missed, with its reading
   * lost, exactly when the window is over by then and the reading had not been saved before.
   */
  lemma {:induction false} DeliveredIsLostIff(d: Disk, env: Env, k: nat, j: nat, next: Env)
    requires ValidDisk(d) && j < CHECKPOINTS && k < |RunLog(d, env)|
    requires Send(CheckpointSent(j), true) in RunLog(d, env)[..k]
    requires next.health == env.health && next.sample != Some(j)
    ensures env.health.Some?
    ensures var killed := DiskAfter(d, RunLog(d, env)[..k]);
      var final := DiskAfter(killed, RunLog(killed, next)).active;
      && ActiveIs(final, env.health.value) && |final.value.cps| == CHECKPOINTS
      && (final.value.cps[j].state == Missed
          <==> next.now > DueAt(env.health.value, j) + GRACE_MS && !SavedBefore(d, env.health.value, j))
  {
    DeliveredWasOpen(d, env, k, j);
    NextVisitsTheSame(d, env, k, next);
    var killed := After(d, Attempt(env, k));
    FullRunCps(killed, next, j);
    MissedIff(next, Visited(killed, next), j);
  }

  /** What was delivered had been pending or collected, and collected only if the disk says so. */
  lemma {:induction false} DeliveredWasOpen(d: Disk, env: Env, k: nat, j: nat)
    requires ValidDisk(d) && j < CHECKPOINTS && k <= |RunLog(d, env)|
    requires Send(CheckpointSent(j), true) in RunLog(d, env)[..k]
    ensures env.health.Some? && |Visited(d, env).cps| == CHECKPOINTS && !Final(Visited(d, env).cps[j])
    ensures Visited(d, env).cps[j].state == Collected <==> SavedBefore(d, env.health.value, j)
  {
    StaysInPrefix(RunLog(d, env)[..k], RunLog(d, env), Send(CheckpointSent(j), true));
    RunDelivers(d, env, j);
    VisitedCps(d, env);
  }

  /** After the kill the next run of the service visits the checkpoints that the killed one visited. */
  lemma {:induction false} NextVisitsTheSame(d: Disk, env: Env, k: nat, next: Env)
    requires ValidDisk(d) && k < |RunLog(d, env)| && env.health.Some? && next.health == env.health
    ensures var killed := After(d, Attempt(env, k));
      && ValidDisk(killed) && killed == DiskAfter(d, RunLog(d, env)[..k])
      && Visited(killed, next).start == env.health.value && Visited(killed, next).cps == Visited(d, env).cps
  {
    AttemptContinues(d, Attempt(env, k));
    KilledLeavesCps(d, env, k);
    if ActiveIs(d.active, env.health.value) { AttemptKeepsEpoch(d, Attempt(env, k), env.health.value); }
    VisitedCps(d, env);
    VisitedCps(After(d, Attempt(env, k)), next);
  }

  lemma {:induction false} MissedIff(env: Env, e: Epoch, j: nat)
    requires j < |e.cps| && !Final(e.cps[j]) && env.sample != Some(j)
    ensures NextCp(env, e, j).state == Missed <==> env.now > DueAt(e.start, j) + GRACE_MS && e.cps[j].state != Collected
  {
  }

  /** A run at `now` in which every reading and every delivery succeeds. */
  function AllWell(now: int, start: int): Env {
    Env(now, Some(start), "", None, _ => None, None, Some(""), _ => Some(""), _ => None,
        _ => None, None, None, None, _ => None)
  }

  /** It happens: at the due time, killed before the last action, with the next run after the window. */
  lemma {:induction false} DeliveredCheckpointCanBeLost(j: nat) returns (env: Env, k: nat, next: Env)
    requires j < CHECKPOINTS
    ensures k < |RunLog(EMPTY, env)| && Send(CheckpointSent(j), true) in RunLog(EMPTY, env)[..k]
    ensures var killed := DiskAfter(EMPTY, RunLog(EMPTY, env)[..k]);
      var final := DiskAfter(killed, RunLog(killed, next)).active;
      final.Some? && |final.value.cps| == CHECKPOINTS && final.value.cps[j].state == Missed
  {
    env, next := AllWell(DueAt(0, j), 0), AllWell(DueAt(0, j) + GRACE_MS + 1, 0);
    var log := RunLog(EMPTY, env);
    k := |log| - 1;
    RunContinues(EMPTY, env);
    VisitedCps(EMPTY, env);
    RunDelivers(EMPTY, env, j);
    BeforeLast(log, Send(CheckpointSent(j), true));
    DeliveredIsLostIff(EMPTY, env, k, j, next);
  }

  lemma {:induction false} BeforeLast(log: seq<Action>, a: Action)
    requires a in log && log[|log| - 1] != a
    ensures a in log[..|log| - 1]
  {
    var i :| 0 <= i < |log| && log[i] == a;
    assert log[..|log| - 1][i] == a;
  }
}
