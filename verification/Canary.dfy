/**
 * The momentum-capture canary runner. One run reads the snapshot from disk, acts, and
 * writes the snapshot back, sometimes more than once; it may be killed between any two of
 * its actions. A run is therefore modelled by the sequence of its disk writes and message
 * sends, and a killed run by a prefix of that sequence.
 *
 * Health reads, collected data and deliveries are inputs of a run (`Env`).
 */
module Canary {
  import opened Wrappers

  const HOUR_MS: int := 3_600_000
  const GRACE_MS: int := 2 * HOUR_MS
  const CHECKPOINTS: nat := 3

  /** 24, 48 and 72 hours. */
  function OffsetMs(i: nat): int { 24 * (i as int + 1) * HOUR_MS }

  function DueAt(start: int, i: nat): int { start + OffsetMs(i) }

  // ---- the snapshot ---------------------------------------------------------------------------

  datatype State = Pending | Collected | Notified | Missed

  type Data = string

  /** What a checkpoint message is rendered from. */
  datatype Message = Message(index: nat, data: Data, baseline: Option<Data>)

  datatype Checkpoint = Checkpoint(state: State, data: Option<Data>, message: Option<Message>,
                                   collectedAt: Option<int>, missedAt: Option<int>,
                                   notifyError: Option<string>, errorNotified: bool)

  datatype Status = Running | Interrupted | Completed

  datatype Epoch = Epoch(start: int, status: Status, since: Option<int>, lastError: Option<string>,
                         baseline: Option<Data>, cps: seq<Checkpoint>,
                         late: seq<Data>, diagnostics: seq<Data>, completedAt: Option<int>)

  datatype ArchiveReason = RestartDetected | NewEpochAfterCompletion

  datatype Archived = Archived(epoch: Epoch, at: int, reason: ArchiveReason)

  /** What an operational alert reports. */
  datatype Alert = HealthLost(start: int) | HealthBack(start: int) | Restarted(oldStart: int)

  /** An alert and the time of the run that raised it. */
  datatype Item = Item(alert: Alert, createdAt: int)

  datatype Entry = Entry(item: Item, lastError: Option<string>)

  datatype Disk = Disk(generatedAt: int, active: Option<Epoch>, archived: seq<Archived>, pending: seq<Entry>)

  /** A missing, unreadable or older-version file reads as this. */
  const EMPTY: Disk := Disk(0, None, [], [])

  // ---- actions --------------------------------------------------------------------------------

  datatype Sent =
    | AlertSent(item: Item) | CheckpointSent(index: nat) | LateSent | SampleSent(index: nat) | NoticeSent(index: nat)

  datatype Action = Persist(disk: Disk) | Send(what: Sent, delivered: bool)

  datatype Env = Env(now: int, health: Option<int>, healthError: string, sample: Option<nat>,
                     flushError: nat -> Option<string>, alertError: Option<string>,
                     baselineRead: Option<Data>, read: nat -> Option<Data>, sendError: nat -> Option<string>,
                     lateRead: nat -> Option<Data>, lateError: Option<string>,
                     sampleRead: Option<Data>, sampleError: Option<string>,
                     noticeError: nat -> Option<string>)

  /** The runner's variables, and everything it has done so far in this run. */
  datatype Mem = Mem(active: Option<Epoch>, archived: seq<Archived>, pending: seq<Entry>, log: seq<Action>)

  function Written(m: Mem, now: int): Disk { Disk(now, m.active, m.archived, m.pending) }

  function Save(m: Mem, now: int): Mem { m.(log := m.log + [Persist(Written(m, now))]) }

  /** Queue the alert, write the snapshot, then send; keep it queued unless delivered. */
  function SendOrQueue(m: Mem, alert: Alert, env: Env): Mem {
    var item := Item(alert, env.now);
    var queued := Save(m.(pending := m.pending + [Entry(item, None)]), env.now);
    queued.(pending := if env.alertError.None? then m.pending else m.pending + [Entry(item, env.alertError)],
            log := queued.log + [Send(AlertSent(item), env.alertError.None?)])
  }

  /** Try every queued alert again; the first n of them are done. */
  function FlushLog(pending: seq<Entry>, n: nat, env: Env): seq<Action>
    requires n <= |pending|
  {
    if n == 0 then []
    else FlushLog(pending, n - 1, env) + [Send(AlertSent(pending[n - 1].item), env.flushError(n - 1).None?)]
  }

  function FlushLeft(pending: seq<Entry>, n: nat, env: Env): seq<Entry>
    requires n <= |pending|
  {
    if n == 0 then []
    else FlushLeft(pending, n - 1, env)
         + if env.flushError(n - 1).None? then [] else [pending[n - 1].(lastError := env.flushError(n - 1))]
  }

  // ---- epochs ---------------------------------------------------------------------------------

  const FRESH: Checkpoint := Checkpoint(Pending, None, None, None, None, None, false)

  function NewEpoch(start: int): Epoch {
    Epoch(start, Running, None, None, None, [FRESH, FRESH, FRESH], [], [], None)
  }

  predicate Final(cp: Checkpoint) { cp.state == Notified || cp.state == Missed }

  predicate AllFinal(e: Epoch) {
    |e.cps| == CHECKPOINTS && Final(e.cps[0]) && Final(e.cps[1]) && Final(e.cps[2])
  }

  function MarkCompleted(e: Epoch): Epoch {
    if !AllFinal(e) then e
    else
      var last := e.cps[CHECKPOINTS - 1];
      e.(status := Completed, since := None, lastError := None,
         completedAt := if last.collectedAt.Some? then last.collectedAt
                        else if last.missedAt.Some? then last.missedAt
                        else Some(DueAt(e.start, CHECKPOINTS - 1)))
  }

  function MarkActive(a: Option<Epoch>): Option<Epoch> { if a.None? then None else Some(MarkCompleted(a.value)) }

  // ---- the checkpoint loop --------------------------------------------------------------------

  datatype Loop = Loop(epoch: Epoch, lateTaken: bool, log: seq<Action>)

  function SetCp(e: Epoch, i: nat, cp: Checkpoint): Epoch
    requires i < |e.cps|
  {
    e.(cps := e.cps[i := cp])
  }

  /** Collected earlier, not delivered: send the saved message again. */
  function Retried(cp: Checkpoint, error: Option<string>): Checkpoint {
    cp.(notifyError := error, state := if error.None? then Notified else Collected)
  }

  function Gathered(cp: Checkpoint, i: nat, data: Data, baseline: Option<Data>, now: int,
        error: Option<string>): Checkpoint {
    cp.(data := Some(data), message := Some(Message(i, data, baseline)), collectedAt := Some(now),
        notifyError := error, state := if error.None? then Notified else Collected)
  }

  /** The checkpoint's new record in this run. */
  function NextCp(env: Env, e: Epoch, i: nat): Checkpoint
    requires i < |e.cps|
  {
    var cp, due := e.cps[i], DueAt(e.start, i);
    if env.sample == Some(i) || Final(cp) then cp
    else if cp.state == Collected then Retried(cp, env.sendError(i))
    else if env.now < due then cp
    else if env.now - due > GRACE_MS then cp.(state := Missed, missedAt := Some(env.now))
    else if env.read(i).Some? then Gathered(cp, i, env.read(i).value, e.baseline, env.now, env.sendError(i))
    else if cp.errorNotified then cp
    else cp.(errorNotified := env.noticeError(i).None?)
  }

  predicate IsLate(env: Env, e: Epoch, i: nat)
    requires i < |e.cps|
  {
    env.sample != Some(i) && e.cps[i].state == Pending && env.now - DueAt(e.start, i) > GRACE_MS
  }

  predicate IsDue(env: Env, e: Epoch, i: nat)
    requires i < |e.cps|
  {
    env.sample != Some(i) && e.cps[i].state == Pending && 0 <= env.now - DueAt(e.start, i) <= GRACE_MS
  }

  /** What the visit of one offset sends. */
  function VisitSends(env: Env, x: Loop, i: nat): seq<Action>
    requires i < |x.epoch.cps|
  {
    var e, cp := x.epoch, x.epoch.cps[i];
    if env.sample == Some(i) then
      if env.sampleRead.Some? then [Send(SampleSent(i), env.sampleError.None?)] else []
    else if cp.state == Collected then [Send(CheckpointSent(i), env.sendError(i).None?)]
    else if IsLate(env, e, i) then
      if !x.lateTaken && env.lateRead(i).Some? then [Send(LateSent, env.lateError.None?)] else []
    else if IsDue(env, e, i) then
      if env.read(i).Some? then [Send(CheckpointSent(i), env.sendError(i).None?)]
      else if !cp.errorNotified then [Send(NoticeSent(i), env.noticeError(i).None?)]
      else []
    else []
  }

  function Visit(env: Env, x: Loop, i: nat): (y: Loop)
    requires i < |x.epoch.cps|
    ensures |y.epoch.cps| == |x.epoch.cps|
  {
    var e := SetCp(x.epoch, i, NextCp(env, x.epoch, i));
    var sampled := if env.sample == Some(i) && env.sampleRead.Some?
                   then e.(diagnostics := e.diagnostics + [env.sampleRead.value]) else e;
    var tookLate := IsLate(env, x.epoch, i) && !x.lateTaken && env.lateRead(i).Some?;
    var caught := if tookLate then sampled.(late := sampled.late + [env.lateRead(i).value]) else sampled;
    var noted := if IsDue(env, x.epoch, i) && env.read(i).None?
                 then caught.(lastError := Some("checkpoint due but collection failed")) else caught;
    Loop(noted, x.lateTaken || tookLate, x.log + VisitSends(env, x, i))
  }

  function VisitFrom(env: Env, x: Loop, i: nat): (y: Loop)
    requires i <= |x.epoch.cps|
    ensures |y.epoch.cps| == |x.epoch.cps|
    decreases |x.epoch.cps| - i
  {
    if i == |x.epoch.cps| then x else VisitFrom(env, Visit(env, x, i), i + 1)
  }

  // ---- one run --------------------------------------------------------------------------------

  /** The snapshot loaded, the finished epoch normalised, queued alerts retried. */
  function Loaded(d: Disk, env: Env): Mem {
    Mem(MarkActive(d.active), d.archived, FlushLeft(d.pending, |d.pending|, env), FlushLog(d.pending, |d.pending|, env))
  }

  /** Health unreadable: mark a running epoch interrupted, once, and write. */
  function HealthLostRun(m: Mem, env: Env): Mem {
    if m.active.None? || m.active.value.status == Completed then Save(m, env.now)
    else
      var e := m.active.value;
      var alerted :=
        if e.status == Interrupted then m
        else SendOrQueue(m.(active := Some(e.(status := Interrupted, since := Some(env.now)))),
                         HealthLost(e.start), env);
      var now := alerted.active.value.(lastError := Some(env.healthError));
      Save(alerted.(active := Some(now)), env.now)
  }

  /** Health readable again on the same service start: the interruption is over. */
  function Recovered(m: Mem, env: Env, start: int): Mem {
    if m.active.Some? && m.active.value.status == Interrupted && m.active.value.start == start
    then SendOrQueue(m.(active := Some(m.active.value.(status := Running, since := None, lastError := None))),
                     HealthBack(start), env)
    else m
  }

  /** A new service start: archive the old epoch, alert unless it was complete, open a new one. */
  function Opened(m: Mem, env: Env, start: int): (r: Mem)
    ensures r.active.Some?
  {
    if m.active.Some? && m.active.value.start == start then m
    else if m.active.None? then m.(active := Some(NewEpoch(start)))
    else
      var e := m.active.value;
      var reason := if e.status == Completed then NewEpochAfterCompletion else RestartDetected;
      var filed := m.(archived := m.archived + [Archived(e, env.now, reason)]);
      var alerted := if e.status == Completed then filed else SendOrQueue(filed, Restarted(e.start), env);
      alerted.(active := Some(NewEpoch(start)))
  }

  function WithBaseline(e: Epoch, env: Env): Epoch {
    if e.baseline.Some? then e
    else if env.baselineRead.Some? then e.(baseline := env.baselineRead)
    else e.(lastError := Some("baseline collection failed"))
  }

  /** Baseline, checkpoints, completion, and the final write. */
  function Checked(m: Mem, env: Env): Mem
    requires m.active.Some?
  {
    var x := VisitFrom(env, Loop(WithBaseline(m.active.value, env), false, m.log), 0);
    Save(m.(active := Some(MarkCompleted(x.epoch)), log := x.log), env.now)
  }

  function HealthyRun(m: Mem, env: Env, start: int): Mem {
    Checked(Opened(Recovered(m, env, start), env, start), env)
  }

  /** Everything one uninterrupted run does, in order. */
  function RunLog(d: Disk, env: Env): seq<Action> {
    var m := Loaded(d, env);
    (if env.health.None? then HealthLostRun(m, env) else HealthyRun(m, env, env.health.value)).log
  }

  /** The disk after some actions. */
  function DiskAfter(d: Disk, log: seq<Action>): Disk {
    if log == [] then d
    else if log[|log| - 1].Persist? then log[|log| - 1].disk
    else DiskAfter(d, log[..|log| - 1])
  }

  /** A run and how many of its actions happened before it ended or was killed. */
  datatype Attempt = Attempt(env: Env, done: nat)

  function Happened(d: Disk, a: Attempt): seq<Action> {
    var log := RunLog(d, a.env);
    if a.done <= |log| then log[..a.done] else log
  }

  function After(d: Disk, a: Attempt): Disk { DiskAfter(d, Happened(d, a)) }

  /** The disk after a history of attempts. */
  function DiskHistory(d: Disk, attempts: seq<Attempt>): Disk {
    if attempts == [] then d else After(DiskHistory(d, attempts[..|attempts| - 1]), attempts[|attempts| - 1])
  }
}
