/**
 * The runner itself: `run_once` with its three variables, the snapshot file and the
 * sends, proved to do exactly what `Canary.RunLog` says.
 */
module CanaryRunner {
  import opened Wrappers
  import opened Canary

  class Runner {
    var active: Option<Epoch>
    var archived: seq<Archived>
    var pending: seq<Entry>
    var disk: Disk
    var log: seq<Action>  // this run's actions

    function View(): Mem
      reads this
    {
      Mem(active, archived, pending, log)
    }

    constructor (disk: Disk)
      ensures this.disk == disk
    {
      this.disk := disk;
      active, archived, pending, log := None, [], [], [];
    }

    /** Atomic replacement of the snapshot file. */
    method PersistNow(now: int)
      modifies this
      ensures View() == Save(old(View()), now)
      ensures disk == Written(old(View()), now)
    {
      disk := Disk(now, active, archived, pending);
      log := log + [Persist(disk)];
    }

    method Notify(what: Sent, error: Option<string>)
      modifies this`log
      ensures log == old(log) + [Send(what, error.None?)]
    {
      log := log + [Send(what, error.None?)];
    }

    method QueueAndSend(alert: Alert, env: Env)
      modifies this
      ensures View() == SendOrQueue(old(View()), alert, env)
      ensures disk == Written(old(View()).(pending := old(pending) + [Entry(Item(alert, env.now), None)]), env.now)
    {
      var item := Item(alert, env.now);
      pending := pending + [Entry(item, None)];
      PersistNow(env.now);
      Notify(AlertSent(item), env.alertError);
      var front := pending[..|pending| - 1];
      if env.alertError.None? {
        pending := front;
      } else {
        pending := front + [Entry(item, env.alertError)];
      }
    }

    /** Read the snapshot, normalise a finished epoch, retry queued alerts. */
    method Load(env: Env)
      modifies this
      ensures View() == Loaded(old(disk), env) && disk == old(disk)
    {
      archived, active, log := disk.archived, MarkActive(disk.active), [];
      var remaining: seq<Entry> := [];
      var queued := disk.pending;
      for i := 0 to |queued|
        invariant archived == disk.archived && active == MarkActive(disk.active) && disk == old(disk)
        invariant log == FlushLog(queued, i, env) && remaining == FlushLeft(queued, i, env)
      {
        var error := env.flushError(i);
        Notify(AlertSent(queued[i].item), error);
        if error.Some? { remaining := remaining + [queued[i].(lastError := error)]; }
      }
      pending := remaining;
    }

    /** Health could not be read. */
    method LoseHealth(env: Env)
      modifies this
      ensures View() == HealthLostRun(old(View()), env)
      ensures disk == Written(View(), env.now)
    {
      if active.None? || active.value.status == Completed {
        PersistNow(env.now);
        return;
      }
      if active.value.status != Interrupted {
        active := Some(active.value.(status := Interrupted, since := Some(env.now)));
        QueueAndSend(HealthLost(active.value.start), env);
      }
      active := Some(active.value.(lastError := Some(env.healthError)));
      PersistNow(env.now);
    }

    method Recover(env: Env, start: int)
      modifies this
      ensures View() == Recovered(old(View()), env, start)
    {
      if active.Some? && active.value.status == Interrupted && active.value.start == start {
        active := Some(active.value.(status := Running, since := None, lastError := None));
        QueueAndSend(HealthBack(start), env);
      }
    }

    method Open(env: Env, start: int)
      modifies this
      ensures View() == Opened(old(View()), env, start)
    {
      if active.Some? && active.value.start == start { return; }
      if active.Some? {
        var e := active.value;
        var reason := if e.status == Completed then NewEpochAfterCompletion else RestartDetected;
        archived := archived + [Archived(e, env.now, reason)];
        if e.status != Completed { QueueAndSend(Restarted(e.start), env); }
      }
      active := Some(NewEpoch(start));
    }

    /** Baseline, one visit per offset, completion, final write. */
    method Check(env: Env)
      requires active.Some?
      modifies this
      ensures View() == Checked(old(View()), env)
      ensures disk == Written(View(), env.now)
    {
      var x := Loop(WithBaseline(active.value, env), false, log);
      ghost var x0 := x;
      for i := 0 to |x.epoch.cps|
        invariant i <= |x.epoch.cps| && |x.epoch.cps| == |x0.epoch.cps|
        invariant VisitFrom(env, x0, 0) == VisitFrom(env, x, i)
        invariant active == old(active) && archived == old(archived) && pending == old(pending)
      {
        x := Visit(env, x, i);
      }
      active, log := Some(MarkCompleted(x.epoch)), x.log;
      PersistNow(env.now);
    }

    /** One run of the timer. */
    method RunOnce(env: Env)
      modifies this
      ensures log == RunLog(old(disk), env)
      ensures disk == DiskAfter(old(disk), log)
    {
      Load(env);
      if env.health.None? {
        LoseHealth(env);
      } else {
        Recover(env, env.health.value);
        Open(env, env.health.value);
        Check(env);
      }
      LastWrite(old(disk), env);
    }
  }

  /** The last action of a run is a write. */
  lemma {:induction false} LastWrite(d: Disk, env: Env)
    ensures RunLog(d, env) != [] && RunLog(d, env)[|RunLog(d, env)| - 1].Persist?
  {
  }
}
