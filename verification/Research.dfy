/**
 * The research checkpoint runner: one row per registered report, at most one report per
 * run, frozen cutoffs while failing, a bounded retry budget, deduplicated notifications.
 * Times are milliseconds; the report process and message delivery are inputs of a run.
 */
module Research {
  import opened Wrappers

  const HOUR_MS: int := 3_600_000

  datatype Spec = Spec(key: string, contract: string, dueAt: int, cadenceHours: int,
                       maxErrors: nat, retryHours: nat, retired: Option<string>)

  ghost predicate ValidSpec(s: Spec) { s.maxErrors >= 1 && s.retryHours >= 1 }

  /** Waiting covers the non-terminal report states; Terminal carries the verdict reached. */
  datatype State = Scheduled | Due | Waiting(name: string) | Blocked | Error | Terminal(verdict: string)

  /** What a notification is about; a change of identity is what makes a new one. */
  datatype Identity =
    | Bare(state: State) | Coded(state: State, code: string) | Exhausted(code: string, attempt: Option<int>)

  datatype Row = Row(state: State, nextAttempt: Option<int>, lastAttempt: Option<int>, cutoff: Option<int>,
                     lastSuccess: Option<int>, errorCode: Option<string>, errors: nat, exhausted: bool,
                     notified: Option<Identity>)

  predicate Failing(r: Row) { r.state == Blocked || r.state == Error }

  predicate Notifiable(r: Row) { r.state != Scheduled && r.state != Due }

  function Code(r: Row): string {
    if r.errorCode.None? || r.errorCode.value == "" then "unknown" else r.errorCode.value
  }

  function IdentityOf(r: Row): Identity {
    if !Failing(r) then Bare(r.state)
    else if r.state == Error && r.exhausted then Exhausted(Code(r), r.lastAttempt)
    else Coded(r.state, Code(r))
  }

  // ---- one row in one run -----------------------------------------------------------------------

  function DefaultRow(s: Spec): Row { Row(Scheduled, Some(s.dueAt), None, None, None, None, 0, false, None) }

  /** Before its due time a row is scheduled; once due it becomes due. */
  function Prepared(s: Spec, r: Row, now: int): Row {
    if now < s.dueAt && !r.state.Terminal?
    then r.(state := Scheduled, nextAttempt := Some(s.dueAt), errorCode := None, exhausted := false)
    else if r.state == Scheduled
    then r.(state := Due, nextAttempt := Some(now), errorCode := None, exhausted := false)
    else r
  }

  predicate Ready(s: Spec, r: Row, now: int) {
    now >= s.dueAt && (r.nextAttempt.None? || now >= r.nextAttempt.value)
  }

  /** A row may be attempted: due and not terminal, or forced whatever its state and cadence. */
  predicate Selectable(s: Spec, r: Row, now: int, force: Option<string>) {
    match force
    case None => !r.state.Terminal? && Ready(s, r, now)
    case Some(key) => s.key == key && now >= s.dueAt
  }

  /** The first row, from position i on, that may be attempted once prepared. */
  function FirstSelectable(specs: seq<Spec>, rows: seq<Row>, now: int, force: Option<string>, i: nat): (r: Option<nat>)
    requires |rows| == |specs| && i <= |specs|
    ensures r.Some? ==> i <= r.value < |specs|
    ensures r.Some? ==> Selectable(specs[r.value], Prepared(specs[r.value], rows[r.value], now), now, force)
    decreases |specs| - i
  {
    if i == |specs| then None
    else if Selectable(specs[i], Prepared(specs[i], rows[i], now), now, force) then Some(i)
    else FirstSelectable(specs, rows, now, force, i + 1)
  }

  /** What the check before a report finds; reading the resources may itself fail. */
  datatype Resources = Enough | Short | Unreadable

  /** How the report process ends: with an error, or naming a state. */
  datatype Report = Failed(code: string) | Reported(state: State)

  datatype Env = Env(now: int, force: Option<string>, resources: Resources, report: Report,
                     notifyError: nat -> Option<string>)

  /** While failing, an attempt keeps the cutoff of the first failure. */
  function CutoffFor(r: Row, now: int): int {
    if Failing(r) && r.cutoff.Some? then r.cutoff.value else now
  }

  function AttemptHeader(s: Spec, r: Row, now: int): Row {
    r.(lastAttempt := Some(now), cutoff := Some(CutoffFor(r, now)), nextAttempt := Some(now + s.cadenceHours * HOUR_MS))
  }

  function Succeeded(r: Row, state: State, now: int): Row {
    r.(state := state, lastSuccess := Some(now), errorCode := None, errors := 0, exhausted := false)
  }

  function RecordedError(s: Spec, r: Row, now: int, code: string): Row {
    var errors := if r.errors + 1 <= s.maxErrors then r.errors + 1 else s.maxErrors;
    var exhausted := errors >= s.maxErrors;
    r.(state := Error, errorCode := Some(code), errors := errors, exhausted := exhausted,
       nextAttempt := Some(now + (if exhausted then s.cadenceHours else s.retryHours) * HOUR_MS))
  }

  /** The row after an attempt, and the cutoff the report process was started with if it was started. */
  datatype Outcome = Outcome(row: Row, started: Option<int>)

  function Attempt(s: Spec, r: Row, env: Env): Outcome {
    var header := AttemptHeader(s, r, env.now);
    if s.retired.Some? then Outcome(Succeeded(header, Terminal(s.retired.value), env.now), None)
    else
      match env.resources
      case Unreadable => Outcome(RecordedError(s, header, env.now, "runner_error"), None)
      case Short =>
        Outcome(header.(state := Blocked, errorCode := Some("insufficient_resources"), exhausted := false,
                        nextAttempt := Some(env.now + HOUR_MS)), None)
      case Enough =>
        var after := match env.report
          case Reported(state) => Succeeded(header, state, env.now)
          case Failed(code) => RecordedError(s, header, env.now, code);
        Outcome(after, header.cutoff)
  }

  function Attempted(s: Spec, r: Row, env: Env): Row { Attempt(s, r, env).row }

  predicate Announces(r: Row) { Notifiable(r) && r.notified != Some(IdentityOf(r)) }

  function Announced(r: Row, error: Option<string>): Row {
    if Announces(r) && error.None? then r.(notified := Some(IdentityOf(r))) else r
  }

  // ---- one run ----------------------------------------------------------------------------------

  function PreparedAll(specs: seq<Spec>, rows: seq<Row>, now: int): (r: seq<Row>)
    requires |rows| == |specs|
    ensures |r| == |rows| && forall i :: 0 <= i < |rows| ==> r[i] == Prepared(specs[i], rows[i], now)
  {
    seq(|rows|, i requires 0 <= i < |rows| => Prepared(specs[i], rows[i], now))
  }

  function Chosen(specs: seq<Spec>, rows: seq<Row>, env: Env): (r: Option<nat>)
    requires |rows| == |specs|
    ensures r.Some? ==> r.value < |specs|
  {
    FirstSelectable(specs, rows, env.now, env.force, 0)
  }

  /** A row after the attempt step of a run. */
  function Worked(specs: seq<Spec>, rows: seq<Row>, env: Env, i: nat): Row
    requires |rows| == |specs| && i < |rows|
  {
    var r := Prepared(specs[i], rows[i], env.now);
    if Chosen(specs, rows, env) == Some(i) then Attempted(specs[i], r, env) else r
  }

  function RunRows(specs: seq<Spec>, rows: seq<Row>, env: Env): (r: seq<Row>)
    requires |rows| == |specs|
    ensures |r| == |rows|
    ensures forall i :: 0 <= i < |rows| ==> r[i] == Announced(Worked(specs, rows, env, i), env.notifyError(i))
  {
    seq(|rows|, i requires 0 <= i < |rows| => Announced(Worked(specs, rows, env, i), env.notifyError(i)))
  }

  /** A report process: the row it is for and the cutoff it is given. */
  datatype Process = Process(row: nat, cutoff: int)

  /** The report processes that a run starts. */
  function Processes(specs: seq<Spec>, rows: seq<Row>, env: Env): seq<Process>
    requires |rows| == |specs|
  {
    var chosen := Chosen(specs, rows, env);
    if chosen.None? then []
    else
      var i := chosen.value;
      var started := Attempt(specs[i], Prepared(specs[i], rows[i], env.now), env).started;
      if started.None? then [] else [Process(i, started.value)]
  }

  predicate SendsFor(specs: seq<Spec>, rows: seq<Row>, env: Env, i: nat)
    requires |rows| == |specs| && i < |rows|
  {
    Announces(Worked(specs, rows, env, i))
  }

  // ---- what every run keeps -----------------------------------------------------------------------

  /** Errors within the budget; exhausted exactly in state error at the limit; failing rows have a cutoff. */
  ghost predicate RowOk(s: Spec, r: Row) {
    && r.errors <= s.maxErrors
    && (r.exhausted <==> r.state == Error && r.errors == s.maxErrors)
    && (r.notified.Some? && r.notified.value.Bare? ==>
          !r.notified.value.state.Error? && !r.notified.value.state.Blocked?)
  }

  ghost predicate AllOk(specs: seq<Spec>, rows: seq<Row>) {
    |rows| == |specs| && forall i :: 0 <= i < |rows| ==> ValidSpec(specs[i]) && RowOk(specs[i], rows[i])
  }

  lemma {:induction false} PreparedOk(s: Spec, r: Row, now: int)
    requires RowOk(s, r)
    ensures RowOk(s, Prepared(s, r, now))
  {
  }

  lemma {:induction false} AttemptedOk(s: Spec, r: Row, env: Env)
    requires ValidSpec(s) && RowOk(s, r)
    ensures RowOk(s, Attempted(s, r, env))
  {
  }

  lemma {:induction false} AnnouncedOk(s: Spec, r: Row, error: Option<string>)
    requires RowOk(s, r)
    ensures RowOk(s, Announced(r, error))
  {
  }

  /** The retry budget holds after every run. */
  lemma {:induction false} RunKeepsBudget(specs: seq<Spec>, rows: seq<Row>, env: Env)
    requires AllOk(specs, rows)
    ensures AllOk(specs, RunRows(specs, rows, env))
  {
    forall i | 0 <= i < |rows| ensures RowOk(specs[i], RunRows(specs, rows, env)[i]) {
      var r := Prepared(specs[i], rows[i], env.now);
      PreparedOk(specs[i], rows[i], env.now);
      AttemptedOk(specs[i], r, env);
      AnnouncedOk(specs[i], Worked(specs, rows, env, i), env.notifyError(i));
    }
  }

  /** Without a forced key a terminal row is never attempted and keeps its state. */
  lemma {:induction false} TerminalIsAbsorbing(specs: seq<Spec>, rows: seq<Row>, env: Env, i: nat)
    requires |rows| == |specs| && i < |rows| && rows[i].state.Terminal? && env.force.None?
    ensures Chosen(specs, rows, env) != Some(i)
    ensures RunRows(specs, rows, env)[i] == rows[i].(notified := RunRows(specs, rows, env)[i].notified)
  {
    assert Prepared(specs[i], rows[i], env.now) == rows[i];
  }

  /**
   * Only the attempted row's report is started, at most one per run, with the cutoff the
   * row then records, and never for a retired line.
   */
  lemma {:induction false} OnlyLiveReportsRun(specs: seq<Spec>, rows: seq<Row>, env: Env)
    requires |rows| == |specs|
    ensures |Processes(specs, rows, env)| <= 1
    ensures forall p :: p in Processes(specs, rows, env) ==>
      && p.row < |specs| && Chosen(specs, rows, env) == Some(p.row) && specs[p.row].retired.None?
      && RunRows(specs, rows, env)[p.row].lastAttempt == Some(env.now)
      && RunRows(specs, rows, env)[p.row].cutoff == Some(p.cutoff)
      && p.cutoff == CutoffFor(Prepared(specs[p.row], rows[p.row], env.now), env.now)
  {
    var chosen := Chosen(specs, rows, env);
    if chosen.Some? { OneAttemptPerRun(specs, rows, env, chosen.value); }
  }

  /** A retired line takes its registered verdict when attempted, whatever its report or the resources would be. */
  lemma {:induction false} RetiredIgnoresReport(specs: seq<Spec>, rows: seq<Row>, env: Env, i: nat,
        resources: Resources, report: Report)
    requires |rows| == |specs| && i < |rows| && specs[i].retired.Some?
    ensures RunRows(specs, rows, env.(resources := resources, report := report))[i] == RunRows(specs, rows, env)[i]
    ensures Chosen(specs, rows, env) == Some(i) ==>
      RunRows(specs, rows, env)[i].state == Terminal(specs[i].retired.value)
  {
    var other := env.(resources := resources, report := report);
    assert Chosen(specs, rows, other) == Chosen(specs, rows, env);
  }

  /** At most one row is attempted per run, the first that can be; every other keeps its attempt record. */
  lemma {:induction false} OneAttemptPerRun(specs: seq<Spec>, rows: seq<Row>, env: Env, i: nat)
    requires |rows| == |specs| && i < |rows|
    ensures RunRows(specs, rows, env)[i].lastAttempt
         == if Chosen(specs, rows, env) == Some(i) then Some(env.now) else rows[i].lastAttempt
    ensures Chosen(specs, rows, env) != Some(i) ==>
      RunRows(specs, rows, env)[i].errors == rows[i].errors && RunRows(specs, rows, env)[i].cutoff == rows[i].cutoff
  {
  }

  /** Without a forced key no attempt comes before the time the last one set. */
  lemma {:induction false} NoEarlyAttempt(specs: seq<Spec>, rows: seq<Row>, env: Env, i: nat)
    requires |rows| == |specs| && i < |rows| && env.force.None? && Chosen(specs, rows, env) == Some(i)
    ensures env.now >= specs[i].dueAt
    ensures rows[i].state != Scheduled && rows[i].nextAttempt.Some? ==> env.now >= rows[i].nextAttempt.value
  {
    assert Selectable(specs[i], Prepared(specs[i], rows[i], env.now), env.now, None);
  }

  predicate Fails(env: Env) { env.resources == Unreadable || (env.resources == Enough && env.report.Failed?) }

  /** How long an attempt holds the next one off: an hour, the short retry while the budget lasts, or the cadence. */
  function Wait(s: Spec, r: Row, env: Env): int {
    if s.retired.Some? then s.cadenceHours * HOUR_MS
    else if env.resources == Short then HOUR_MS
    else if Fails(env) && r.errors + 1 < s.maxErrors then s.retryHours * HOUR_MS
    else s.cadenceHours * HOUR_MS
  }

  /** The attempt's report names the scheduled state. */
  predicate NamesScheduled(s: Spec, env: Env) {
    s.retired.None? && env.resources == Enough && env.report == Reported(Scheduled)
  }

  predicate EndsTerminal(s: Spec, env: Env) {
    s.retired.Some? || (env.resources == Enough && env.report.Reported? && env.report.state.Terminal?)
  }

  lemma {:induction false} AttemptSetsNext(s: Spec, r: Row, env: Env)
    ensures Attempted(s, r, env).nextAttempt == Some(env.now + Wait(s, r, env))
  {
  }

  /**
   * When a row may be attempted again after an attempt: once the wait is over and if it is
   * not terminal; or at once if the attempt's report itself named the scheduled state.
   */
  lemma {:induction false} AttemptableAgainIff(s: Spec, r: Row, env: Env, later: int)
    requires env.now >= s.dueAt && later >= env.now
    ensures Selectable(s, Prepared(s, Attempted(s, r, env), later), later, None)
       <==> NamesScheduled(s, env) || (!EndsTerminal(s, env) && later >= env.now + Wait(s, r, env))
  {
    AttemptSetsNext(s, r, env);
  }

  lemma {:induction false} FirstIsFirst(specs: seq<Spec>, rows: seq<Row>, now: int, force: Option<string>, i: nat,
        j: nat)
    requires |rows| == |specs| && i <= j < |specs| && Selectable(specs[j], Prepared(specs[j], rows[j], now), now, force)
    ensures FirstSelectable(specs, rows, now, force, i).Some? && FirstSelectable(specs, rows, now, force, i).value <= j
    decreases |specs| - i
  {
    if !Selectable(specs[i], Prepared(specs[i], rows[i], now), now, force) {
      FirstIsFirst(specs, rows, now, force, i + 1, j);
    }
  }

  // ---- every history ------------------------------------------------------------------------------

  /** The rows after the first n runs of a history. */
  function RowsAfter(specs: seq<Spec>, rows: seq<Row>, envs: seq<Env>, n: nat): (r: seq<Row>)
    requires |rows| == |specs| && n <= |envs|
    ensures |r| == |rows|
  {
    if n == 0 then rows else RunRows(specs, RowsAfter(specs, rows, envs, n - 1), envs[n - 1])
  }

  lemma {:induction false} BudgetAlways(specs: seq<Spec>, rows: seq<Row>, envs: seq<Env>, n: nat)
    requires AllOk(specs, rows) && n <= |envs|
    ensures AllOk(specs, RowsAfter(specs, rows, envs, n))
  {
    if n > 0 {
      BudgetAlways(specs, rows, envs, n - 1);
      RunKeepsBudget(specs, RowsAfter(specs, rows, envs, n - 1), envs[n - 1]);
    }
  }

  lemma {:induction false} TerminalForever(specs: seq<Spec>, rows: seq<Row>, envs: seq<Env>, i: nat, n: nat)
    requires |rows| == |specs| && i < |rows| && rows[i].state.Terminal? && n <= |envs|
    requires forall k :: 0 <= k < |envs| ==> envs[k].force.None?
    ensures RowsAfter(specs, rows, envs, n)[i].state == rows[i].state
    ensures RowsAfter(specs, rows, envs, n)[i].lastAttempt == rows[i].lastAttempt
  {
    if n > 0 {
      TerminalForever(specs, rows, envs, i, n - 1);
      TerminalIsAbsorbing(specs, RowsAfter(specs, rows, envs, n - 1), envs[n - 1], i);
    }
  }

  // ---- frozen cutoffs -----------------------------------------------------------------------------

  /** The run attempts row i and its report succeeds, or the line is retired. */
  ghost predicate Succeeds(specs: seq<Spec>, rows: seq<Row>, env: Env, i: nat)
    requires |rows| == |specs| && i < |rows|
  {
    Chosen(specs, rows, env) == Some(i) && (specs[i].retired.Some? || (env.resources == Enough && env.report.Reported?))
  }

  ghost predicate FrozenAt(r: Row, c: int) { Failing(r) && r.cutoff == Some(c) }

  /** A failed attempt freezes a cutoff: its own time, unless the row was failing already. */
  lemma {:induction false} FailureFreezes(specs: seq<Spec>, rows: seq<Row>, env: Env, i: nat)
    requires |rows| == |specs| && i < |rows|
    requires Chosen(specs, rows, env) == Some(i) && !Succeeds(specs, rows, env, i)
    ensures FrozenAt(RunRows(specs, rows, env)[i], CutoffFor(Prepared(specs[i], rows[i], env.now), env.now))
    ensures !Failing(rows[i]) ==> RunRows(specs, rows, env)[i].cutoff == Some(env.now)
  {
  }

  lemma {:induction false} FrozenCutoff(s: Spec, r: Row, now: int, c: int)
    requires FrozenAt(r, c) && now >= s.dueAt
    ensures CutoffFor(Prepared(s, r, now), now) == c
  {
  }

  /** After the due time a frozen row attempts with its cutoff, and stays frozen unless it succeeds. */
  lemma {:induction false} FrozenStep(specs: seq<Spec>, rows: seq<Row>, env: Env, i: nat, c: int)
    requires |rows| == |specs| && i < |rows| && FrozenAt(rows[i], c) && env.now >= specs[i].dueAt
    ensures CutoffFor(Prepared(specs[i], rows[i], env.now), env.now) == c
    ensures !Succeeds(specs, rows, env, i) ==> FrozenAt(RunRows(specs, rows, env)[i], c)
    ensures RunRows(specs, rows, env)[i].cutoff == Some(c)
  {
  }

  /** Row i is attempted in run k of a history. */
  ghost predicate ChosenIn(specs: seq<Spec>, rows: seq<Row>, envs: seq<Env>, i: nat, k: nat)
    requires |rows| == |specs| && k < |envs|
  {
    Chosen(specs, RowsAfter(specs, rows, envs, k), envs[k]) == Some(i)
  }

  /** Row i succeeds in run k of a history. */
  ghost predicate SucceedsIn(specs: seq<Spec>, rows: seq<Row>, envs: seq<Env>, i: nat, k: nat)
    requires |rows| == |specs| && i < |rows| && k < |envs|
  {
    Succeeds(specs, RowsAfter(specs, rows, envs, k), envs[k], i)
  }

  lemma {:induction false} FrozenOneMore(specs: seq<Spec>, rows: seq<Row>, envs: seq<Env>, i: nat, c: int, k: nat)
    requires |rows| == |specs| && i < |rows| && k < |envs| && envs[k].now >= specs[i].dueAt
    requires FrozenAt(RowsAfter(specs, rows, envs, k)[i], c)
    requires !SucceedsIn(specs, rows, envs, i, k)
    ensures FrozenAt(RowsAfter(specs, rows, envs, k + 1)[i], c)
  {
    FrozenStep(specs, RowsAfter(specs, rows, envs, k), envs[k], i, c);
  }

  /** A property that each step from a to m keeps holds at m if it holds at a. */
  lemma {:induction false} FrozenThrough(history: seq<Row>, c: int, a: nat, m: nat)
    requires a <= m < |history| && FrozenAt(history[a], c)
    requires forall k :: a <= k < m && FrozenAt(history[k], c) ==> FrozenAt(history[k + 1], c)
    ensures FrozenAt(history[m], c)
  {
    if a < m { FrozenThrough(history, c, a, m - 1); }
  }

  function RowHistory(specs: seq<Spec>, rows: seq<Row>, envs: seq<Env>, i: nat): (r: seq<Row>)
    requires |rows| == |specs| && i < |rows|
    ensures |r| == |envs| + 1 && forall k :: 0 <= k <= |envs| ==> r[k] == RowsAfter(specs, rows, envs, k)[i]
  {
    seq(|envs| + 1, k requires 0 <= k <= |envs| => RowsAfter(specs, rows, envs, k)[i])
  }

  /**
   * From a failure on, as long as the row does not succeed, it stays frozen at c: whatever
   * happens in runs a .. m - 1, the row before run m still has that cutoff.
   */
  lemma {:induction false} CutoffFrozenUntilSuccess(specs: seq<Spec>, rows: seq<Row>, envs: seq<Env>, i: nat, c: int,
        a: nat, m: nat)
    requires |rows| == |specs| && i < |rows| && a <= m <= |envs|
    requires FrozenAt(RowsAfter(specs, rows, envs, a)[i], c)
    requires forall k :: a <= k < m ==> envs[k].now >= specs[i].dueAt
    requires forall k :: a <= k < m ==> !SucceedsIn(specs, rows, envs, i, k)
    ensures FrozenAt(RowsAfter(specs, rows, envs, m)[i], c)
  {
    var history := RowHistory(specs, rows, envs, i);
    forall k | a <= k < m && FrozenAt(history[k], c) ensures FrozenAt(history[k + 1], c) {
      FrozenOneMore(specs, rows, envs, i, c, k);
    }
    FrozenThrough(history, c, a, m);
  }

  /** The cutoff an attempt of row i in run n would use. */
  function CutoffInRun(specs: seq<Spec>, rows: seq<Row>, envs: seq<Env>, i: nat, n: nat): int
    requires |rows| == |specs| && i < |rows| && n < |envs|
  {
    CutoffFor(Prepared(specs[i], RowsAfter(specs, rows, envs, n)[i], envs[n].now), envs[n].now)
  }

  lemma {:induction false} FirstFailure(specs: seq<Spec>, rows: seq<Row>, envs: seq<Env>, i: nat, n: nat)
    requires |rows| == |specs| && i < |rows| && n < |envs|
    requires ChosenIn(specs, rows, envs, i, n) && !SucceedsIn(specs, rows, envs, i, n)
    ensures FrozenAt(RowsAfter(specs, rows, envs, n + 1)[i], CutoffInRun(specs, rows, envs, i, n))
    ensures envs[n].now >= specs[i].dueAt
  {
    FailureFreezes(specs, RowsAfter(specs, rows, envs, n), envs[n], i);
  }

  /**
   * With a clock that never goes back: if row i fails in run n and does not succeed before
   * run m, an attempt in run m reads the same cohort as the one in run n.
   */
  lemma {:induction false} RetriesKeepTheCohort(specs: seq<Spec>, rows: seq<Row>, envs: seq<Env>, i: nat, n: nat,
        m: nat)
    requires |rows| == |specs| && i < |rows| && n < m < |envs|
    requires forall j, k :: 0 <= j < k < |envs| ==> envs[j].now <= envs[k].now
    requires ChosenIn(specs, rows, envs, i, n)
    requires forall k :: n <= k < m ==> !SucceedsIn(specs, rows, envs, i, k)
    ensures CutoffInRun(specs, rows, envs, i, m) == CutoffInRun(specs, rows, envs, i, n)
  {
    assert !SucceedsIn(specs, rows, envs, i, n);
    FirstFailure(specs, rows, envs, i, n);
    var c := CutoffInRun(specs, rows, envs, i, n);
    CutoffFrozenUntilSuccess(specs, rows, envs, i, c, n + 1, m);
    FrozenCutoff(specs[i], RowsAfter(specs, rows, envs, m)[i], envs[m].now, c);
  }

  /**
   * After a successful report the next attempt starts a new cohort, unless that report
   * itself named a failing state: then the row counts as failing and keeps the old one.
   */
  lemma {:induction false} NewCohortAfterSuccess(s: Spec, r: Row, env: Env, later: int)
    requires s.retired.None? && env.resources == Enough && env.report.Reported?
    requires env.now >= s.dueAt && later > env.now && later > CutoffFor(r, env.now)
    ensures CutoffFor(Prepared(s, Attempted(s, r, env), later), later) == later
       <==> env.report.state != Blocked && env.report.state != Error
  {
  }

  // ---- spacing over a history ---------------------------------------------------------------------

  /** The row waits for time t: not scheduled, and with that next attempt. */
  ghost predicate WaitsFor(r: Row, t: int) { r.state != Scheduled && r.nextAttempt == Some(t) }

  lemma {:induction false} WaitsOneMore(specs: seq<Spec>, rows: seq<Row>, env: Env, i: nat, t: int)
    requires |rows| == |specs| && i < |rows| && WaitsFor(rows[i], t) && env.now >= specs[i].dueAt
    requires Chosen(specs, rows, env) != Some(i)
    ensures WaitsFor(RunRows(specs, rows, env)[i], t)
  {
    assert Prepared(specs[i], rows[i], env.now) == rows[i];
  }

  lemma {:induction false} WaitsThrough(history: seq<Row>, t: int, a: nat, m: nat)
    requires a <= m < |history| && WaitsFor(history[a], t)
    requires forall k :: a <= k < m && WaitsFor(history[k], t) ==> WaitsFor(history[k + 1], t)
    ensures WaitsFor(history[m], t)
  {
    if a < m { WaitsThrough(history, t, a, m - 1); }
  }

  lemma {:induction false} WaitsUntilAttempted(specs: seq<Spec>, rows: seq<Row>, envs: seq<Env>, i: nat, t: int, a: nat,
        m: nat)
    requires |rows| == |specs| && i < |rows| && a <= m < |envs| && WaitsFor(RowsAfter(specs, rows, envs, a)[i], t)
    requires forall k :: a <= k < m ==> envs[k].now >= specs[i].dueAt
    requires forall k :: a <= k < m ==> !ChosenIn(specs, rows, envs, i, k)
    ensures WaitsFor(RowsAfter(specs, rows, envs, m)[i], t)
  {
    var history := RowHistory(specs, rows, envs, i);
    forall k | a <= k < m && WaitsFor(history[k], t) ensures WaitsFor(history[k + 1], t) {
      assert !ChosenIn(specs, rows, envs, i, k);
      WaitsOneMore(specs, RowsAfter(specs, rows, envs, k), envs[k], i, t);
    }
    WaitsThrough(history, t, a, m);
  }

  /** What a row waits after an attempt in run n. */
  function WaitAfter(specs: seq<Spec>, rows: seq<Row>, envs: seq<Env>, i: nat, n: nat): int
    requires |rows| == |specs| && i < |rows| && n < |envs|
  {
    Wait(specs[i], Prepared(specs[i], RowsAfter(specs, rows, envs, n)[i], envs[n].now), envs[n])
  }

  lemma {:induction false} AttemptStartsWait(specs: seq<Spec>, rows: seq<Row>, envs: seq<Env>, i: nat, n: nat)
    requires |rows| == |specs| && i < |rows| && n < |envs| && ChosenIn(specs, rows, envs, i, n)
    ensures RowsAfter(specs, rows, envs, n + 1)[i].nextAttempt == Some(envs[n].now + WaitAfter(specs, rows, envs, i, n))
    ensures RowsAfter(specs, rows, envs, n + 1)[i].state == Scheduled ==> NamesScheduled(specs[i], envs[n])
    ensures envs[n].now >= specs[i].dueAt
  {
    AttemptSetsNext(specs[i], Prepared(specs[i], RowsAfter(specs, rows, envs, n)[i], envs[n].now), envs[n]);
  }

  /**
   * Over every history with a clock that never goes back: two attempts of a row with none
   * between, the second not forced, are at least the first one's wait apart, unless that
   * report named the scheduled state.
   */
  lemma {:induction false} AttemptsSpaced(specs: seq<Spec>, rows: seq<Row>, envs: seq<Env>, i: nat, n: nat, m: nat)
    requires |rows| == |specs| && i < |rows| && n < m < |envs| && envs[m].force.None?
    requires forall j, k :: 0 <= j < k < |envs| ==> envs[j].now <= envs[k].now
    requires ChosenIn(specs, rows, envs, i, n) && ChosenIn(specs, rows, envs, i, m)
    requires forall k :: n < k < m ==> !ChosenIn(specs, rows, envs, i, k)
    ensures NamesScheduled(specs[i], envs[n])
         || envs[m].now >= envs[n].now + WaitAfter(specs, rows, envs, i, n)
  {
    var t := envs[n].now + WaitAfter(specs, rows, envs, i, n);
    AttemptStartsWait(specs, rows, envs, i, n);
    if !NamesScheduled(specs[i], envs[n]) {
      WaitsUntilAttempted(specs, rows, envs, i, t, n + 1, m);
      NoEarlyAttempt(specs, RowsAfter(specs, rows, envs, m), envs[m], i);
    }
  }

  // ---- notifications ------------------------------------------------------------------------------

  /** A message is recorded as notified exactly when it is sent and delivered. */
  lemma {:induction false} NotifiedIff(specs: seq<Spec>, rows: seq<Row>, env: Env, i: nat)
    requires |rows| == |specs| && i < |rows|
    ensures var r := RunRows(specs, rows, env)[i];
      if SendsFor(specs, rows, env, i) && env.notifyError(i).None? then r.notified == Some(IdentityOf(r))
      else r.notified == rows[i].notified
  {
  }

  /** A delivered identity is not sent again while the row's identity stays the same. */
  lemma {:induction false} DeliveredIsNotResent(specs: seq<Spec>, rows: seq<Row>, envs: seq<Env>, i: nat, x: Identity,
        n: nat)
    requires |rows| == |specs| && i < |rows| && rows[i].notified == Some(x) && n <= |envs|
    requires forall k :: 0 <= k < |envs| ==> IdentityOf(Worked(specs, RowsAfter(specs, rows, envs, k), envs[k], i)) == x
    ensures RowsAfter(specs, rows, envs, n)[i].notified == Some(x)
    ensures n < |envs| ==> !SendsFor(specs, RowsAfter(specs, rows, envs, n), envs[n], i)
  {
    if n > 0 {
      DeliveredIsNotResent(specs, rows, envs, i, x, n - 1);
      NotifiedIff(specs, RowsAfter(specs, rows, envs, n - 1), envs[n - 1], i);
    }
    if n < |envs| { WorkedKeepsNotified(specs, RowsAfter(specs, rows, envs, n), envs[n], i); }
  }

  lemma {:induction false} WorkedKeepsNotified(specs: seq<Spec>, rows: seq<Row>, env: Env, i: nat)
    requires |rows| == |specs| && i < |rows|
    ensures Worked(specs, rows, env, i).notified == rows[i].notified
  {
  }

  /** An undelivered one is sent again in the next run as long as there is still something to say. */
  lemma {:induction false} UndeliveredIsRetried(specs: seq<Spec>, rows: seq<Row>, env: Env, next: Env, i: nat)
    requires |rows| == |specs| && i < |rows| && SendsFor(specs, rows, env, i) && env.notifyError(i).Some?
    requires var after := Worked(specs, RunRows(specs, rows, env), next, i);
      IdentityOf(after) == IdentityOf(Worked(specs, rows, env, i)) && Notifiable(after)
    ensures SendsFor(specs, RunRows(specs, rows, env), next, i)
  {
    WorkedKeepsNotified(specs, RunRows(specs, rows, env), next, i);
    WorkedKeepsNotified(specs, rows, env, i);
    NotifiedIff(specs, rows, env, i);
  }
}

/**
 * The snapshot of the research runner, rows of older versions included, and the loop that
 * reads, works and writes it.
 */
module ResearchRunner {
  import opened Wrappers
  import opened Research

  /** A row as stored; None marks a field that older versions did not write. */
  datatype Stored = Stored(contract: string, state: State, nextAttempt: Option<int>, lastAttempt: Option<int>,
                           cutoff: Option<Option<int>>, lastSuccess: Option<int>, errorCode: Option<string>,
                           errors: Option<nat>, exhausted: Option<bool>, notified: Option<Identity>)

  function Store(s: Spec, r: Row): Stored {
    Stored(s.contract, r.state, r.nextAttempt, r.lastAttempt, Some(r.cutoff), r.lastSuccess, r.errorCode,
           Some(r.errors), Some(r.exhausted), r.notified)
  }

  /** Fill in what an older version left out, without moving a current row. */
  function Upgrade(s: Spec, o: Stored): Row {
    var failing := o.state == Blocked || o.state == Error;
    var inherited := o.state == Error && o.errors.None?;
    var errors := if inherited then 1 else if o.errors.Some? then o.errors.value else 0;
    var cutoff := if o.cutoff.Some? then o.cutoff.value else if failing then o.lastAttempt else None;
    var retryAt :=
      if inherited && o.lastAttempt.Some? then Some(o.lastAttempt.value + s.retryHours * HOUR_MS) else None;
    var sooner := retryAt.Some? && (o.nextAttempt.None? || retryAt.value < o.nextAttempt.value);
    var next := if sooner then retryAt else o.nextAttempt;
    var exhausted := if o.exhausted.Some? then o.exhausted.value else o.state == Error && errors >= s.maxErrors;
    var row := Row(o.state, next, o.lastAttempt, cutoff, o.lastSuccess, o.errorCode, errors, exhausted, o.notified);
    if failing && o.notified == Some(Bare(o.state)) then row.(notified := Some(IdentityOf(row))) else row
  }

  /** Upgrading a row this version wrote changes nothing. */
  lemma {:induction false} UpgradeOfCurrentRow(s: Spec, r: Row)
    requires RowOk(s, r)
    ensures Upgrade(s, Store(s, r)) == r
  {
  }

  /**
   * A first-version failing row keeps the cohort of its last attempt; an error counts as
   * one, a blocked row as none; neither is retried later than before, and what was
   * announced under its bare state is not announced again under the richer identities.
   */
  lemma {:induction false} UpgradeOfLegacyFailure(s: Spec, o: Stored)
    requires ValidSpec(s) && o.errors.None? && o.cutoff.None? && o.exhausted.None?
    requires (o.state == Error || o.state == Blocked) && (o.notified.None? || o.notified.value.Bare?)
    ensures var r := Upgrade(s, o);
      && r.errors == (if o.state == Error then 1 else 0) && r.cutoff == o.lastAttempt
      && (r.exhausted <==> o.state == Error && s.maxErrors == 1)
      && (o.nextAttempt.Some? ==> r.nextAttempt.Some? && r.nextAttempt.value <= o.nextAttempt.value)
      && (o.state == Blocked ==> r.nextAttempt == o.nextAttempt)
      && (o.state == Error && o.lastAttempt.Some? ==>
            r.nextAttempt.Some? && r.nextAttempt.value <= o.lastAttempt.value + s.retryHours * HOUR_MS)
      && (Announces(r) <==> o.notified != Some(Bare(o.state)))
  {
  }

  type Snapshot = map<string, Stored>

  function LoadRow(s: Spec, disk: Snapshot): Row {
    if s.key in disk && disk[s.key].contract == s.contract then Upgrade(s, disk[s.key]) else DefaultRow(s)
  }

  function LoadAll(specs: seq<Spec>, disk: Snapshot): (r: seq<Row>)
    ensures |r| == |specs| && forall i :: 0 <= i < |specs| ==> r[i] == LoadRow(specs[i], disk)
  {
    seq(|specs|, i requires 0 <= i < |specs| => LoadRow(specs[i], disk))
  }

  ghost predicate DistinctKeys(specs: seq<Spec>) {
    forall i, j :: 0 <= i < j < |specs| ==> specs[i].key != specs[j].key
  }

  /** The snapshot holds exactly these rows. */
  ghost predicate Saved(specs: seq<Spec>, rows: seq<Row>, disk: Snapshot) {
    |rows| == |specs| && forall i :: 0 <= i < |specs| ==>
      specs[i].key in disk && disk[specs[i].key] == Store(specs[i], rows[i])
  }

  /** What one run saves is what the next one loads. */
  lemma {:induction false} SavedIsLoaded(specs: seq<Spec>, rows: seq<Row>, disk: Snapshot)
    requires AllOk(specs, rows) && Saved(specs, rows, disk)
    ensures LoadAll(specs, disk) == rows
  {
    forall i | 0 <= i < |specs| ensures LoadRow(specs[i], disk) == rows[i] { UpgradeOfCurrentRow(specs[i], rows[i]); }
  }

  /** Without a snapshot every row starts within its budget. */
  lemma {:induction false} FreshStartOk(specs: seq<Spec>)
    requires forall i :: 0 <= i < |specs| ==> ValidSpec(specs[i])
    ensures AllOk(specs, LoadAll(specs, map[]))
  {
  }

  /** So the budget holds after every history that begins without a snapshot. */
  lemma {:induction false} BudgetFromNothing(specs: seq<Spec>, envs: seq<Env>, n: nat)
    requires (forall i :: 0 <= i < |specs| ==> ValidSpec(specs[i])) && n <= |envs|
    ensures AllOk(specs, RowsAfter(specs, LoadAll(specs, map[]), envs, n))
  {
    FreshStartOk(specs);
    BudgetAlways(specs, LoadAll(specs, map[]), envs, n);
  }

  class Runner {
    var disk: Snapshot
    var rows: seq<Row>
    var ran: seq<Process>  // report processes started in this run
    var sent: seq<nat>     // rows a message was sent for in this run

    constructor (disk: Snapshot)
      ensures this.disk == disk
    {
      this.disk := disk;
      rows, ran, sent := [], [], [];
    }

    /** One run of the timer. */
    method RunOnce(specs: seq<Spec>, env: Env) returns (attempted: Option<nat>)
      requires DistinctKeys(specs)
      modifies this
      ensures var loaded := LoadAll(specs, old(disk));
        && rows == RunRows(specs, loaded, env) && Saved(specs, rows, disk)
        && attempted == Chosen(specs, loaded, env) && ran == Processes(specs, loaded, env)
        && (forall i :: i in sent <==> 0 <= i < |specs| && SendsFor(specs, loaded, env, i))
    {
      ghost var loaded := LoadAll(specs, disk);
      rows := Prepare(specs, disk, env.now);
      attempted := Select(specs, rows, env, loaded);
      ran := [];
      if attempted.Some? { Work(specs, attempted.value, env); }
      assert forall i :: 0 <= i < |rows| ==> rows[i] == Worked(specs, loaded, env, i);
      AnnounceAll(specs, env);
      Save(specs);
    }

    /** Attempt one row; the report process starts only for a live line with the resources for it. */
    method Work(specs: seq<Spec>, k: nat, env: Env)
      requires k < |specs| == |rows|
      modifies this`rows, this`ran
      ensures rows == old(rows)[k := Attempt(specs[k], old(rows)[k], env).row]
      ensures var started := Attempt(specs[k], old(rows)[k], env).started;
        ran == old(ran) + if started.Some? then [Process(k, started.value)] else []
    {
      var s, cutoff := specs[k], CutoffFor(rows[k], env.now);
      var row := AttemptHeader(s, rows[k], env.now);
      if s.retired.Some? {
        row := Succeeded(row, Terminal(s.retired.value), env.now);
      } else {
        match env.resources
        case Unreadable => row := RecordedError(s, row, env.now, "runner_error");
        case Short =>
          row := row.(state := Blocked, errorCode := Some("insufficient_resources"), exhausted := false,
                      nextAttempt := Some(env.now + HOUR_MS));
        case Enough =>
          ran := ran + [Process(k, cutoff)];
          match env.report
          case Reported(state) => row := Succeeded(row, state, env.now);
          case Failed(code) => row := RecordedError(s, row, env.now, code);
      }
      rows := rows[k := row];
    }

    method AnnounceAll(ghost specs: seq<Spec>, env: Env)
      modifies this`rows, this`sent
      ensures |rows| == |old(rows)|
      ensures forall i :: 0 <= i < |rows| ==> rows[i] == Announced(old(rows)[i], env.notifyError(i))
      ensures forall i :: i in sent <==> 0 <= i < |old(rows)| && Announces(old(rows)[i])
    {
      sent := [];
      for i := 0 to |rows|
        invariant |rows| == |old(rows)|
        invariant forall j :: 0 <= j < |rows| ==>
          rows[j] == if j < i then Announced(old(rows)[j], env.notifyError(j)) else old(rows)[j]
        invariant forall j :: j in sent <==> 0 <= j < i && Announces(old(rows)[j])
      {
        if Announces(rows[i]) {
          sent := sent + [i];
          if env.notifyError(i).None? { rows := rows[i := rows[i].(notified := Some(IdentityOf(rows[i])))]; }
        }
      }
    }

    method Save(specs: seq<Spec>)
      requires |rows| == |specs| && DistinctKeys(specs)
      modifies this`disk
      ensures Saved(specs, rows, disk)
    {
      disk := map[];
      for i := 0 to |specs|
        invariant forall j :: 0 <= j < i ==> specs[j].key in disk && disk[specs[j].key] == Store(specs[j], rows[j])
      {
        disk := disk[specs[i].key := Store(specs[i], rows[i])];
      }
    }
  }

  method Prepare(specs: seq<Spec>, disk: Snapshot, now: int) returns (rows: seq<Row>)
    ensures rows == PreparedAll(specs, LoadAll(specs, disk), now)
  {
    rows := [];
    for i := 0 to |specs|
      invariant |rows| == i
      invariant forall j :: 0 <= j < i ==> rows[j] == Prepared(specs[j], LoadRow(specs[j], disk), now)
    {
      rows := rows + [Prepared(specs[i], LoadRow(specs[i], disk), now)];
    }
  }

  /** The first row that may be attempted. */
  method Select(specs: seq<Spec>, rows: seq<Row>, env: Env, ghost loaded: seq<Row>) returns (r: Option<nat>)
    requires |loaded| == |specs| && rows == PreparedAll(specs, loaded, env.now)
    ensures r == Chosen(specs, loaded, env)
  {
    for i := 0 to |specs|
      invariant Chosen(specs, loaded, env) == FirstSelectable(specs, loaded, env.now, env.force, i)
    {
      if Selectable(specs[i], rows[i], env.now, env.force) { return Some(i); }
    }
    r := None;
  }
}
