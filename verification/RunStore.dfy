/**
 The persisted side of a workflow run, and what one attempt does to it. Everything here is a function of
 the tables alone (run row, action logs, event waits); the engine's in-memory caches live in Worker.
 */
module RunStore {
  import opened Common
  import opened Conditions
  import opened StepTree

  /* ---- Tables ---- */

  datatype RunStatus = Pending | Running | Waiting | Completed | Failed

  /** Resume state is keyed by step id and by structural path; the two kinds of key never collide. */
  datatype Key = IdKey(id: StepId) | PathKey(path: Path)

  datatype RunRow = RunRow(
    status: RunStatus,
    retryCount: nat,
    nextRetryAt: Option<Time>,
    wakeAt: Option<Time>,
    completedActions: set<Key>,
    recoveryCount: nat)

  datatype Output =
    | NoOutput
    | ActionOutput(value: int)
    | WaitOutput(wakeAt: Time, resumed: bool, eventSatisfied: bool, happened: Option<bool>, timedOut: Option<bool>)

  datatype LogStatus = LogRunning | LogRetrying | LogFailed | LogSuccess | LogWaiting

  datatype LogKind = ActionRow | DelayRow

  datatype ActionLog =
    ActionLog(path: Path, kind: LogKind, status: LogStatus, output: Output, attemptNo: nat)

  /** "This run, at this step path, waits for an event": one row per path. */
  datatype EventWait = EventWait(expiresAt: Time, satisfied: bool)

  datatype Db = Db(run: RunRow, logs: seq<ActionLog>, waits: map<Path, EventWait>)

  /** A freshly created run. */
  function NewRun(): Db {
    Db(RunRow(Pending, 0, None, None, {}, 0), [], map[])
  }

  /* ---- What the outside world decides during one attempt ---- */

  datatype ExecResult = Succeeded(output: Output) | RetryableError | PermanentError

  /**
   What one leaf meets if the walk reaches it: how many of its persistent writes land before the process
   dies (a number past the last write means it survives the step), the executor's verdict, the clock, the date
   a wait-until resolves to, and whether the run has a contact to wait on.
   */
  datatype Tick = Tick(writes: nat, exec: ExecResult, now: Time, until: Option<Time>, hasContact: bool)

  /**
   One attempt's environment. `condition` and `tick` may differ arbitrarily between attempts; `locks` and
   `finishLands` say whether the first and last write of the attempt land, `loads` whether version and logs load.
   */
  datatype Env = Env(
    condition: (Path, ConditionGroup) -> bool,
    tick: Path -> Tick,
    locks: bool,
    loads: bool,
    finishLands: bool)

  /** What stays fixed for a run: the pinned steps tree and the hash each split draws for this run. */
  datatype Workflow = Workflow(steps: seq<Step>, roll: StepId -> int)

  function ForksOf(wf: Workflow, env: Env): Forks { Forks(env.condition, wf.roll) }

  /** How a step, and hence a walk, ends. */
  datatype Outcome = Proceed | Parked | Errored | Crashed

  /* ---- Reading the logs ---- */

  predicate IsDone(logs: seq<ActionLog>, path: Path) {
    exists i | 0 <= i < |logs| :: logs[i].status == LogSuccess && logs[i].path == path
  }

  /** The last waiting row of a path, or -1. */
  function FindWaiting(logs: seq<ActionLog>, path: Path): (w: int)
    ensures -1 <= w < |logs|
    ensures w >= 0 ==> logs[w].status == LogWaiting && logs[w].path == path
    ensures forall i :: w < i < |logs| ==> !(logs[i].status == LogWaiting && logs[i].path == path)
  {
    if logs == [] then -1
    else
      var last := |logs| - 1;
      if logs[last].status == LogWaiting && logs[last].path == path then last
      else FindWaiting(logs[..last], path)
  }

  function WakeAtFromLog(output: Output): Time { if output.WaitOutput? then output.wakeAt else 0 }

  predicate EventSatisfiedFromLog(output: Output) { output.WaitOutput? && output.eventSatisfied }

  /** The paths holding a success or waiting log: what pins a fork's branch. */
  function StartedPaths(logs: seq<ActionLog>): set<Path> {
    set i | 0 <= i < |logs| && (logs[i].status == LogSuccess || logs[i].status == LogWaiting) :: logs[i].path
  }

  /** stepPathIndex: structural path to step id, for every step that has an id. */
  function PathIndex(steps: seq<Step>, i: nat, parent: Path, branch: Branch): map<Path, StepId>
    requires i <= |steps|
    decreases steps, 1, |steps| - i
  {
    if i == |steps| then map[]
    else StepIndex(steps[i], BuildStepPath(parent, branch, i)) + PathIndex(steps, i + 1, parent, branch)
  }

  function StepIndex(step: Step, path: Path): map<Path, StepId>
    decreases step, 2
  {
    (if step.id != "" then map[path := step.id] else map[])
    + (if step.IsFork() then PathIndex(step.yesSteps, 0, path, Yes) + PathIndex(step.noSteps, 0, path, No) else map[])
  }

  function IndexOf(wf: Workflow): map<Path, StepId> { PathIndex(wf.steps, 0, [], Root) }

  function KeysAt(index: map<Path, StepId>, path: Path): set<Key> {
    {PathKey(path)} + (if path in index then {IdKey(index[path])} else {})
  }

  /** The keys of every step with a success log. */
  function DoneKeys(index: map<Path, StepId>, logs: seq<ActionLog>): set<Key> {
    set i, k | 0 <= i < |logs| && logs[i].status == LogSuccess && k in KeysAt(index, logs[i].path) :: k
  }

  /* ---- One action step ---- */

  const MAX_RETRIES := 3

  function Backoff(attempt: nat): Time {
    match attempt
    case 1 => 30
    case 2 => 120
    case _ => 600
  }

  function ActionOp(index: map<Path, StepId>, db: Db, leaf: Leaf, t: Tick): (Db, Outcome) {
    if IsDone(db.logs, leaf.path) then (db, Proceed)
    else if t.writes == 0 then (db, Crashed)
    else
      var row := ActionLog(leaf.path, ActionRow, LogRunning, NoOutput, db.run.retryCount + 1);
      if t.writes == 1 then
        (db.(logs := db.logs + [row]), Crashed)
      else
        match t.exec
        case Succeeded(output) =>
          var logs := db.logs + [row.(status := LogSuccess, output := output)];
          var run := db.run.(retryCount := 0, nextRetryAt := None, completedActions := DoneKeys(index, logs));
          (db.(run := run, logs := logs), Proceed)
        case RetryableError =>
          if db.run.retryCount < MAX_RETRIES then
            var n := db.run.retryCount + 1;
            var run := db.run.(status := Pending, retryCount := n, nextRetryAt := Some(t.now + Backoff(n)));
            (db.(run := run, logs := db.logs + [row.(status := LogRetrying)]), Errored)
          else FailAction(db, row)
        case PermanentError => FailAction(db, row)
  }

  function FailAction(db: Db, row: ActionLog): (Db, Outcome) {
    (db.(run := db.run.(status := Failed), logs := db.logs + [row.(status := LogFailed)]), Errored)
  }

  /* ---- One delay step ---- */

  /** The absolute wake time of a delay met for the first time; the flag is false when a date does not resolve. */
  function ResolveDelayWakeAt(delay: Option<DelayParams>, t: Tick): (Time, bool) {
    match delay
    case None => (t.now, true)
    case Some(d) =>
      if d.IsWaitEvent() then
        if d.timeoutSec <= 0 then (t.now, true) else (t.now + d.timeoutSec, true)
      else if d.IsWaitUntil() then
        if t.until.Some? then (t.until.value, true) else (0, false)
      else
        if d.durationSec <= 0 then (t.now, true) else (t.now + d.durationSec, true)
  }

  function FreshWait(wakeAt: Time): Output { WaitOutput(wakeAt, false, false, None, None) }

  function FinishedWait(step: Step, wakeAt: Time, now: Time, happened: bool): Output {
    if step.IsWaitEvent() then
      WaitOutput(if happened then now else wakeAt, true, false, Some(happened), Some(!happened))
    else
      WaitOutput(wakeAt, true, false, None, None)
  }

  function FinishWait(index: map<Path, StepId>, db: Db, leaf: Leaf, w: nat, t: Tick, happened: bool): (Db, Outcome)
    requires w < |db.logs|
  {
    if t.writes == 0 then (db, Crashed)
    else
      var row := db.logs[w];
      var output := FinishedWait(leaf.step, WakeAtFromLog(row.output), t.now, happened);
      var logs := db.logs[w := row.(status := LogSuccess, output := output)];
      var run := db.run.(retryCount := 0, nextRetryAt := None, wakeAt := None, completedActions := DoneKeys(index, logs));
      if !leaf.step.IsWaitEvent() then (db.(run := run, logs := logs), Proceed)
      else if t.writes == 1 then (db.(run := run, logs := logs), Crashed)
      else (Db(run, logs, map[]), Proceed)
  }

  /** The step already parked the run once. */
  function ResumeWait(index: map<Path, StepId>, db: Db, leaf: Leaf, w: nat, t: Tick): (Db, Outcome)
    requires w < |db.logs|
  {
    var wakeAt := WakeAtFromLog(db.logs[w].output);
    if leaf.step.IsWaitEvent() && EventSatisfiedFromLog(db.logs[w].output) then
      FinishWait(index, db, leaf, w, t, true)
    else if wakeAt > t.now then
      if t.writes == 0 then (db, Crashed)
      else (db.(run := db.run.(status := Waiting, wakeAt := Some(wakeAt), nextRetryAt := None)), Parked)
    else
      FinishWait(index, db, leaf, w, t, false)
  }

  /** The step is met for the first time: pass a wait that is already over, or park the run. */
  function EnterWait(index: map<Path, StepId>, db: Db, leaf: Leaf, t: Tick): (Db, Outcome)
    requires leaf.step.Delay?
  {
    var (wakeAt, resolved) := ResolveDelayWakeAt(leaf.step.delay, t);
    var row := ActionLog(leaf.path, DelayRow, LogRunning, NoOutput, db.run.retryCount + 1);
    if t.writes == 0 then (db, Crashed)
    else if !(resolved && wakeAt > t.now) then
      var logs := db.logs + [row.(status := LogSuccess, output := FreshWait(wakeAt))];
      if t.writes == 1 then (db.(logs := logs), Crashed)
      else (db.(run := db.run.(completedActions := DoneKeys(index, logs)), logs := logs), Proceed)
    else if t.writes == 1 then (db.(logs := db.logs + [row]), Crashed)
    else
      var logs := db.logs + [row.(status := LogWaiting, output := FreshWait(wakeAt))];
      var run := db.run.(status := Waiting, wakeAt := Some(wakeAt), nextRetryAt := None);
      var parked := db.(run := run, logs := logs);
      if t.writes == 2 then (parked, Crashed)
      else if leaf.step.IsWaitEvent() && t.hasContact then (Register(parked, leaf.path, wakeAt), Parked)
      else (parked, Parked)
  }

  /** RegisterEventWait: insert the wait, or refresh its deadline, keeping `satisfied`. */
  function Register(db: Db, path: Path, expiresAt: Time): Db {
    var satisfied := path in db.waits && db.waits[path].satisfied;
    db.(waits := db.waits[path := EventWait(expiresAt, satisfied)])
  }

  function DelayOp(index: map<Path, StepId>, db: Db, leaf: Leaf, t: Tick): (Db, Outcome)
    requires leaf.step.Delay?
  {
    if IsDone(db.logs, leaf.path) then (db, Proceed)
    else
      var w := FindWaiting(db.logs, leaf.path);
      if w >= 0 then ResumeWait(index, db, leaf, w, t) else EnterWait(index, db, leaf, t)
  }

  /* ---- A walk, an attempt ---- */

  function LeafOp(index: map<Path, StepId>, db: Db, leaf: Leaf, t: Tick): (Db, Outcome) {
    if leaf.step.Delay? then DelayOp(index, db, leaf, t) else ActionOp(index, db, leaf, t)
  }

  /** The leaves in order, until one does not proceed. */
  function RunLeaves(index: map<Path, StepId>, db: Db, leaves: seq<Leaf>, env: Env): (Db, Outcome)
    decreases |leaves|
  {
    if leaves == [] then (db, Proceed)
    else
      var (next, outcome) := LeafOp(index, db, leaves[0], env.tick(leaves[0].path));
      if outcome.Proceed? then RunLeaves(index, next, leaves[1..], env) else (next, outcome)
  }

  /** The run as the worker sees it once it holds the run: pending becomes running. */
  function Claimed(db: Db): Db {
    if db.run.status.Pending? then db.(run := db.run.(status := Running)) else db
  }

  /** processRun: one whole attempt, as a function of the tables. */
  function Attempt(wf: Workflow, db: Db, env: Env): Db {
    if !(db.run.status.Pending? || db.run.status.Running?) || !env.locks then db
    else
      var claimed := Claimed(db);
      if !env.loads || wf.steps == [] then
        if env.finishLands then claimed.(run := claimed.run.(status := Failed)) else claimed
      else
        var plan := RootPlan(wf.steps, StartedPaths(claimed.logs), ForksOf(wf, env));
        var (after, outcome) := RunLeaves(IndexOf(wf), claimed, plan, env);
        if outcome.Proceed? && env.finishLands then after.(run := after.run.(status := Completed)) else after
  }

  /* ---- The other writers ---- */

  /** RequeueInFlight: a run left running by a dead process becomes pending again. */
  function Recover(db: Db): Db {
    if db.run.status.Running? then
      db.(run := db.run.(status := Pending, recoveryCount := db.run.recoveryCount + 1))
    else db
  }

  /** WakeDueWaitingRuns: the clock sweep. */
  function WakeDue(db: Db, now: Time): Db {
    if db.run.status.Waiting? && db.run.wakeAt.Some? && db.run.wakeAt.value <= now then Woken(db, now) else db
  }

  function Woken(db: Db, now: Time): Db {
    db.(run := db.run.(status := Pending, nextRetryAt := Some(now), wakeAt := None))
  }

  /** An engagement event may claim the wait at a path: it is open and has not expired. */
  predicate Claimable(db: Db, path: Path, now: Time) {
    path in db.waits && !db.waits[path].satisfied && db.waits[path].expiresAt > now
  }

  function ClaimWait(db: Db, path: Path): Db
    requires path in db.waits
  {
    db.(waits := db.waits[path := db.waits[path].(satisfied := true)])
  }

  function StampRows(logs: seq<ActionLog>, path: Path): (stamped: seq<ActionLog>)
    ensures |stamped| == |logs|
    ensures forall i :: 0 <= i < |logs| ==> stamped[i] == StampRow(logs[i], path)
  {
    seq(|logs|, i requires 0 <= i < |logs| => StampRow(logs[i], path))
  }

  function StampRow(row: ActionLog, path: Path): ActionLog {
    if row.status == LogWaiting && row.path == path && row.output.WaitOutput?
    then row.(output := row.output.(eventSatisfied := true)) else row
  }

  /** SatisfyWaitingRun: wake a run that is still parked and stamp the parked log at the wait's path. */
  function Satisfy(db: Db, path: Path, now: Time): Db {
    if db.run.status.Waiting? then Woken(db, now).(logs := StampRows(db.logs, path)) else db
  }

  /** ResetRunForRetry: a failed run gets a fresh retry budget. */
  function ResetForRetry(db: Db): Db {
    if db.run.status.Failed? then
      db.(run := db.run.(status := Pending, retryCount := 0, nextRetryAt := None))
    else db
  }

  /* ---- Schedules ---- */

  /** One atomic happening. Any worker attempt, sweep, event or click may come at any time. */
  datatype Event =
    | AttemptRun(env: Env)
    | RecoverRun
    | SweepWake(now: Time)
    | ClaimEvent(path: Path, now: Time)
    | SatisfyRun(path: Path, now: Time)
    | ManualRetry

  /** The tables, and the waits a webhook has claimed but not yet acted on (lost if its process dies). */
  datatype World = World(db: Db, claimed: set<Path>)

  function Step1(wf: Workflow, w: World, e: Event): World {
    match e
    case AttemptRun(env) => w.(db := Attempt(wf, w.db, env))
    case RecoverRun => World(Recover(w.db), {})
    case SweepWake(now) => w.(db := WakeDue(w.db, now))
    case ClaimEvent(path, now) =>
      if Claimable(w.db, path, now) then World(ClaimWait(w.db, path), w.claimed + {path}) else w
    case SatisfyRun(path, now) =>
      if path in w.claimed then World(Satisfy(w.db, path, now), w.claimed - {path}) else w
    case ManualRetry => w.(db := ResetForRetry(w.db))
  }

  /** The world after a whole schedule, starting from a fresh run. */
  function After(wf: Workflow, events: seq<Event>): World {
    if events == [] then World(NewRun(), {})
    else Step1(wf, After(wf, events[..|events| - 1]), events[|events| - 1])
  }
}
