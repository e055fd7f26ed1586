/** How often executors are called, and why a run ends. */
module RunRetry {
  import opened Common
  import opened Conditions
  import opened StepTree
  import opened RunStore
  import opened RunLogs
  import opened RunRoutes
  import opened RunResume

  /* ---- Counting rows ---- */

  /** Rows by kind and fate. Every executor call is preceded by its own action row. */
  datatype Tally = Tally(actions: nat, delays: nat, retries: nat, failures: nat, orphans: nat) {
    /** Executor calls, counting a row whose attempt died as one. */
    function Calls(): nat { actions + retries + failures + orphans }

    function Add(row: ActionLog): Tally {
      match (row.kind, row.status)
      case (ActionRow, LogSuccess) => this.(actions := actions + 1)
      case (DelayRow, LogSuccess) => this.(delays := delays + 1)
      case (ActionRow, LogRetrying) => this.(retries := retries + 1)
      case (ActionRow, LogFailed) => this.(failures := failures + 1)
      case (ActionRow, LogRunning) => this.(orphans := orphans + 1)
      case _ => this
    }
  }

  function TallyOf(logs: seq<ActionLog>): Tally {
    if logs == [] then Tally(0, 0, 0, 0, 0)
    else TallyOf(logs[..|logs| - 1]).Add(logs[|logs| - 1])
  }

  lemma TallyAppend(logs: seq<ActionLog>, row: ActionLog)
    ensures TallyOf(logs + [row]) == TallyOf(logs).Add(row)
  {
    assert (logs + [row])[..|logs|] == logs;
  }

  lemma {:induction false} TallyFlip(logs: seq<ActionLog>, w: nat, row: ActionLog)
    requires w < |logs| && logs[w].status.LogWaiting? && row.status.LogSuccess? && row.kind.DelayRow?
    ensures TallyOf(logs[w := row]) == TallyOf(logs).(delays := TallyOf(logs).delays + 1)
    decreases |logs|
  {
    var n := |logs| - 1;
    if w < n {
      assert logs[w := row][..n] == logs[..n][w := row];
      TallyFlip(logs[..n], w, row);
    } else {
      assert logs[w := row][..n] == logs[..n];
    }
  }

  lemma {:induction false} TallySame(a: seq<ActionLog>, b: seq<ActionLog>)
    requires |a| == |b| && forall i :: 0 <= i < |a| ==> a[i].status == b[i].status && a[i].kind == b[i].kind
    ensures TallyOf(a) == TallyOf(b)
  {
    if a != [] {
      TallySame(a[..|a| - 1], b[..|b| - 1]);
    }
  }

  /** Every action row is counted as exactly one executor call. */
  lemma {:induction false} CallsAreActionRows(wf: Workflow, logs: seq<ActionLog>)
    requires forall i :: 0 <= i < |logs| ==> RowOk(wf, logs[i])
    ensures TallyOf(logs).Calls() == |ActionRows(logs)|
  {
    if logs != [] {
      assert RowOk(wf, logs[|logs| - 1]);
      CallsAreActionRows(wf, logs[..|logs| - 1]);
    }
  }

  function ActionRows(logs: seq<ActionLog>): seq<ActionLog> {
    if logs == [] then []
    else ActionRows(logs[..|logs| - 1]) + (if logs[|logs| - 1].kind.ActionRow? then [logs[|logs| - 1]] else [])
  }

  lemma {:induction false} CommittedCount(logs: seq<ActionLog>)
    ensures |Committed(logs)| == TallyOf(logs).actions + TallyOf(logs).delays
  {
    if logs != [] {
      CommittedCount(logs[..|logs| - 1]);
    }
  }

  /* ---- What one step costs ---- */

  /** The effect of one step on the counters. `paid` is the fate of the step's own row. */
  predicate Charged(db: Db, leaf: Leaf, next: Db, o: Outcome) {
    var a, b := TallyOf(db.logs), TallyOf(next.logs);
    || (b == a && next.run.retryCount == db.run.retryCount)
    || (b == a.(orphans := a.orphans + 1) && next.run.retryCount == db.run.retryCount && o.Crashed?)
    || (b == a.(actions := a.actions + 1) && next.run.retryCount == 0 && leaf.step.Action?)
    || (b == a.(delays := a.delays + 1) && (next.run.retryCount == 0 || next.run.retryCount == db.run.retryCount) && leaf.step.Delay?)
    || (b == a.(retries := a.retries + 1) && next.run.retryCount == db.run.retryCount + 1 && db.run.retryCount < MAX_RETRIES
        && o.Errored? && next.run.status.Pending? && !leaf.step.Delay?)
    || (b == a.(failures := a.failures + 1) && next.run.retryCount == db.run.retryCount && o.Errored? && next.run.status.Failed?)
  }

  /** The fate of the row a step adds, and the retry counter that goes with it. */
  predicate Priced(db: Db, leaf: Leaf, next: Db, o: Outcome) {
    if next.logs == db.logs then
      next.run.retryCount == db.run.retryCount && (o.Crashed? || o.Parked? || (o.Proceed? && next == db))
    else if Appended(db, leaf, next, o) then
      match next.logs[|db.logs|].status
      case LogRunning => next.run.retryCount == db.run.retryCount && o.Crashed?
      case LogSuccess => next.run.retryCount == 0 || (next.run.retryCount == db.run.retryCount && leaf.step.Delay?)
      case LogWaiting => next.run.retryCount == db.run.retryCount
      case LogRetrying =>
        && next.run.retryCount == db.run.retryCount + 1 && db.run.retryCount < MAX_RETRIES
        && o.Errored? && next.run.status.Pending? && !leaf.step.Delay?
      case LogFailed =>
        next.run.retryCount == db.run.retryCount && o.Errored? && next.run.status.Failed? && !leaf.step.Delay?
    else
      Flipped(db, leaf, next, o) && next.run.retryCount == 0
  }

  lemma OpPriced(wf: Workflow, db: Db, leaf: Leaf, t: Tick)
    requires IsLeafOf(wf, leaf) && LogsOk(wf, db.logs)
    ensures var (next, o) := LeafOp(IndexOf(wf), db, leaf, t); Priced(db, leaf, next, o)
  {
    if leaf.step.Delay? {
      DelayPriced(IndexOf(wf), db, leaf, t);
    } else {
      NoWaitingAction(wf, db.logs, leaf);
      ActionPriced(IndexOf(wf), db, leaf, t);
    }
  }

  lemma ActionPriced(index: map<Path, StepId>, db: Db, leaf: Leaf, t: Tick)
    requires !leaf.step.Delay? && FindWaiting(db.logs, leaf.path) < 0
    ensures var (next, o) := ActionOp(index, db, leaf, t); Priced(db, leaf, next, o)
  {
    ActionShape(index, db, leaf, t);
  }

  lemma DelayPriced(index: map<Path, StepId>, db: Db, leaf: Leaf, t: Tick)
    requires leaf.step.Delay?
    ensures var (next, o) := DelayOp(index, db, leaf, t); Priced(db, leaf, next, o)
  {
    DelayShape(index, db, leaf, t);
  }

  lemma PricedIsCharged(wf: Workflow, db: Db, leaf: Leaf, next: Db, o: Outcome)
    requires IsLeafOf(wf, leaf) && LogsOk(wf, db.logs) && Priced(db, leaf, next, o)
    ensures Charged(db, leaf, next, o)
  {
    AllAreLeaves(wf.steps, 0, [], Root);
    if next.logs != db.logs {
      if Appended(db, leaf, next, o) {
        TallyAppend(db.logs, next.logs[|db.logs|]);
      } else {
        var w := FindWaiting(db.logs, leaf.path);
        assert RowOk(wf, db.logs[w]);
        TallyFlip(db.logs, w, next.logs[w]);
      }
    }
  }

  lemma OpCharged(wf: Workflow, db: Db, leaf: Leaf, t: Tick)
    requires IsLeafOf(wf, leaf) && LogsOk(wf, db.logs)
    ensures var (next, o) := LeafOp(IndexOf(wf), db, leaf, t); Charged(db, leaf, next, o)
  {
    var (next, o) := LeafOp(IndexOf(wf), db, leaf, t);
    OpPriced(wf, db, leaf, t);
    PricedIsCharged(wf, db, leaf, next, o);
  }

  /* ---- The retry budget ---- */

  /**
   Three retries per committed step and per manual retry, plus those of the step being tried; a failed action ends the
   run until someone retries it.
   */
  predicate WithinBudget(db: Db, granted: nat) {
    var n := TallyOf(db.logs);
    && n.retries <= MAX_RETRIES * (n.actions + n.delays + granted) + db.run.retryCount
    && n.failures <= granted + (if db.run.status.Failed? then 1 else 0)
  }

  /** How many manual retries the schedule holds. */
  function ManualRetries(events: seq<Event>): nat {
    if events == [] then 0
    else ManualRetries(events[..|events| - 1]) + (if events[|events| - 1].ManualRetry? then 1 else 0)
  }

  lemma {:induction false} NoneGranted(events: seq<Event>)
    requires NoManualRetry(events)
    ensures ManualRetries(events) == 0
  {
    if events != [] {
      NoneGranted(events[..|events| - 1]);
    }
  }

  predicate WalkCrashes(wf: Workflow, db: Db, env: Env) {
    && (db.run.status.Pending? || db.run.status.Running?) && env.locks && env.loads && wf.steps != []
    && RunLeaves(IndexOf(wf), Claimed(db), RootPlan(wf.steps, StartedPaths(db.logs), ForksOf(wf, env)), env).1.Crashed?
  }

  /** How many attempts of the schedule died inside their walk. */
  function Crashes(wf: Workflow, events: seq<Event>): nat {
    if events == [] then 0
    else
      var rest, e := events[..|events| - 1], events[|events| - 1];
      Crashes(wf, rest) + (if e.AttemptRun? && WalkCrashes(wf, After(wf, rest).db, e.env) then 1 else 0)
  }

  predicate NoManualRetry(events: seq<Event>) {
    forall i :: 0 <= i < |events| ==> !events[i].ManualRetry?
  }

  lemma {:induction false} WalkWithinBudget(wf: Workflow, db: Db, leaves: seq<Leaf>, env: Env, granted: nat)
    requires DbOk(wf, db) && db.run.status.Running? && WithinBudget(db, granted)
    requires forall l | l in leaves :: IsLeafOf(wf, l)
    ensures var (next, o) := RunLeaves(IndexOf(wf), db, leaves, env);
            && WithinBudget(next, granted)
            && TallyOf(next.logs).orphans <= TallyOf(db.logs).orphans + (if o.Crashed? then 1 else 0)
            && (o.Proceed? ==> next.run.status.Running?)
    decreases |leaves|
  {
    if leaves != [] {
      var t := env.tick(leaves[0].path);
      var (mid, o) := LeafOp(IndexOf(wf), db, leaves[0], t);
      OpKeeps(wf, db, leaves[0], t);
      OpCharged(wf, db, leaves[0], t);
      if o.Proceed? {
        WalkWithinBudget(wf, mid, leaves[1..], env, granted);
      }
    }
  }

  lemma {:induction false} AlwaysWithinBudget(wf: Workflow, events: seq<Event>)
    ensures WithinBudget(After(wf, events).db, ManualRetries(events))
    ensures TallyOf(After(wf, events).db.logs).orphans <= Crashes(wf, events)
    decreases |events|
  {
    if events != [] {
      var rest, e := events[..|events| - 1], events[|events| - 1];
      var w := After(wf, rest);
      AlwaysWithinBudget(wf, rest);
      AlwaysOk(wf, rest);
      match e
      case AttemptRun(env) =>
        AttemptWithinBudget(wf, w.db, env, ManualRetries(rest));
      case _ =>
        OthersWithinBudget(wf, w, e, ManualRetries(rest));
    }
  }

  lemma OthersWithinBudget(wf: Workflow, w: World, e: Event, granted: nat)
    requires !e.AttemptRun? && WithinBudget(w.db, granted) && w.db.run.retryCount <= MAX_RETRIES
    ensures WithinBudget(Step1(wf, w, e).db, if e.ManualRetry? then granted + 1 else granted)
    ensures TallyOf(Step1(wf, w, e).db.logs) == TallyOf(w.db.logs)
  {
    if e.SatisfyRun? {
      TallySame(w.db.logs, StampRows(w.db.logs, e.path));
    }
  }

  lemma AttemptWithinBudget(wf: Workflow, db: Db, env: Env, granted: nat)
    requires DbOk(wf, db) && WithinBudget(db, granted)
    ensures WithinBudget(Attempt(wf, db, env), granted)
    ensures TallyOf(Attempt(wf, db, env).logs).orphans <= TallyOf(db.logs).orphans + (if WalkCrashes(wf, db, env) then 1 else 0)
  {
    if (db.run.status.Pending? || db.run.status.Running?) && env.locks && env.loads && wf.steps != [] {
      var started := StartedPaths(db.logs);
      PlanWithin(wf.steps, 0, [], Root, started, ForksOf(wf, env));
      WalkWithinBudget(wf, Claimed(db), RootPlan(wf.steps, started, ForksOf(wf, env)), env, granted);
    }
  }

  /**
   Any tree and any schedule, conditions free to flip: at most four executor calls per committed step, four more for
   the step being tried and for each manual retry, and one per crash.
   */
  lemma CallsBounded(wf: Workflow, events: seq<Event>)
    ensures var logs := After(wf, events).db.logs;
            |ActionRows(logs)| <= 4 * (|Committed(logs)| + 1 + ManualRetries(events)) + Crashes(wf, events)
  {
    var db := After(wf, events).db;
    AlwaysWithinBudget(wf, events);
    AlwaysOk(wf, events);
    CallsAreActionRows(wf, db.logs);
    CommittedCount(db.logs);
  }

  /* ---- Fixed decisions: only action steps cost retries ---- */

  /** While retries are outstanding the next leaf of the plan is the action being retried. */
  predicate RetryingAction(db: Db, plan: seq<Leaf>, k: nat) {
    && TallyOf(db.logs).retries <= MAX_RETRIES * TallyOf(db.logs).actions + db.run.retryCount
    && (db.run.retryCount > 0 ==> k < |plan| && plan[k].step.Action?)
  }

  lemma {:induction false} WalkRetriesActions(wf: Workflow, db: Db, plan: seq<Leaf>, k: nat, env: Env) returns (k': nat)
    requires DbOk(wf, db) && db.run.status.Running? && Aligned(plan, k, db.logs) && RetryingAction(db, plan, k)
    requires forall l | l in plan :: IsLeafOf(wf, l)
    ensures var next := RunLeaves(IndexOf(wf), db, plan[k..], env).0;
            Aligned(plan, k', next.logs) && RetryingAction(next, plan, k')
    decreases |plan| - k
  {
    k' := k;
    if k < |plan| {
      var leaf, t := plan[k], env.tick(plan[k].path);
      var (mid, o) := LeafOp(IndexOf(wf), db, leaf, t);
      assert plan[k..][0] == leaf && plan[k..][1..] == plan[k + 1..];
      OneLeafAligned(wf, db, plan, k, t);
      OpCharged(wf, db, leaf, t);
      AllAreLeaves(wf.steps, 0, [], Root);
      AlignedCount(db, plan, k);
      if Aligned(plan, k + 1, mid.logs) {
        AlignedCount(mid, plan, k + 1);
        k' := k + 1;
        if o.Proceed? {
          k' := WalkRetriesActions(wf, mid, plan, k + 1, env);
        }
      } else {
        AlignedCount(mid, plan, k);
      }
    }
  }

  /** An aligned table has committed exactly k steps. */
  lemma AlignedCount(db: Db, plan: seq<Leaf>, k: nat)
    requires Aligned(plan, k, db.logs)
    ensures TallyOf(db.logs).actions + TallyOf(db.logs).delays == k
  {
    CommittedCount(db.logs);
  }

  lemma AttemptRetriesActions(wf: Workflow, db: Db, k: nat, env: Env) returns (k': nat)
    requires DbOk(wf, db)
    requires var plan := RootPlan(wf.steps, {}, ForksOf(wf, env)); Aligned(plan, k, db.logs) && RetryingAction(db, plan, k)
    ensures var plan, next := RootPlan(wf.steps, {}, ForksOf(wf, env)), Attempt(wf, db, env);
            Aligned(plan, k', next.logs) && RetryingAction(next, plan, k')
  {
    var plan := RootPlan(wf.steps, {}, ForksOf(wf, env));
    k' := k;
    if (db.run.status.Pending? || db.run.status.Running?) && env.locks && env.loads && wf.steps != [] {
      PlanWithin(wf.steps, 0, [], Root, {}, ForksOf(wf, env));
      StillFreshPlan(wf, db.logs, k, ForksOf(wf, env));
      assert plan[0..] == plan;
      SkipsCommitted(IndexOf(wf), Claimed(db), plan, 0, k, env);
      k' := WalkRetriesActions(wf, Claimed(db), plan, k, env);
    }
  }

  lemma {:induction false} AlwaysRetryingAction(wf: Workflow, events: seq<Event>, condition: (Path, ConditionGroup) -> bool) returns (k: nat)
    requires NoManualRetry(events) && SameConditions(events, condition)
    ensures var plan := RootPlan(wf.steps, {}, Forks(condition, wf.roll));
            Aligned(plan, k, After(wf, events).db.logs) && RetryingAction(After(wf, events).db, plan, k)
    decreases |events|
  {
    var forks := Forks(condition, wf.roll);
    var plan := RootPlan(wf.steps, {}, forks);
    PlanWithin(wf.steps, 0, [], Root, {}, forks);
    k := 0;
    if events != [] {
      var rest, e := events[..|events| - 1], events[|events| - 1];
      var w := After(wf, rest);
      k := AlwaysRetryingAction(wf, rest, condition);
      AlwaysOk(wf, rest);
      if e.AttemptRun? {
        k := AttemptRetriesActions(wf, w.db, k, e.env);
      } else {
        OthersKeepAligned(wf, w, e, plan, k);
        if e.SatisfyRun? {
          TallySame(w.db.logs, StampRows(w.db.logs, e.path));
        }
      }
    }
  }

  /**
   Forks that decide the same way each time: at most four calls per committed action step (plus four for the one
   being tried), plus one per crash; a completed run made at most four per action step of its path, plus one per crash.
   */
  lemma CallsBoundedPerAction(wf: Workflow, events: seq<Event>, condition: (Path, ConditionGroup) -> bool)
    requires NoManualRetry(events) && SameConditions(events, condition)
    ensures var db := After(wf, events).db;
            var calls, committed := |ActionRows(db.logs)|, TallyOf(db.logs).actions;
            && calls <= 4 * (committed + 1) + Crashes(wf, events)
            && (db.run.status.Completed? ==> calls <= 4 * committed + Crashes(wf, events))
  {
    var db := After(wf, events).db;
    AlwaysOk(wf, events);
    CallsAreActionRows(wf, db.logs);
    AlwaysWithinBudget(wf, events);
    NoneGranted(events);
    var k := AlwaysRetryingAction(wf, events, condition);
    var k' := AlwaysOnFreshPlan(wf, events, condition);
    AlignedCount(db, RootPlan(wf.steps, {}, Forks(condition, wf.roll)), k);
    AlignedCount(db, RootPlan(wf.steps, {}, Forks(condition, wf.roll)), k');
  }

  /* ---- Why a run ends ---- */

  function LeafPaths(wf: Workflow): set<Path> { set l | l in Leaves(wf.steps) :: l.path }

  function DonePaths(logs: seq<ActionLog>): set<Path> {
    set i | 0 <= i < |logs| && logs[i].status == LogSuccess :: logs[i].path
  }

  /** Steps not started, steps not done, retries left: falls with everything an attempt can achieve. */
  function Remaining(wf: Workflow, db: Db): int {
    4 * (|LeafPaths(wf)| - |StartedPaths(db.logs)|) + 4 * (|LeafPaths(wf)| - |DonePaths(db.logs)|)
    + (MAX_RETRIES - db.run.retryCount)
  }

  lemma RemainingNonNegative(wf: Workflow, db: Db)
    requires DbOk(wf, db)
    ensures 0 <= Remaining(wf, db)
  {
    forall p | p in StartedPaths(db.logs) ensures p in LeafPaths(wf) {
      var i :| 0 <= i < |db.logs| && (db.logs[i].status == LogSuccess || db.logs[i].status == LogWaiting) && db.logs[i].path == p;
      assert RowOk(wf, db.logs[i]);
    }
    SubsetSize(StartedPaths(db.logs), LeafPaths(wf));
    SubsetSize(DonePaths(db.logs), StartedPaths(db.logs));
  }

  /** The step changed nothing that counts: it was done already, or it died, or it parked again before its time. */
  predicate Idle(db: Db, next: Db, o: Outcome) {
    && StartedPaths(next.logs) == StartedPaths(db.logs)
    && DonePaths(next.logs) == DonePaths(db.logs)
    && next.run.retryCount == db.run.retryCount
    && (o.Crashed? || (o.Parked? && next.logs == db.logs) || (o.Proceed? && next == db))
  }

  /** What one step does to the measure's parts. */
  predicate Spent(db: Db, leaf: Leaf, next: Db, o: Outcome) {
    var started, done := StartedPaths(db.logs), DonePaths(db.logs);
    || Idle(db, next, o)
    || (o.Errored? && next.run.status.Failed? && StartedPaths(next.logs) == started && DonePaths(next.logs) == done
        && next.run.retryCount == db.run.retryCount)
    || (o.Errored? && StartedPaths(next.logs) == started && DonePaths(next.logs) == done
        && next.run.retryCount == db.run.retryCount + 1)
    || (StartedPaths(next.logs) == started + {leaf.path} && leaf.path !in started && DonePaths(next.logs) == done
        && next.run.retryCount == db.run.retryCount)
    || (StartedPaths(next.logs) == started + {leaf.path} && DonePaths(next.logs) == done + {leaf.path} && leaf.path !in done)
  }

  lemma AppendPaths(logs: seq<ActionLog>, row: ActionLog)
    ensures StartedPaths(logs + [row]) == StartedPaths(logs) + (if row.status.LogSuccess? || row.status.LogWaiting? then {row.path} else {})
    ensures DonePaths(logs + [row]) == DonePaths(logs) + (if row.status.LogSuccess? then {row.path} else {})
  {
    var all := logs + [row];
    forall i | 0 <= i < |logs| ensures all[i] == logs[i] {
    }
    assert all[|logs|] == row;
    forall p | p in StartedPaths(logs) ensures p in StartedPaths(all) {
      var i :| 0 <= i < |logs| && (logs[i].status == LogSuccess || logs[i].status == LogWaiting) && logs[i].path == p;
      assert all[i].path == p;
    }
    forall p | p in DonePaths(logs) ensures p in DonePaths(all) {
      var i :| 0 <= i < |logs| && logs[i].status == LogSuccess && logs[i].path == p;
      assert all[i].path == p;
    }
  }

  lemma FlipPaths(logs: seq<ActionLog>, w: nat, row: ActionLog)
    requires w < |logs| && logs[w].status.LogWaiting? && row.status.LogSuccess? && row.path == logs[w].path
    ensures StartedPaths(logs[w := row]) == StartedPaths(logs) && row.path in StartedPaths(logs)
    ensures DonePaths(logs[w := row]) == DonePaths(logs) + {row.path}
  {
    var all := logs[w := row];
    assert all[w].path == row.path;
    forall p | p in StartedPaths(logs) ensures p in StartedPaths(all) {
      var i :| 0 <= i < |logs| && (logs[i].status == LogSuccess || logs[i].status == LogWaiting) && logs[i].path == p;
      assert all[i].path == p;
    }
    forall p | p in DonePaths(logs) ensures p in DonePaths(all) {
      var i :| 0 <= i < |logs| && logs[i].status == LogSuccess && logs[i].path == p;
      assert all[i].path == p;
    }
  }

  lemma PricedIsSpent(db: Db, leaf: Leaf, next: Db, o: Outcome)
    requires Priced(db, leaf, next, o)
    ensures Spent(db, leaf, next, o)
  {
    if next.logs != db.logs {
      assert leaf.path in StartedPaths(db.logs) ==> IsDone(db.logs, leaf.path) || FindWaiting(db.logs, leaf.path) >= 0;
      assert leaf.path in DonePaths(db.logs) ==> IsDone(db.logs, leaf.path);
      if Appended(db, leaf, next, o) {
        AppendPaths(db.logs, next.logs[|db.logs|]);
      } else {
        var w := FindWaiting(db.logs, leaf.path);
        FlipPaths(db.logs, w, next.logs[w]);
      }
    }
  }

  /** A step that is not idle leaves less to do, or fails the run; no step leaves more. */
  lemma OpShrinks(wf: Workflow, db: Db, leaf: Leaf, t: Tick)
    requires IsLeafOf(wf, leaf) && DbOk(wf, db) && db.run.status.Running?
    ensures var (next, o) := LeafOp(IndexOf(wf), db, leaf, t);
            && Remaining(wf, next) <= Remaining(wf, db)
            && (Idle(db, next, o) || (o.Errored? && next.run.status.Failed?) || Remaining(wf, next) < Remaining(wf, db))
  {
    var (next, o) := LeafOp(IndexOf(wf), db, leaf, t);
    OpPriced(wf, db, leaf, t);
    PricedIsSpent(db, leaf, next, o);
    OpKeeps(wf, db, leaf, t);
    SpentShrinks(wf, db, leaf, next, o);
  }

  lemma SpentShrinks(wf: Workflow, db: Db, leaf: Leaf, next: Db, o: Outcome)
    requires Spent(db, leaf, next, o) && db.run.retryCount <= MAX_RETRIES && next.run.retryCount <= MAX_RETRIES
    ensures Remaining(wf, next) <= Remaining(wf, db)
    ensures Idle(db, next, o) || (o.Errored? && next.run.status.Failed?) || Remaining(wf, next) < Remaining(wf, db)
  {
    var started, done := StartedPaths(db.logs), DonePaths(db.logs);
    SizeWithOneMore(started, leaf.path);
    SizeWithOneMore(done, leaf.path);
  }

  /** An attempt that ran to its own end: no crash, and not just a wait put back to sleep. */
  predicate Effective(wf: Workflow, db: Db, env: Env) {
    && (db.run.status.Pending? || db.run.status.Running?) && env.locks
    && (!env.loads || wf.steps == [] ==> env.finishLands)
    && (env.loads && wf.steps != [] ==>
          var (next, o) := RunLeaves(IndexOf(wf), Claimed(db), RootPlan(wf.steps, StartedPaths(db.logs), ForksOf(wf, env)), env);
          && !o.Crashed?
          && (o.Proceed? ==> env.finishLands)
          && !(o.Parked? && next.logs == db.logs))
  }

  lemma {:induction false} WalkShrinks(wf: Workflow, db: Db, leaves: seq<Leaf>, env: Env)
    requires DbOk(wf, db) && db.run.status.Running?
    requires forall l | l in leaves :: IsLeafOf(wf, l)
    ensures var (next, o) := RunLeaves(IndexOf(wf), db, leaves, env);
            && Remaining(wf, next) <= Remaining(wf, db)
            && (Remaining(wf, next) < Remaining(wf, db)
                || o.Crashed? || o.Proceed?
                || (o.Parked? && next.logs == db.logs)
                || (o.Errored? && next.run.status.Failed?))
    decreases |leaves|
  {
    if leaves != [] {
      var t := env.tick(leaves[0].path);
      var (mid, o) := LeafOp(IndexOf(wf), db, leaves[0], t);
      OpKeeps(wf, db, leaves[0], t);
      OpShrinks(wf, db, leaves[0], t);
      if o.Proceed? {
        WalkShrinks(wf, mid, leaves[1..], env);
      }
    }
  }

  /** An effective attempt ends the run or leaves strictly less to do. */
  lemma AttemptShrinks(wf: Workflow, db: Db, env: Env)
    requires DbOk(wf, db)
    ensures var next := Attempt(wf, db, env);
            && Remaining(wf, next) <= Remaining(wf, db)
            && (Effective(wf, db, env) ==>
                  next.run.status.Completed? || next.run.status.Failed? || Remaining(wf, next) < Remaining(wf, db))
  {
    if (db.run.status.Pending? || db.run.status.Running?) && env.locks && env.loads && wf.steps != [] {
      var started := StartedPaths(db.logs);
      PlanWithin(wf.steps, 0, [], Root, started, ForksOf(wf, env));
      WalkShrinks(wf, Claimed(db), RootPlan(wf.steps, started, ForksOf(wf, env)), env);
    }
  }

  function EffectiveAttempts(wf: Workflow, events: seq<Event>): nat {
    if events == [] then 0
    else
      var rest, e := events[..|events| - 1], events[|events| - 1];
      EffectiveAttempts(wf, rest) + (if e.AttemptRun? && Effective(wf, After(wf, rest).db, e.env) then 1 else 0)
  }

  predicate Over(db: Db) { db.run.status.Completed? || db.run.status.Failed? }

  /** Effective attempts use up the measure; once the run is over there are no more of them. */
  lemma {:induction false} AttemptsAccounted(wf: Workflow, events: seq<Event>)
    requires NoManualRetry(events)
    ensures var db := After(wf, events).db;
            EffectiveAttempts(wf, events) + Remaining(wf, db) <= Remaining(wf, NewRun()) + (if Over(db) then 1 else 0)
    decreases |events|
  {
    if events != [] {
      var rest, e := events[..|events| - 1], events[|events| - 1];
      var w := After(wf, rest);
      AttemptsAccounted(wf, rest);
      AlwaysOk(wf, rest);
      match e
      case AttemptRun(env) =>
        AttemptShrinks(wf, w.db, env);
      case SatisfyRun(path, _) =>
        EventKeeps(wf, w, e);
        StampKeepsDone(w.db.logs, path);
      case _ =>
    }
  }

  lemma StampKeepsDone(logs: seq<ActionLog>, path: Path)
    ensures DonePaths(StampRows(logs, path)) == DonePaths(logs)
  {
    var stamped := StampRows(logs, path);
    forall p | p in DonePaths(logs) ensures p in DonePaths(stamped) {
      var i :| 0 <= i < |logs| && logs[i].status == LogSuccess && logs[i].path == p;
      assert stamped[i].status == LogSuccess && stamped[i].path == p;
    }
    forall p | p in DonePaths(stamped) ensures p in DonePaths(logs) {
      var i :| 0 <= i < |stamped| && stamped[i].status == LogSuccess && stamped[i].path == p;
      assert logs[i].status == LogSuccess && logs[i].path == p;
    }
  }

  /** Without manual retries a run has at most 8·N + 4 effective attempts, N being the leaves of its tree. */
  lemma EffectiveAttemptsBounded(wf: Workflow, events: seq<Event>)
    requires NoManualRetry(events)
    ensures EffectiveAttempts(wf, events) <= 8 * |Leaves(wf.steps)| + 4
  {
    AttemptsAccounted(wf, events);
    AlwaysOk(wf, events);
    RemainingNonNegative(wf, After(wf, events).db);
    FewLeafPaths(Leaves(wf.steps));
    assert StartedPaths(NewRun().logs) == {} && DonePaths(NewRun().logs) == {};
  }

  lemma {:induction false} FewLeafPaths(leaves: seq<Leaf>)
    ensures |set l | l in leaves :: l.path| <= |leaves|
  {
    if leaves != [] {
      var rest := leaves[1..];
      FewLeafPaths(rest);
      assert (set l | l in leaves :: l.path) == {leaves[0].path} + set l | l in rest :: l.path;
    }
  }

  /** A wait whose deadline has come, or whose event was stamped, is not put back to sleep. */
  lemma DueWaitIsNotReparked(wf: Workflow, db: Db, leaf: Leaf, t: Tick)
    requires leaf.step.Delay? && FindWaiting(db.logs, leaf.path) >= 0 && t.writes > 0
    requires var row := db.logs[FindWaiting(db.logs, leaf.path)];
             t.now >= WakeAtFromLog(row.output) || (leaf.step.IsWaitEvent() && EventSatisfiedFromLog(row.output))
    ensures !LeafOp(IndexOf(wf), db, leaf, t).1.Parked?
    ensures IsDone(LeafOp(IndexOf(wf), db, leaf, t).0.logs, leaf.path)
  {
    var w := FindWaiting(db.logs, leaf.path);
    if !IsDone(db.logs, leaf.path) {
      var next := LeafOp(IndexOf(wf), db, leaf, t).0;
      assert next.logs[w].status == LogSuccess && next.logs[w].path == leaf.path;
    }
  }
}
