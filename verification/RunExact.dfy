/**
 Exactly when a completed run makes at most four executor calls per action of its route, plus one per crash, although
 its conditions are evaluated afresh at every attempt over data that may have changed.
 */
module RunExact {
  import opened Common
  import opened Conditions
  import opened StepTree
  import opened RunStore
  import opened RunLogs
  import opened RunRoutes
  import opened RunResume
  import opened RunVerdicts
  import opened RunRetry
  import opened RunRounds
  import opened RunTiming

  /* ---- When a retry is wasted ---- */

  /** A delay that may park: an event wait with a timeout, a wait until a date, or a positive duration. */
  predicate MayPark(step: Step) {
    && step.Delay? && step.delay.Some?
    && var d := step.delay.value;
       if d.IsWaitEvent() then d.timeoutSec > 0 else d.IsWaitUntil() || d.durationSec > 0
  }

  predicate AlwaysPasses(step: Step) { step.Delay? && !MayPark(step) }

  /** The next leaf from k on that is not a delay without any wait. */
  function NextBusy(leaves: seq<Leaf>, k: nat): (b: nat)
    requires k <= |leaves|
    ensures k <= b <= |leaves|
    ensures forall i :: k <= i < b ==> AlwaysPasses(leaves[i].step)
    ensures b < |leaves| ==> !AlwaysPasses(leaves[b].step)
    decreases |leaves| - k
  {
    if k == |leaves| || !AlwaysPasses(leaves[k].step) then k else NextBusy(leaves, k + 1)
  }

  predicate ActionNext(leaves: seq<Leaf>, k: nat)
    requires k <= |leaves|
  {
    NextBusy(leaves, k) < |leaves| && leaves[NextBusy(leaves, k)].step.Action?
  }

  /** Two routes the conditions can give agree on k leaves; then one has an action next, the other a wait or its end. */
  ghost predicate Wastes(wf: Workflow, compare: Comparison, c: Verdicts, d: Verdicts, k: nat) {
    var a, b := Route(wf, c), Route(wf, d);
    && Evaluates(c, compare) && Evaluates(d, compare)
    && k < |a| && k <= |b| && PathsOf(a)[..k] == PathsOf(b)[..k]
    && a[k].step.Action? && !ActionNext(b, k)
  }

  ghost predicate Wasteful(wf: Workflow, compare: Comparison) { exists c, d, k :: Wastes(wf, compare, c, d, k) }

  /* ---- No waste: the bound holds ---- */

  /** No more than three retries per committed action and the outstanding ones; these will still meet an action. */
  ghost predicate Frugal(wf: Workflow, compare: Comparison, db: Db) {
    var n, committed := TallyOf(db.logs), Committed(db.logs);
    && n.retries <= MAX_RETRIES * n.actions + db.run.retryCount
    && (db.run.retryCount > 0 ==> ParkedPaths(db.logs) == [] && StillActionNext(wf, compare, committed))
  }

  ghost predicate StillActionNext(wf: Workflow, compare: Comparison, committed: seq<Path>) {
    forall d | Evaluates(d, compare) && committed <= PathsOf(Route(wf, d)) :: ActionNext(Route(wf, d), |committed|)
  }

  /** After an action came next on one route, it does on all that agree so far. */
  lemma ActionOnAll(wf: Workflow, compare: Comparison, c: Verdicts, k: nat)
    requires Evaluates(c, compare) && !Wasteful(wf, compare)
    requires k < |Route(wf, c)| && Route(wf, c)[k].step.Action?
    ensures StillActionNext(wf, compare, PathsOf(Route(wf, c))[..k])
  {
    var committed := PathsOf(Route(wf, c))[..k];
    forall d | Evaluates(d, compare) && committed <= PathsOf(Route(wf, d)) ensures ActionNext(Route(wf, d), k) {
      assert PathsOf(Route(wf, d))[..k] == committed;
      assert !Wastes(wf, compare, c, d, k);
    }
  }

  /** Passing a delay without any wait keeps an action next. */
  lemma ActionAfterPass(wf: Workflow, compare: Comparison, c: Verdicts, k: nat)
    requires Evaluates(c, compare) && k < |Route(wf, c)| && Route(wf, c)[k].step.Delay?
    requires StillActionNext(wf, compare, PathsOf(Route(wf, c))[..k])
    ensures AlwaysPasses(Route(wf, c)[k].step)
    ensures StillActionNext(wf, compare, PathsOf(Route(wf, c))[..k + 1])
  {
    var route := Route(wf, c);
    var committed, more := PathsOf(route)[..k], PathsOf(route)[..k + 1];
    assert committed <= PathsOf(route) && |committed| == k;
    assert ActionNext(route, k);
    PlanWithin(wf.steps, 0, [], Root, {}, Forks(c, wf.roll));
    forall d | Evaluates(d, compare) && more <= PathsOf(Route(wf, d)) ensures ActionNext(Route(wf, d), k + 1) {
      var other := Route(wf, d);
      assert PathsOf(other)[..k + 1][..k] == more[..k] == committed;
      assert committed <= PathsOf(other);
      PlanWithin(wf.steps, 0, [], Root, {}, Forks(d, wf.roll));
      assert more[k] == PathsOf(other)[k];
      SamePathSameLeaf(wf, other[k], route[k]);
    }
  }

  /** What a new row says about the retry counter: only finished actions clear it, and only delays that may park do park. */
  predicate Tempo(db: Db, leaf: Leaf, next: Db) {
    |next.logs| == |db.logs| + 1 ==>
      var row := next.logs[|db.logs|];
      && (row.status.LogSuccess? ==> next.run.retryCount == if leaf.step.Delay? then db.run.retryCount else 0)
      && (row.status.LogWaiting? ==> MayPark(leaf.step))
  }

  lemma OpTempo(index: map<Path, StepId>, db: Db, leaf: Leaf, t: Tick)
    requires !leaf.step.Delay? ==> FindWaiting(db.logs, leaf.path) < 0
    ensures Tempo(db, leaf, LeafOp(index, db, leaf, t).0)
  {
    OpShape(index, db, leaf, t);
    if leaf.step.Delay? && !IsDone(db.logs, leaf.path) && FindWaiting(db.logs, leaf.path) < 0 {
      OpParksAsConfigured(index, db, leaf, t);
    }
  }

  lemma AppendFrugal(wf: Workflow, compare: Comparison, c: Verdicts, k: nat, db: Db, next: Db, o: Outcome)
    requires !Wasteful(wf, compare) && Evaluates(c, compare) && k < |Route(wf, c)|
    requires !Route(wf, c)[k].step.IsFork() && Aligned(Route(wf, c), k, db.logs) && Frugal(wf, compare, db)
    requires db.run.retryCount <= MAX_RETRIES
    requires Priced(db, Route(wf, c)[k], next, o) && Appended(db, Route(wf, c)[k], next, o) && Tempo(db, Route(wf, c)[k], next)
    ensures Frugal(wf, compare, next)
  {
    var route, row := Route(wf, c), next.logs[|db.logs|];
    TallyAppend(db.logs, row);
    PathsWithAppend(db.logs, row, LogSuccess);
    PathsWithAppend(db.logs, row, LogWaiting);
    StartedIs(db.logs);
    assert ParkedPaths(db.logs) == [];
    assert PathsOf(route)[..k + 1] == PathsOf(route)[..k] + [row.path];
    if row.status.LogRetrying? {
      ActionOnAll(wf, compare, c, k);
    } else if db.run.retryCount > 0 && route[k].step.Delay? {
      ActionAfterPass(wf, compare, c, k);
    }
  }

  lemma FlipFrugal(wf: Workflow, compare: Comparison, c: Verdicts, k: nat, db: Db, next: Db, o: Outcome)
    requires k < |Route(wf, c)| && Aligned(Route(wf, c), k, db.logs) && Frugal(wf, compare, db)
    requires LogsOk(wf, db.logs) && Flipped(db, Route(wf, c)[k], next, o) && next.run.retryCount == 0
    ensures Frugal(wf, compare, next)
  {
    var w := FindWaiting(db.logs, Route(wf, c)[k].path);
    StartedIs(db.logs);
    assert RowOk(wf, db.logs[w]);
    TallyFlip(db.logs, w, next.logs[w]);
  }

  lemma {:induction false} WalkFrugal(wf: Workflow, compare: Comparison, c: Verdicts, k: nat, db: Db, env: Env)
    requires !Wasteful(wf, compare) && Evaluates(c, compare)
    requires DbOk(wf, db) && db.run.status.Running? && Aligned(Route(wf, c), k, db.logs) && Frugal(wf, compare, db)
    ensures Frugal(wf, compare, RunLeaves(IndexOf(wf), db, Route(wf, c)[k..], env).0)
    decreases |Route(wf, c)| - k
  {
    var route := Route(wf, c);
    if k < |route| {
      var t := env.tick(route[k].path);
      var (next, o) := LeafOp(IndexOf(wf), db, route[k], t);
      assert route[k..][0] == route[k] && route[k..][1..] == route[k + 1..];
      PlanWithin(wf.steps, 0, [], Root, {}, Forks(c, wf.roll));
      AllAreLeaves(wf.steps, 0, [], Root);
      if !route[k].step.Delay? { NoWaitingAction(wf, db.logs, route[k]); }
      OpPriced(wf, db, route[k], t);
      OpTempo(IndexOf(wf), db, route[k], t);
      OneLeafAligned(wf, db, route, k, t);
      if Appended(db, route[k], next, o) {
        AppendFrugal(wf, compare, c, k, db, next, o);
      } else if next.logs != db.logs {
        FlipFrugal(wf, compare, c, k, db, next, o);
      }
      if o.Proceed? {
        if !Aligned(route, k + 1, next.logs) { assert false; }
        WalkFrugal(wf, compare, c, k + 1, next, env);
      }
    }
  }

  lemma AttemptFrugal(wf: Workflow, compare: Comparison, events: seq<Event>, env: Env)
    requires ForksLast(wf.steps, 0) && !Wasteful(wf, compare) && Evaluated(events, compare) && Evaluates(env.condition, compare)
    requires Frugal(wf, compare, After(wf, events).db)
    ensures Frugal(wf, compare, Attempt(wf, After(wf, events).db, env))
  {
    var db := After(wf, events).db;
    AlwaysOk(wf, events);
    var c, k := AlwaysOnItsRoute(wf, compare, events);
    var mixed := NextRoute(wf, db.logs, k, c, env.condition);
    if (db.run.status.Pending? || db.run.status.Running?) && env.locks && env.loads && wf.steps != [] {
      assert Route(wf, mixed)[0..] == Route(wf, mixed);
      SkipsCommitted(IndexOf(wf), Claimed(db), Route(wf, mixed), 0, k, env);
      WalkFrugal(wf, compare, mixed, k, Claimed(db), env);
    }
  }

  lemma {:induction false} AlwaysFrugal(wf: Workflow, compare: Comparison, events: seq<Event>)
    requires ForksLast(wf.steps, 0) && !Wasteful(wf, compare) && NoManualRetry(events) && Evaluated(events, compare)
    ensures Frugal(wf, compare, After(wf, events).db)
    decreases |events|
  {
    if events != [] {
      var rest, e := events[..|events| - 1], events[|events| - 1];
      var w := After(wf, rest);
      AlwaysFrugal(wf, compare, rest);
      match e
      case AttemptRun(env) =>
        AttemptFrugal(wf, compare, rest, env);
      case SatisfyRun(path, _) =>
        TallySame(w.db.logs, StampRows(w.db.logs, path));
        StampKeepsPaths(w.db.logs, path, LogSuccess);
        StampKeepsPaths(w.db.logs, path, LogWaiting);
      case _ =>
    } else {
      assert TallyOf([]).retries == 0;
    }
  }

  /** At most four calls per action the completed run committed, plus one per crash. */
  predicate WithinFour(wf: Workflow, events: seq<Event>) {
    var logs := After(wf, events).db.logs;
    |ActionRows(logs)| <= 4 * TallyOf(logs).actions + Crashes(wf, events)
  }

  lemma ThriftyStaysWithinFour(wf: Workflow, compare: Comparison, events: seq<Event>)
    requires ForksLast(wf.steps, 0) && !Wasteful(wf, compare) && NoManualRetry(events) && Evaluated(events, compare)
    requires After(wf, events).db.run.status.Completed?
    ensures WithinFour(wf, events)
  {
    var db := After(wf, events).db;
    AlwaysOk(wf, events);
    AlwaysWithinBudget(wf, events);
    NoneGranted(events);
    CallsAreActionRows(wf, db.logs);
    AlwaysFrugal(wf, compare, events);
    var c, k := AlwaysOnItsRoute(wf, compare, events);
    assert Committed(db.logs) == PathsOf(Route(wf, c));
  }

  /* ---- Waste: a schedule that breaks the bound ---- */

  /** At this attempt only the executor of `winner` succeeds, every other fails for now, and whatever can park does. */
  function Stubborn(condition: Verdicts, winner: Option<Path>, now: Time): Env {
    Env(condition,
        (p: Path) => Tick(3, if winner == Some(p) then Succeeded(NoOutput) else RetryableError, now, Some(now + 1), true),
        true, true, true)
  }

  /** With the counter full the next busy leaf is let through if it is an action; otherwise nothing ahead is. */
  predicate Armed(route: seq<Leaf>, j: nat, count: nat, winner: Option<Path>)
    requires j <= |route|
  {
    if count == MAX_RETRIES then NextBusy(route, j) < |route| ==> winner == Some(route[NextBusy(route, j)].path)
    else forall i :: j <= i < |route| ==> winner != Some(route[i].path)
  }

  /**
   Retries spent in full. Climbing, each committed action has cost three, and outstanding retries belong to the action
   next. Ahead, one retry more has been spent, or is outstanding with no action left to meet it.
   */
  predicate Spending(route: seq<Leaf>, j: nat, db: Db, ahead: bool)
    requires j <= |route|
  {
    var n, count := TallyOf(db.logs), db.run.retryCount;
    && n.retries >= MAX_RETRIES * n.actions + count
    && if ahead then
         n.retries >= MAX_RETRIES * n.actions + count + 1 || (count > 0 && !ActionNext(route, j))
       else
         count > 0 ==> j < |route| && route[j].step.Action? && ParkedPaths(db.logs) == []
  }

  /** Waiting rows of the route belong to delays that may park, and are due. */
  predicate ParkedDue(route: seq<Leaf>, logs: seq<ActionLog>, now: Time) {
    forall i, l | 0 <= i < |logs| && logs[i].status.LogWaiting? && l in route && l.path == logs[i].path ::
      MayPark(l.step) && WakeAtFromLog(logs[i].output) <= now
  }

  /** What a leaf does under a stubborn environment. */
  lemma StubbornAction(index: map<Path, StepId>, db: Db, leaf: Leaf, t: Tick)
    requires leaf.step.Action? && !IsDone(db.logs, leaf.path) && t.writes == 3
    requires t.exec == Succeeded(NoOutput) || (t.exec == RetryableError && db.run.retryCount < MAX_RETRIES)
    ensures var (next, o) := LeafOp(index, db, leaf, t);
            && |next.logs| == |db.logs| + 1 && next.logs == db.logs + [next.logs[|db.logs|]]
            && var row := next.logs[|db.logs|];
            && row.path == leaf.path && row.kind.ActionRow?
            && if t.exec.Succeeded? then o.Proceed? && row.status.LogSuccess? && next.run == db.run.(retryCount := 0, nextRetryAt := None, completedActions := next.run.completedActions)
               else o.Errored? && row.status.LogRetrying? && next.run.status.Pending? && next.run.retryCount == db.run.retryCount + 1
  {
  }

  lemma StubbornDelay(index: map<Path, StepId>, db: Db, leaf: Leaf, t: Tick)
    requires leaf.step.Delay? && !IsDone(db.logs, leaf.path) && t.writes == 3 && t.until == Some(t.now + 1)
    requires var w := FindWaiting(db.logs, leaf.path); w >= 0 ==> WakeAtFromLog(db.logs[w].output) <= t.now
    ensures var (next, o) := LeafOp(index, db, leaf, t);
            if FindWaiting(db.logs, leaf.path) >= 0 then
              o.Proceed? && |next.logs| == |db.logs| && next.run.retryCount == 0
            else
              && |next.logs| == |db.logs| + 1 && next.logs == db.logs + [next.logs[|db.logs|]]
              && next.run.retryCount == db.run.retryCount
              && var row := next.logs[|db.logs|];
              && row.path == leaf.path && row.kind.DelayRow?
              && (if MayPark(leaf.step) then o.Parked? && row.status.LogWaiting? && next.run.status.Waiting?
                  else o.Proceed? && row.status.LogSuccess?)
  {
  }

  lemma SpendAction(wf: Workflow, route: seq<Leaf>, j: nat, db: Db, env: Env, winner: Option<Path>, now: Time, ahead: bool) returns (j': nat)
    requires j < |route| && route[j].step.Action? && IsLeafOf(wf, route[j]) && env.tick == Stubborn(env.condition, winner, now).tick
    requires LogsOk(wf, db.logs) && db.run.retryCount <= MAX_RETRIES && db.run.status.Running?
    requires Aligned(route, j, db.logs) && Spending(route, j, db, ahead) && Armed(route, j, db.run.retryCount, winner)
    ensures var (next, o) := LeafOp(IndexOf(wf), db, route[j], env.tick(route[j].path));
            && j' == (if o.Proceed? then j + 1 else j) && Aligned(route, j', next.logs) && Spending(route, j', next, ahead)
            && !next.run.status.Failed? && !o.Crashed?
            && (o.Proceed? ==> winner == Some(route[j].path) && Armed(route, j', next.run.retryCount, winner))
  {
    var leaf, t := route[j], env.tick(route[j].path);
    NotYetDone(db.logs, route, j);
    NoWaitingAction(wf, db.logs, leaf);
    StartedIs(db.logs);
    assert ParkedPaths(db.logs) == [];
    StubbornAction(IndexOf(wf), db, leaf, t);
    var (next, o) := LeafOp(IndexOf(wf), db, leaf, t);
    var row := next.logs[|db.logs|];
    RowAligned(route, j, db.logs, row);
    TallyAppend(db.logs, row);
    PathsWithAppend(db.logs, row, LogWaiting);
    j' := if o.Proceed? then j + 1 else j;
  }

  lemma SpendDelay(wf: Workflow, route: seq<Leaf>, j: nat, db: Db, env: Env, winner: Option<Path>, now: Time, ahead: bool) returns (j': nat)
    requires j < |route| && route[j].step.Delay? && IsLeafOf(wf, route[j]) && env.tick == Stubborn(env.condition, winner, now).tick
    requires LogsOk(wf, db.logs) && db.run.status.Running? && ParkedDue(route, db.logs, now)
    requires Aligned(route, j, db.logs) && Spending(route, j, db, ahead) && Armed(route, j, db.run.retryCount, winner)
    ensures var (next, o) := LeafOp(IndexOf(wf), db, route[j], env.tick(route[j].path));
            && j' == (if o.Proceed? then j + 1 else j) && Aligned(route, j', next.logs) && Spending(route, j', next, ahead)
            && !next.run.status.Failed? && !o.Crashed?
            && (o.Proceed? ==> Armed(route, j', next.run.retryCount, winner))
  {
    var leaf, t := route[j], env.tick(route[j].path);
    NotYetDone(db.logs, route, j);
    StubbornDelay(IndexOf(wf), db, leaf, t);
    OpShape(IndexOf(wf), db, leaf, t);
    var (next, o) := LeafOp(IndexOf(wf), db, leaf, t);
    if FindWaiting(db.logs, leaf.path) >= 0 {
      FinishSpends(wf, route, j, db, next, o, winner, now, ahead);
    } else {
      EnterSpends(route, j, db, next, next.logs[|db.logs|], winner, ahead);
    }
    j' := if o.Proceed? then j + 1 else j;
  }

  /** Finishing a wait clears the counter: whatever was outstanding is wasted. */
  lemma FinishSpends(wf: Workflow, route: seq<Leaf>, j: nat, db: Db, next: Db, o: Outcome, winner: Option<Path>, now: Time, ahead: bool)
    requires j < |route| && LogsOk(wf, db.logs) && ParkedDue(route, db.logs, now) && Flipped(db, route[j], next, o)
    requires next.run.retryCount == 0
    requires Aligned(route, j, db.logs) && Spending(route, j, db, ahead) && Armed(route, j, db.run.retryCount, winner)
    ensures Aligned(route, j + 1, next.logs) && Spending(route, j + 1, next, ahead) && Armed(route, j + 1, 0, winner)
  {
    var w := FindWaiting(db.logs, route[j].path);
    assert RowOk(wf, db.logs[w]);
    assert MayPark(route[j].step) && NextBusy(route, j) == j;
    FlipAligned(db, route, j, next, o);
    TallyFlip(db.logs, w, next.logs[w]);
  }

  /** A delay met for the first time parks or passes, and leaves the counter alone. */
  lemma EnterSpends(route: seq<Leaf>, j: nat, db: Db, next: Db, row: ActionLog, winner: Option<Path>, ahead: bool)
    requires j < |route| && FindWaiting(db.logs, route[j].path) < 0
    requires next.logs == db.logs + [row] && next.run.retryCount == db.run.retryCount
    requires row.path == route[j].path && row.kind.DelayRow? && route[j].step.Delay?
    requires if MayPark(route[j].step) then row.status.LogWaiting? else row.status.LogSuccess?
    requires Aligned(route, j, db.logs) && Spending(route, j, db, ahead) && Armed(route, j, db.run.retryCount, winner)
    ensures var j' := if MayPark(route[j].step) then j else j + 1;
            Aligned(route, j', next.logs) && Spending(route, j', next, ahead) && Armed(route, j', next.run.retryCount, winner)
  {
    StartedIs(db.logs);
    assert ParkedPaths(db.logs) == [];
    RowAligned(route, j, db.logs, row);
    TallyAppend(db.logs, row);
  }

  /** No attempt parks more than the step it stops at. */
  lemma ProceedParksNothing(wf: Workflow, route: seq<Leaf>, db: Db, leaf: Leaf, t: Tick, now: Time)
    requires IsLeafOf(wf, leaf) && LogsOk(wf, db.logs) && ParkedDue(route, db.logs, now)
    requires LeafOp(IndexOf(wf), db, leaf, t).1.Proceed?
    ensures ParkedDue(route, LeafOp(IndexOf(wf), db, leaf, t).0.logs, now)
  {
    if !leaf.step.Delay? { NoWaitingAction(wf, db.logs, leaf); }
    OpShape(IndexOf(wf), db, leaf, t);
  }

  lemma SpendLeaf(wf: Workflow, route: seq<Leaf>, j: nat, db: Db, env: Env, winner: Option<Path>, now: Time, ahead: bool) returns (j': nat)
    requires j < |route| && IsLeafOf(wf, route[j]) && env.tick == Stubborn(env.condition, winner, now).tick
    requires LogsOk(wf, db.logs) && db.run.retryCount <= MAX_RETRIES && db.run.status.Running? && ParkedDue(route, db.logs, now)
    requires Aligned(route, j, db.logs) && Spending(route, j, db, ahead) && Armed(route, j, db.run.retryCount, winner)
    ensures var (next, o) := LeafOp(IndexOf(wf), db, route[j], env.tick(route[j].path));
            && j' == (if o.Proceed? then j + 1 else j) && Aligned(route, j', next.logs) && Spending(route, j', next, ahead)
            && !next.run.status.Failed? && !o.Crashed?
            && (o.Proceed? ==> Armed(route, j', next.run.retryCount, winner)
                               && (route[j].step.Action? ==> winner == Some(route[j].path)))
  {
    var leaf := route[j];
    AllAreLeaves(wf.steps, 0, [], Root);
    assert !leaf.step.IsFork();
    if leaf.step.Delay? {
      j' := SpendDelay(wf, route, j, db, env, winner, now, ahead);
    } else {
      j' := SpendAction(wf, route, j, db, env, winner, now, ahead);
    }
  }

  /** A stubborn walk keeps spending, never fails the run, and stops short of every action it does not let through. */
  lemma {:induction false} WalkSpends(wf: Workflow, route: seq<Leaf>, j: nat, db: Db, env: Env, winner: Option<Path>, now: Time,
                                      ahead: bool, stop: nat) returns (j': nat)
    requires DbOk(wf, db) && db.run.status.Running? && env.tick == Stubborn(env.condition, winner, now).tick
    requires Aligned(route, j, db.logs) && Spending(route, j, db, ahead) && Armed(route, j, db.run.retryCount, winner)
    requires ParkedDue(route, db.logs, now) && forall l | l in route :: IsLeafOf(wf, l)
    requires stop < |route| ==> j <= stop && route[stop].step.Action? && winner != Some(route[stop].path)
    ensures var (next, o) := RunLeaves(IndexOf(wf), db, route[j..], env);
            && j <= j' && Aligned(route, j', next.logs) && Spending(route, j', next, ahead)
            && !next.run.status.Failed? && (o.Proceed? ==> j' == |route|)
            && (stop < |route| ==> j' <= stop)
    decreases |route| - j
  {
    j' := j;
    if j < |route| {
      var t := env.tick(route[j].path);
      var (next, o) := LeafOp(IndexOf(wf), db, route[j], t);
      assert route[j..][0] == route[j] && route[j..][1..] == route[j + 1..];
      j' := SpendLeaf(wf, route, j, db, env, winner, now, ahead);
      if o.Proceed? {
        OpKeeps(wf, db, route[j], t);
        ProceedParksNothing(wf, route, db, route[j], t, now);
        j' := WalkSpends(wf, route, j + 1, next, env, winner, now, ahead, stop);
      }
    }
  }

  /** Only delays that may park are ever parked on. */
  lemma {:induction false} AlwaysParkedMayPark(wf: Workflow, events: seq<Event>, i: nat, leaf: Leaf)
    requires i < |After(wf, events).db.logs| && After(wf, events).db.logs[i].status.LogWaiting?
    requires IsLeafOf(wf, leaf) && leaf.path == After(wf, events).db.logs[i].path
    ensures MayPark(leaf.step)
    decreases |events|
  {
    if events != [] {
      var rest, e := events[..|events| - 1], events[|events| - 1];
      var before, after := After(wf, rest).db.logs, After(wf, events).db.logs;
      AlwaysOk(wf, rest);
      EventKeeps(wf, After(wf, rest), e);
      if i < |before| {
        assert RowEvolves(before[i], after[i]);
        AlwaysParkedMayPark(wf, rest, i, leaf);
      } else {
        assert e.AttemptRun?;
        AttemptParksAsConfigured(wf, After(wf, rest).db, e.env, i);
        var l :| l in Leaves(wf.steps) && l.path == after[i].path
          && LastsAsConfigured(l.step, e.env.tick(l.path), WakeAtFromLog(after[i].output));
        SamePathSameLeaf(wf, l, leaf);
      }
    }
  }

  /** Nothing but attempts whose conditions evaluate and whose walk does not crash, sweeps and recoveries. */
  ghost predicate Calm(wf: Workflow, compare: Comparison, events: seq<Event>) {
    NoManualRetry(events) && Evaluated(events, compare) && Crashes(wf, events) == 0
  }

  lemma RoundIsCalm(wf: Workflow, compare: Comparison, before: seq<Event>, r: Round)
    requires Calm(wf, compare, before) && r.meanwhile == [] && Evaluates(r.env.condition, compare)
    requires !WalkCrashes(wf, Awake(After(wf, before).db, r.now), r.env)
    ensures Calm(wf, compare, before + RoundEvents(r))
  {
    var one, two := before + [RecoverRun], before + [RecoverRun] + [SweepWake(r.now)];
    assert RoundEvents(r) == [RecoverRun] + [SweepWake(r.now)] + [AttemptRun(r.env)];
    assert before + RoundEvents(r) == two + [AttemptRun(r.env)];
    OneMoreIsCalm(wf, compare, before, RecoverRun);
    OneMoreIsCalm(wf, compare, one, SweepWake(r.now));
    OneMoreIsCalm(wf, compare, two, AttemptRun(r.env));
  }

  lemma OneMoreIsCalm(wf: Workflow, compare: Comparison, before: seq<Event>, e: Event)
    requires Calm(wf, compare, before) && !e.ManualRetry?
    requires e.AttemptRun? ==> Evaluates(e.env.condition, compare) && !WalkCrashes(wf, After(wf, before).db, e.env)
    ensures Calm(wf, compare, before + [e]) && After(wf, before + [e]) == Step1(wf, After(wf, before), e)
  {
    assert (before + [e])[..|before|] == before;
  }

  /** One stubborn attempt along a route, once whatever is parked is due. */
  function StubbornRound(wf: Workflow, db: Db, condition: Verdicts, j: nat): Round
    requires j <= |Route(wf, condition)|
  {
    var route := Route(wf, condition);
    var b := NextBusy(route, j);
    var winner := if db.run.retryCount == MAX_RETRIES && b < |route| then Some(route[b].path) else None;
    var now := LatestDeadline(db.logs);
    Round([], now, Stubborn(condition, winner, now))
  }

  lemma RoundSpends(wf: Workflow, compare: Comparison, before: seq<Event>, c: Verdicts, j: nat, ahead: bool, stop: nat) returns (after: seq<Event>, j': nat)
    requires Calm(wf, compare, before) && Evaluates(c, compare) && wf.steps != []
    requires var db := After(wf, before).db;
             !Over(db) && Aligned(Route(wf, c), j, db.logs) && Spending(Route(wf, c), j, db, ahead)
    requires stop < |Route(wf, c)| ==>
               && j <= stop && Route(wf, c)[stop].step.Action?
               && (After(wf, before).db.run.retryCount == MAX_RETRIES ==> NextBusy(Route(wf, c), j) != stop)
    ensures Calm(wf, compare, after)
    ensures var route, db, next := Route(wf, c), After(wf, before).db, After(wf, after).db;
            && j <= j' && Aligned(route, j', next.logs) && Spending(route, j', next, ahead)
            && !next.run.status.Failed? && (next.run.status.Completed? ==> j' == |route|)
            && (stop < |route| ==> j' <= stop)
            && (Over(next) || Remaining(wf, next) < Remaining(wf, db))
  {
    var db := After(wf, before).db;
    var r := StubbornRound(wf, db, c, j);
    var awake := Awake(db, r.now);
    AlwaysOk(wf, before);
    assert before + r.meanwhile == before;
    assert GoodRound(wf, before, r);
    RoundShrinks(wf, before, r);
    AfterRound(wf, before, r);
    AwakeIsReady(wf, db, r.now);
    ReadyIsEffective(wf, awake, r.env);
    RoundIsCalm(wf, compare, before, r);
    after := before + RoundEvents(r);
    j' := StubbornAttempt(wf, before, awake, c, j, r, ahead, stop);
  }

  lemma StubbornAttempt(wf: Workflow, before: seq<Event>, db: Db, c: Verdicts, j: nat, r: Round, ahead: bool, stop: nat) returns (j': nat)
    requires wf.steps != [] && DbOk(wf, db) && db.run.status.Pending? && db.logs == After(wf, before).db.logs
    requires Aligned(Route(wf, c), j, db.logs) && Spending(Route(wf, c), j, db, ahead)
    requires r == StubbornRound(wf, db, c, j)
    requires stop < |Route(wf, c)| ==>
               && j <= stop && Route(wf, c)[stop].step.Action?
               && (db.run.retryCount == MAX_RETRIES ==> NextBusy(Route(wf, c), j) != stop)
    ensures var route, next := Route(wf, c), Attempt(wf, db, r.env);
            && j <= j' && Aligned(route, j', next.logs) && Spending(route, j', next, ahead)
            && !next.run.status.Failed? && (next.run.status.Completed? ==> j' == |route|)
            && (stop < |route| ==> j' <= stop)
  {
    var route, forks := Route(wf, c), Forks(c, wf.roll);
    var b := NextBusy(route, j);
    var winner := if db.run.retryCount == MAX_RETRIES && b < |route| then Some(route[b].path) else None;
    PlanWithin(wf.steps, 0, [], Root, {}, forks);
    StillFreshPlan(wf, db.logs, j, forks);
    assert route[0..] == route;
    SkipsCommitted(IndexOf(wf), Claimed(db), route, 0, j, r.env);
    forall i, l | 0 <= i < |db.logs| && db.logs[i].status.LogWaiting? && l in route && l.path == db.logs[i].path ensures MayPark(l.step) {
      AlwaysParkedMayPark(wf, before, i, l);
    }
    j' := WalkSpends(wf, route, j, Claimed(db), r.env, winner, r.now, ahead, stop);
    NeverCompletesInside(wf, Claimed(db), route, r.env);
  }

  /** Up to the action at k, spending three retries on each action on the way and one at least on this. */
  lemma {:induction false} Climb(wf: Workflow, compare: Comparison, before: seq<Event>, c: Verdicts, j: nat, k: nat) returns (after: seq<Event>)
    requires Calm(wf, compare, before) && Evaluates(c, compare) && wf.steps != []
    requires j <= k < |Route(wf, c)| && Route(wf, c)[k].step.Action?
    requires var db := After(wf, before).db;
             !Over(db) && Aligned(Route(wf, c), j, db.logs) && Spending(Route(wf, c), j, db, false)
    ensures Calm(wf, compare, after)
    ensures var db := After(wf, after).db;
            !Over(db) && Aligned(Route(wf, c), k, db.logs) && Spending(Route(wf, c), k, db, false) && db.run.retryCount > 0
    decreases Remaining(wf, After(wf, before).db)
  {
    after := before;
    var db := After(wf, before).db;
    if j < k || db.run.retryCount == 0 {
      var mid, j' := RoundSpends(wf, compare, before, c, j, false, k);
      AlwaysOk(wf, mid);
      RemainingNonNegative(wf, After(wf, mid).db);
      after := Climb(wf, compare, mid, c, j', k);
    }
  }

  /** On to the end of the route. */
  lemma {:induction false} Coast(wf: Workflow, compare: Comparison, before: seq<Event>, d: Verdicts, j: nat) returns (after: seq<Event>)
    requires Calm(wf, compare, before) && Evaluates(d, compare) && wf.steps != []
    requires var db := After(wf, before).db;
             !db.run.status.Failed? && Aligned(Route(wf, d), j, db.logs) && Spending(Route(wf, d), j, db, true)
    ensures Calm(wf, compare, after)
    ensures var db := After(wf, after).db;
            db.run.status.Completed? && TallyOf(db.logs).retries > MAX_RETRIES * TallyOf(db.logs).actions
    decreases Remaining(wf, After(wf, before).db), !Over(After(wf, before).db)
  {
    after := before;
    if !After(wf, before).db.run.status.Completed? {
      var mid, j' := RoundSpends(wf, compare, before, d, j, true, |Route(wf, d)|);
      if After(wf, mid).db.run.status.Completed? {
        after := mid;
      } else {
        AlwaysOk(wf, mid);
        RemainingNonNegative(wf, After(wf, mid).db);
        after := Coast(wf, compare, mid, d, j');
      }
    }
  }

  /** Wherever retries can be wasted, some schedule without any crash makes more than four calls per action. */
  lemma WasteBreaksFour(wf: Workflow, compare: Comparison, c: Verdicts, d: Verdicts, k: nat) returns (events: seq<Event>)
    requires Wastes(wf, compare, c, d, k)
    ensures NoManualRetry(events) && Evaluated(events, compare) && Crashes(wf, events) == 0
    ensures After(wf, events).db.run.status.Completed? && !WithinFour(wf, events)
  {
    PlanWithin(wf.steps, 0, [], Root, {}, Forks(c, wf.roll));
    PlanWithin(wf.steps, 0, [], Root, {}, Forks(d, wf.roll));
    assert Aligned(Route(wf, c), 0, NewRun().logs);
    assert TallyOf([]) == Tally(0, 0, 0, 0, 0);
    var mid := Climb(wf, compare, [], c, 0, k);
    assert Aligned(Route(wf, d), k, After(wf, mid).db.logs);
    events := Coast(wf, compare, mid, d, k);
    AlwaysOk(wf, events);
    CallsAreActionRows(wf, After(wf, events).db.logs);
  }

  ghost predicate AlwaysWithinFour(wf: Workflow, compare: Comparison) {
    forall events :: NoManualRetry(events) && Evaluated(events, compare) && After(wf, events).db.run.status.Completed?
      ==> WithinFour(wf, events)
  }

  /**
   Forks last. Completed runs always make at most four calls per action of their route, plus one per crash, exactly
   when no two routes their conditions can give agree so far, one with an action next, the other with a wait or its end.
   */
  lemma FourPerActionExactly(wf: Workflow, compare: Comparison)
    requires ForksLast(wf.steps, 0)
    ensures AlwaysWithinFour(wf, compare) <==> !Wasteful(wf, compare)
  {
    if c, d, k :| Wastes(wf, compare, c, d, k) {
      var events := WasteBreaksFour(wf, compare, c, d, k);
      assert !WithinFour(wf, events);
    } else {
      forall events | NoManualRetry(events) && Evaluated(events, compare) && After(wf, events).db.run.status.Completed?
        ensures WithinFour(wf, events)
      {
        ThriftyStaysWithinFour(wf, compare, events);
      }
    }
  }

  /* ---- A check on the tree alone ---- */

  /** Whatever the conditions say, the first busy leaf from index i on is an action. */
  predicate MustAct(steps: seq<Step>, i: nat)
    requires i <= |steps|
    decreases steps, 1, |steps| - i
  {
    i < |steps|
    && if steps[i].IsFork() then MustAct(steps[i].yesSteps, 0) && MustAct(steps[i].noSteps, 0)
       else steps[i].Action? || (AlwaysPasses(steps[i]) && MustAct(steps, i + 1))
  }

  /** Whatever the conditions say, the first busy leaf from index i on, if any, is a wait. */
  predicate NeverActs(steps: seq<Step>, i: nat)
    requires i <= |steps|
    decreases steps, 1, |steps| - i
  {
    i == |steps|
    || if steps[i].IsFork() then NeverActs(steps[i].yesSteps, 0) && NeverActs(steps[i].noSteps, 0)
       else MayPark(steps[i]) || (AlwaysPasses(steps[i]) && NeverActs(steps, i + 1))
  }

  /** The two sides of every condition both go on with an action, or both do not. Splits are free. */
  predicate Even(steps: seq<Step>, i: nat)
    requires i <= |steps|
    decreases steps, 1, |steps| - i
  {
    i == |steps|
    || (Even(steps, i + 1)
        && (steps[i].IsFork() ==> Even(steps[i].yesSteps, 0) && Even(steps[i].noSteps, 0))
        && (steps[i].Condition? ==>
              || (MustAct(steps[i].yesSteps, 0) && MustAct(steps[i].noSteps, 0))
              || (NeverActs(steps[i].yesSteps, 0) && NeverActs(steps[i].noSteps, 0))))
  }

  lemma {:induction false} BusyShift(leaves: seq<Leaf>, k: nat)
    requires 0 < k <= |leaves|
    ensures NextBusy(leaves, k) == NextBusy(leaves[1..], k - 1) + 1
    decreases |leaves| - k
  {
    if k < |leaves| && AlwaysPasses(leaves[k].step) {
      BusyShift(leaves, k + 1);
    }
  }

  lemma {:induction false} PlanActs(steps: seq<Step>, i: nat, parent: Path, branch: Branch, forks: Forks)
    requires i <= |steps| && ForksLast(steps, i)
    ensures var plan := Plan(steps, i, parent, branch, {}, forks);
            (MustAct(steps, i) ==> ActionNext(plan, 0)) && (NeverActs(steps, i) ==> !ActionNext(plan, 0))
    decreases steps, 1, |steps| - i
  {
    if i < |steps| {
      var step, path := steps[i], BuildStepPath(parent, branch, i);
      if step.IsFork() {
        PlanActs(step.yesSteps, 0, path, Yes, forks);
        PlanActs(step.noSteps, 0, path, No, forks);
        assert Plan(steps, i, parent, branch, {}, forks) == StepPlan(step, path, {}, forks);
      } else {
        var rest := Plan(steps, i + 1, parent, branch, {}, forks);
        PlanActs(steps, i + 1, parent, branch, forks);
        LeafActs(Leaf(path, step), rest);
        assert Plan(steps, i, parent, branch, {}, forks) == [Leaf(path, step)] + rest;
      }
    }
  }

  /** A delay without any wait leaves what comes next to the rest; any other leaf is what comes next. */
  lemma LeafActs(first: Leaf, rest: seq<Leaf>)
    ensures ActionNext([first] + rest, 0) == if AlwaysPasses(first.step) then ActionNext(rest, 0) else first.step.Action?
  {
    ActionShift(first, rest, 1);
  }

  /** In an even tree, walks that agree so far agree on whether an action comes next. */
  lemma {:induction false} EvenPlans(steps: seq<Step>, i: nat, parent: Path, branch: Branch, f: Forks, g: Forks, k: nat)
    requires i <= |steps| && ForksLast(steps, i) && Even(steps, i) && f.roll == g.roll
    requires var a, b := Plan(steps, i, parent, branch, {}, f), Plan(steps, i, parent, branch, {}, g);
             k < |a| && k <= |b| && PathsOf(a)[..k] == PathsOf(b)[..k] && a[k].step.Action?
    ensures ActionNext(Plan(steps, i, parent, branch, {}, g), k)
    decreases steps, 1, |steps| - i
  {
    var step, path := steps[i], BuildStepPath(parent, branch, i);
    var a, b := Plan(steps, i, parent, branch, {}, f), Plan(steps, i, parent, branch, {}, g);
    if step.IsFork() {
      assert a == StepPlan(step, path, {}, f) && b == StepPlan(step, path, {}, g);
      EvenFork(step, path, f, g, k);
    } else if k > 0 {
      var x, y := Plan(steps, i + 1, parent, branch, {}, f), Plan(steps, i + 1, parent, branch, {}, g);
      assert a == [Leaf(path, step)] + x && b == [Leaf(path, step)] + y;
      SameTails(Leaf(path, step), x, y, k);
      ActionShift(Leaf(path, step), y, k);
      EvenPlans(steps, i + 1, parent, branch, f, g, k - 1);
    }
  }

  lemma ActionShift(first: Leaf, rest: seq<Leaf>, k: nat)
    requires 0 < k <= |rest| + 1
    ensures ActionNext([first] + rest, k) == ActionNext(rest, k - 1)
  {
    assert ([first] + rest)[1..] == rest;
    BusyShift([first] + rest, k);
  }

  lemma SameTails(first: Leaf, x: seq<Leaf>, y: seq<Leaf>, k: nat)
    requires 0 < k <= |x| + 1 && k <= |y| + 1 && PathsOf([first] + x)[..k] == PathsOf([first] + y)[..k]
    ensures PathsOf(x)[..k - 1] == PathsOf(y)[..k - 1]
  {
    forall i | 0 <= i < k - 1 ensures x[i].path == y[i].path {
      assert PathsOf([first] + x)[..k][i + 1] == PathsOf([first] + y)[..k][i + 1];
    }
  }

  lemma SameHeads(a: seq<Leaf>, b: seq<Leaf>, k: nat)
    requires 0 < k <= |a| && k <= |b| && PathsOf(a)[..k] == PathsOf(b)[..k]
    ensures a[0].path == b[0].path
  {
    assert PathsOf(a)[..k][0] == a[0].path && PathsOf(b)[..k][0] == b[0].path;
  }

  lemma {:induction false} EvenFork(step: Step, path: Path, f: Forks, g: Forks, k: nat)
    requires step.IsFork() && ForksLast(step.yesSteps, 0) && ForksLast(step.noSteps, 0) && f.roll == g.roll
    requires Even(step.yesSteps, 0) && Even(step.noSteps, 0)
    requires step.Condition? ==> (MustAct(step.yesSteps, 0) && MustAct(step.noSteps, 0)) || (NeverActs(step.yesSteps, 0) && NeverActs(step.noSteps, 0))
    requires var a, b := StepPlan(step, path, {}, f), StepPlan(step, path, {}, g);
             k < |a| && k <= |b| && PathsOf(a)[..k] == PathsOf(b)[..k] && a[k].step.Action?
    ensures ActionNext(StepPlan(step, path, {}, g), k)
    decreases step, 2
  {
    var a, b := StepPlan(step, path, {}, f), StepPlan(step, path, {}, g);
    var yes := TakesYes(step, path, {}, f);
    if yes == TakesYes(step, path, {}, g) {
      if yes { EvenPlans(step.yesSteps, 0, path, Yes, f, g, k); } else { EvenPlans(step.noSteps, 0, path, No, f, g, k); }
    } else {
      if k > 0 { SameHeads(a, b, k); }
      SidesShareNothing(step, path, f, g);
      PlanActs(step.yesSteps, 0, path, Yes, f);
      PlanActs(step.noSteps, 0, path, No, f);
      PlanActs(step.yesSteps, 0, path, Yes, g);
      PlanActs(step.noSteps, 0, path, No, g);
      assert NextBusy(a, 0) == 0;
    }
  }

  lemma SidesShareNothing(step: Step, path: Path, f: Forks, g: Forks)
    requires step.IsFork() && TakesYes(step, path, {}, f) != TakesYes(step, path, {}, g)
    ensures forall l, m | l in StepPlan(step, path, {}, f) && m in StepPlan(step, path, {}, g) :: l.path != m.path
  {
    BranchesApart(step, path);
    PlanWithin(step.yesSteps, 0, path, Yes, {}, f);
    PlanWithin(step.noSteps, 0, path, No, {}, f);
    PlanWithin(step.yesSteps, 0, path, Yes, {}, g);
    PlanWithin(step.noSteps, 0, path, No, {}, g);
  }

  /** Even trees waste nothing, whatever their conditions can say: a check on the tree before the run. */
  lemma EvenTreesWithinFour(wf: Workflow, compare: Comparison)
    requires ForksLast(wf.steps, 0) && Even(wf.steps, 0)
    ensures AlwaysWithinFour(wf, compare)
  {
    FourPerActionExactly(wf, compare);
    if c, d, k :| Wastes(wf, compare, c, d, k) {
      EvenPlans(wf.steps, 0, [], Root, Forks(c, wf.roll), Forks(d, wf.roll), k);
    }
  }

  /* ---- The smallest run that breaks it ---- */

  const HAS_EMAIL := ConditionGroup("", [], "contact.email", "is_not_empty", Value(""))

  /** An address makes `is_not_empty` hold; a contact without one fails it whatever the comparison says. */
  function IsPresent(): Comparison { (operator, resolved, configured) => resolved != configured }

  /** Contacts with an address are sent a mail, others nothing. */
  function MailWorkflow(): Workflow {
    Workflow([Condition("if", Some(HAS_EMAIL), [Action("send")], [])], _ => 0)
  }

  function ContactData(hasEmail: bool): Fields { if hasEmail then map["contact.email" := Value("a@b.c")] else map[] }

  /** An attempt over that contact in which any executor call fails for now. */
  function MailEnv(hasEmail: bool): Env {
    Env((_, g) => EvaluateConditions(g, ContactData(hasEmail), IsPresent()),
        _ => Tick(9, RetryableError, 0, None, false), true, true, true)
  }

  const SEND := Leaf([Segment(Root, 0), Segment(Yes, 0)], Action("send"))

  function SendFailed(): ActionLog { ActionLog(SEND.path, ActionRow, LogRetrying, NoOutput, 1) }

  function AfterSend(): Db { Db(RunRow(Pending, 1, Some(30), None, {}, 0), [SendFailed()], map[]) }

  lemma MailPlan(hasEmail: bool)
    ensures RootPlan(MailWorkflow().steps, {}, ForksOf(MailWorkflow(), MailEnv(hasEmail))) == if hasEmail then [SEND] else []
    ensures Evaluates(MailEnv(hasEmail).condition, IsPresent())
  {
    var steps, forks := MailWorkflow().steps, ForksOf(MailWorkflow(), MailEnv(hasEmail));
    var step, top := steps[0], [Segment(Root, 0)];
    assert BuildStepPath([], Root, 0) == top && top + [Segment(Yes, 0)] == SEND.path;
    assert TakesYes(step, top, {}, forks) <==> hasEmail;
    assert Plan(steps, 1, [], Root, {}, forks) == [];
    assert Plan(step.noSteps, 0, top, No, {}, forks) == [];
    assert Plan(step.yesSteps, 1, top, Yes, {}, forks) == [];
    assert Plan(step.yesSteps, 0, top, Yes, {}, forks) == [SEND];
    forall n: nat ensures Decided(MailEnv(hasEmail).condition, IsPresent(), n) {
      assert DecidedBy(MailEnv(hasEmail).condition, IsPresent(), n, ContactData(hasEmail));
    }
  }

  lemma FirstMailAttempt()
    ensures Attempt(MailWorkflow(), NewRun(), MailEnv(true)) == AfterSend()
    ensures !WalkCrashes(MailWorkflow(), NewRun(), MailEnv(true))
  {
    var wf, env, db := MailWorkflow(), MailEnv(true), NewRun();
    assert StartedPaths(db.logs) == {};
    MailPlan(true);
    assert [] + [SendFailed()] == [SendFailed()];
    OneLeafRun(IndexOf(wf), Claimed(db), SEND, env);
  }

  lemma SecondMailAttempt()
    ensures var db := Attempt(MailWorkflow(), AfterSend(), MailEnv(false)); db.run.status.Completed? && db.logs == [SendFailed()]
    ensures !WalkCrashes(MailWorkflow(), AfterSend(), MailEnv(false))
  {
    assert StartedPaths(AfterSend().logs) == {};
    MailPlan(false);
  }

  lemma TwoAttempts(wf: Workflow, first: Env, second: Env)
    requires !WalkCrashes(wf, NewRun(), first) && !WalkCrashes(wf, Attempt(wf, NewRun(), first), second)
    ensures var events := [AttemptRun(first), AttemptRun(second)];
            After(wf, events).db == Attempt(wf, Attempt(wf, NewRun(), first), second) && Crashes(wf, events) == 0
  {
    var events := [AttemptRun(first), AttemptRun(second)];
    var one := [AttemptRun(first)];
    assert one[..0] == [] && events[..1] == one;
    assert After(wf, one) == Step1(wf, After(wf, []), one[0]) && Crashes(wf, one) == 0;
    assert After(wf, events) == Step1(wf, After(wf, one), events[1]);
  }

  /**
   A mail that fails for now, and a contact who loses the address before the retry: a failed attempt pins no branch, so
   the run completes along the empty side after one call and no action.
   */
  lemma LostAddressBreaksFour()
    ensures var events := [AttemptRun(MailEnv(true)), AttemptRun(MailEnv(false))];
            && ForksLast(MailWorkflow().steps, 0) && NoManualRetry(events) && Evaluated(events, IsPresent())
            && After(MailWorkflow(), events).db.run.status.Completed? && !WithinFour(MailWorkflow(), events)
  {
    MailPlan(true);
    MailPlan(false);
    FirstMailAttempt();
    SecondMailAttempt();
    TwoAttempts(MailWorkflow(), MailEnv(true), MailEnv(false));
    assert [SendFailed()][..0] == [];
    assert TallyOf([SendFailed()]) == TallyOf([]).Add(SendFailed()) && ActionRows([SendFailed()]) == ActionRows([]) + [SendFailed()];
  }
}
