/** Forks last: however often conditions flip, no step's executor is called more than four times, crashes apart. */
module RunCalls {
  import opened StepTree
  import opened RunStore
  import opened RunLogs
  import opened RunRoutes
  import opened RunRetry

  /* ---- Two routes that part ---- */

  /** The paths part company at a fork: same prefix, then different branches. */
  predicate Diverge(p: Path, q: Path) {
    exists j | 0 <= j < |p| && j < |q| :: p[..j] == q[..j] && p[j].branch != q[j].branch
  }

  /** Two routes with the same first k leaves have the same next leaf, or part at a fork just before it. */
  lemma {:induction false} RoutesDiverge(steps: seq<Step>, i: nat, parent: Path, branch: Branch, a: seq<Leaf>, b: seq<Leaf>, k: nat)
    requires i <= |steps| && ForksLast(steps, i)
    requires IsRoute(steps, i, parent, branch, a) && IsRoute(steps, i, parent, branch, b)
    requires k < |a| && k < |b|
    ensures a[k].path == b[k].path || Diverge(a[k].path, b[k].path)
    decreases steps, 1, |steps| - i
  {
    var step := steps[i];
    var path := BuildStepPath(parent, branch, i);
    if !step.IsFork() {
      if k > 0 {
        RoutesDiverge(steps, i + 1, parent, branch, a[1..], b[1..], k - 1);
      }
    } else if IsRoute(step.yesSteps, 0, path, Yes, a) && IsRoute(step.yesSteps, 0, path, Yes, b) {
      RoutesDiverge(step.yesSteps, 0, path, Yes, a, b, k);
    } else if IsRoute(step.noSteps, 0, path, No, a) && IsRoute(step.noSteps, 0, path, No, b) {
      RoutesDiverge(step.noSteps, 0, path, No, a, b, k);
    } else {
      LeavesUnder(step.yesSteps, 0, path, Yes);
      LeavesUnder(step.noSteps, 0, path, No);
      if IsRoute(step.yesSteps, 0, path, Yes, a) {
        RouteWithin(step.yesSteps, 0, path, Yes, a);
        RouteWithin(step.noSteps, 0, path, No, b);
      } else {
        RouteWithin(step.noSteps, 0, path, No, a);
        RouteWithin(step.yesSteps, 0, path, Yes, b);
      }
      var p, q := a[k].path, b[k].path;
      assert p[..|path|] == q[..|path|] && p[|path|].branch != q[|path|].branch;
    }
  }

  /** The leaves of one route never part. */
  lemma {:induction false} RouteTogether(steps: seq<Step>, i: nat, parent: Path, branch: Branch, route: seq<Leaf>, m: nat, n: nat)
    requires i <= |steps| && ForksLast(steps, i) && IsRoute(steps, i, parent, branch, route)
    requires m < |route| && n < |route|
    ensures !Diverge(route[m].path, route[n].path)
    decreases steps, 1, |steps| - i
  {
    var step := steps[i];
    var path := BuildStepPath(parent, branch, i);
    if step.IsFork() {
      if IsRoute(step.yesSteps, 0, path, Yes, route) {
        RouteTogether(step.yesSteps, 0, path, Yes, route, m, n);
      } else {
        RouteTogether(step.noSteps, 0, path, No, route, m, n);
      }
    } else if m > 0 && n > 0 {
      RouteTogether(steps, i + 1, parent, branch, route[1..], m - 1, n - 1);
    } else {
      RouteWithin(steps, i, parent, branch, route);
      LeavesUnder(steps, i, parent, branch);
      FlatTogether(route[m].path, route[n].path, parent, branch);
    }
  }

  /** Paths under one list do not part before that list, and one of them ends there. */
  lemma FlatTogether(p: Path, q: Path, parent: Path, branch: Branch)
    requires Under(p, parent, branch, 0) && Under(q, parent, branch, 0)
    requires |p| == |parent| + 1 || |q| == |parent| + 1
    ensures !Diverge(p, q)
  {
    forall j | 0 <= j < |p| && j < |q| ensures !(p[..j] == q[..j] && p[j].branch != q[j].branch) {
      if j < |parent| { assert p[j] == p[..|parent|][j] == q[..|parent|][j] == q[j]; }
    }
  }

  /* ---- The retry budget of every step ---- */

  function RetriedPaths(logs: seq<ActionLog>): seq<Path> { PathsWith(logs, LogRetrying) }

  function Times<T(==)>(s: seq<T>, x: T): nat { multiset(s)[x] }

  /** The step is committed, or shut off: something has started in the other branch of a fork above it. */
  predicate Settled(committed: seq<Path>, started: set<Path>, p: Path) {
    p in committed || exists q | q in started :: Diverge(p, q)
  }

  /** Some route agrees with what is committed and has this step next. */
  ghost predicate NextOnSomeRoute(wf: Workflow, committed: seq<Path>, p: Path)
    requires ForksLast(wf.steps, 0)
  {
    exists route: seq<Leaf> ::
      && IsRoute(wf.steps, 0, [], Root, route)
      && |committed| < |route| && route[|committed|].path == p
  }

  /** Every retried step is settled, or was retried at most `count` times and is still what comes next on some route. */
  ghost predicate Budgeted(wf: Workflow, committed: seq<Path>, started: set<Path>, retried: seq<Path>, count: nat)
    requires ForksLast(wf.steps, 0)
  {
    forall p | p in retried ::
      && Times(retried, p) <= MAX_RETRIES
      && (Settled(committed, started, p) || (Times(retried, p) <= count && NextOnSomeRoute(wf, committed, p)))
  }

  ghost predicate DbBudgeted(wf: Workflow, db: Db)
    requires ForksLast(wf.steps, 0)
  {
    Budgeted(wf, Committed(db.logs), StartedPaths(db.logs), RetriedPaths(db.logs), db.run.retryCount)
  }

  /** Committing the next leaf of a route settles every step retried so far. */
  lemma CommitSettles(wf: Workflow, route: seq<Leaf>, committed: seq<Path>, started: set<Path>, retried: seq<Path>, count: nat)
    requires ForksLast(wf.steps, 0) && IsRoute(wf.steps, 0, [], Root, route)
    requires |committed| < |route| && Budgeted(wf, committed, started, retried, count)
    ensures var path := route[|committed|].path;
            forall count' :: Budgeted(wf, committed + [path], started + {path}, retried, count')
  {
    var path := route[|committed|].path;
    forall p | p in retried ensures Settled(committed + [path], started + {path}, p) {
      if Settled(committed, started, p) {
        if q :| q in started && Diverge(p, q) { assert q in started + {path}; }
      } else {
        var other: seq<Leaf> :| IsRoute(wf.steps, 0, [], Root, other) && |committed| < |other| && other[|committed|].path == p;
        RoutesDiverge(wf.steps, 0, [], Root, other, route, |committed|);
        assert path in started + {path};
      }
    }
  }

  /** A retry of a route's next leaf, which nothing has shut off, fits the counter. */
  lemma RetryFits(wf: Workflow, route: seq<Leaf>, committed: seq<Path>, started: set<Path>, retried: seq<Path>, count: nat)
    requires ForksLast(wf.steps, 0) && IsRoute(wf.steps, 0, [], Root, route)
    requires |committed| < |route| && count < MAX_RETRIES && Budgeted(wf, committed, started, retried, count)
    requires !Settled(committed, started, route[|committed|].path)
    ensures Budgeted(wf, committed, started, retried + [route[|committed|].path], count + 1)
  {
    var path := route[|committed|].path;
    forall p | p in retried + [path]
      ensures Times(retried + [path], p) <= MAX_RETRIES
      ensures Settled(committed, started, p) || (Times(retried + [path], p) <= count + 1 && NextOnSomeRoute(wf, committed, p))
    {
      if p !in retried { assert Times(retried, p) == 0; }
    }
  }

  lemma NotSettled(wf: Workflow, logs: seq<ActionLog>, plan: seq<Leaf>, k: nat)
    requires ForksLast(wf.steps, 0) && IsRoute(wf.steps, 0, [], Root, plan)
    requires k < |plan| && Aligned(plan, k, logs)
    ensures !Settled(Committed(logs), StartedPaths(logs), plan[k].path)
  {
    NotYetDone(logs, plan, k);
    StartedIs(logs);
    forall q | q in StartedPaths(logs) ensures !Diverge(plan[k].path, q) {
      if q in Committed(logs) {
        var i :| 0 <= i < k && PathsOf(plan)[i] == q;
        RouteTogether(wf.steps, 0, [], Root, plan, k, i);
      } else {
        RouteTogether(wf.steps, 0, [], Root, plan, k, k);
      }
    }
  }

  /** Finishing a parked row retries nothing. */
  lemma {:induction false} FlipKeepsOthers(logs: seq<ActionLog>, w: nat, row: ActionLog, status: LogStatus)
    requires w < |logs| && logs[w].status != status && row.status != status
    ensures PathsWith(logs[w := row], status) == PathsWith(logs, status)
    decreases |logs|
  {
    var n := |logs| - 1;
    if w < n {
      assert logs[w := row][..n] == logs[..n][w := row];
      FlipKeepsOthers(logs[..n], w, row, status);
    } else {
      assert logs[w := row][..n] == logs[..n];
    }
  }

  /** Starting a step without committing it settles no less. */
  lemma StartKeepsBudget(wf: Workflow, committed: seq<Path>, started: set<Path>, more: set<Path>, retried: seq<Path>, count: nat)
    requires ForksLast(wf.steps, 0) && Budgeted(wf, committed, started, retried, count)
    ensures Budgeted(wf, committed, started + more, retried, count)
  {
    forall p | Settled(committed, started, p) ensures Settled(committed, started + more, p) {
      if q :| q in started && Diverge(p, q) { assert q in started + more; }
    }
  }

  /** What one appended row adds to the lists the budget is about. */
  lemma AppendLists(logs: seq<ActionLog>, row: ActionLog)
    ensures Committed(logs + [row]) == if row.status.LogSuccess? then Committed(logs) + [row.path] else Committed(logs)
    ensures RetriedPaths(logs + [row]) == if row.status.LogRetrying? then RetriedPaths(logs) + [row.path] else RetriedPaths(logs)
    ensures StartedPaths(logs + [row])
         == if row.status.LogSuccess? || row.status.LogWaiting? then StartedPaths(logs) + {row.path} else StartedPaths(logs)
  {
    PathsWithAppend(logs, row, LogSuccess);
    PathsWithAppend(logs, row, LogRetrying);
    AppendPaths(logs, row);
  }

  lemma AppendBudgeted(wf: Workflow, db: Db, plan: seq<Leaf>, k: nat, row: ActionLog, count: nat)
    requires ForksLast(wf.steps, 0) && IsRoute(wf.steps, 0, [], Root, plan)
    requires k < |plan| && Aligned(plan, k, db.logs) && DbBudgeted(wf, db) && row.path == plan[k].path
    requires row.status.LogRetrying? ==> count == db.run.retryCount + 1 && db.run.retryCount < MAX_RETRIES
    requires !row.status.LogRetrying? && !row.status.LogSuccess? ==> count == db.run.retryCount
    ensures var logs := db.logs + [row];
            Budgeted(wf, Committed(logs), StartedPaths(logs), RetriedPaths(logs), count)
  {
    var committed, started, retried := Committed(db.logs), StartedPaths(db.logs), RetriedPaths(db.logs);
    AppendLists(db.logs, row);
    if row.status.LogSuccess? {
      CommitSettles(wf, plan, committed, started, retried, db.run.retryCount);
    } else if row.status.LogRetrying? {
      NotSettled(wf, db.logs, plan, k);
      RetryFits(wf, plan, committed, started, retried, db.run.retryCount);
    } else if row.status.LogWaiting? {
      StartKeepsBudget(wf, committed, started, {row.path}, retried, db.run.retryCount);
    }
  }

  lemma FlipBudgeted(wf: Workflow, db: Db, plan: seq<Leaf>, k: nat, next: Db, o: Outcome)
    requires ForksLast(wf.steps, 0) && IsRoute(wf.steps, 0, [], Root, plan)
    requires k < |plan| && Aligned(plan, k, db.logs) && DbBudgeted(wf, db)
    requires Flipped(db, plan[k], next, o)
    ensures DbBudgeted(wf, next)
  {
    var w := FindWaiting(db.logs, plan[k].path);
    FlipAligned(db, plan, k, next, o);
    assert PathsOf(plan)[..k + 1] == Committed(db.logs) + [plan[k].path];
    FlipPaths(db.logs, w, next.logs[w]);
    FlipKeepsOthers(db.logs, w, next.logs[w], LogRetrying);
    assert StartedPaths(next.logs) == StartedPaths(db.logs) + {plan[k].path};
    CommitSettles(wf, plan, Committed(db.logs), StartedPaths(db.logs), RetriedPaths(db.logs), db.run.retryCount);
  }

  lemma {:induction false} WalkBudgeted(wf: Workflow, db: Db, plan: seq<Leaf>, k: nat, env: Env)
    requires ForksLast(wf.steps, 0) && IsRoute(wf.steps, 0, [], Root, plan)
    requires DbOk(wf, db) && db.run.status.Running? && Aligned(plan, k, db.logs) && DbBudgeted(wf, db)
    requires forall l | l in plan :: IsLeafOf(wf, l)
    ensures DbBudgeted(wf, RunLeaves(IndexOf(wf), db, plan[k..], env).0)
    decreases |plan| - k
  {
    if k < |plan| {
      var t := env.tick(plan[k].path);
      var (next, o) := LeafOp(IndexOf(wf), db, plan[k], t);
      assert plan[k..][0] == plan[k] && plan[k..][1..] == plan[k + 1..];
      OpPriced(wf, db, plan[k], t);
      OneLeafAligned(wf, db, plan, k, t);
      if Appended(db, plan[k], next, o) {
        AppendBudgeted(wf, db, plan, k, next.logs[|db.logs|], next.run.retryCount);
      } else if next.logs != db.logs {
        FlipBudgeted(wf, db, plan, k, next, o);
      }
      if o.Proceed? {
        if !Aligned(plan, k + 1, next.logs) { assert false; }
        WalkBudgeted(wf, next, plan, k + 1, env);
      }
    }
  }

  lemma {:induction false} AlwaysBudgeted(wf: Workflow, events: seq<Event>)
    requires ForksLast(wf.steps, 0) && NoManualRetry(events)
    ensures DbBudgeted(wf, After(wf, events).db)
    decreases |events|
  {
    if events != [] {
      var rest, e := events[..|events| - 1], events[|events| - 1];
      var w := After(wf, rest);
      AlwaysBudgeted(wf, rest);
      AlwaysOk(wf, rest);
      match e
      case AttemptRun(env) =>
        if (w.db.run.status.Pending? || w.db.run.status.Running?) && env.locks && env.loads && wf.steps != [] {
          AttemptBudgeted(wf, rest, env);
        }
      case SatisfyRun(path, _) =>
        StampKeepsPaths(w.db.logs, path, LogSuccess);
        StampKeepsPaths(w.db.logs, path, LogRetrying);
        StampKeeps(wf, w.db.logs, path);
      case _ =>
    }
  }

  lemma AttemptBudgeted(wf: Workflow, events: seq<Event>, env: Env)
    requires ForksLast(wf.steps, 0) && DbBudgeted(wf, After(wf, events).db)
    ensures DbBudgeted(wf, Attempt(wf, After(wf, events).db, env))
  {
    var db := After(wf, events).db;
    var started, forks := StartedPaths(db.logs), ForksOf(wf, env);
    var plan := RootPlan(wf.steps, started, forks);
    AlwaysOk(wf, events);
    ForksLastIsSolid(wf.steps, 0);
    AlwaysOnRoute(wf, events);
    var c, k :| AlongRoute(wf, db, c, k);
    NextPlanAligned(wf, db.logs, c, k, forks);
    PlanIsRoute(wf.steps, 0, [], Root, started, forks);
    PlanWithin(wf.steps, 0, [], Root, started, forks);
    if (db.run.status.Pending? || db.run.status.Running?) && env.locks && env.loads && wf.steps != [] {
      assert plan[0..] == plan;
      SkipsCommitted(IndexOf(wf), Claimed(db), plan, 0, k, env);
      WalkBudgeted(wf, Claimed(db), plan, k, env);
    }
  }

  /* ---- A failed step ends the run ---- */

  function FailedPaths(logs: seq<ActionLog>): seq<Path> { PathsWith(logs, LogFailed) }

  /** At most one row ever failed; then the run has failed and the step is not committed. */
  predicate FailsOnce(db: Db) {
    FailedPaths(db.logs) == []
    || (|FailedPaths(db.logs)| == 1 && db.run.status.Failed? && FailedPaths(db.logs)[0] !in Committed(db.logs))
  }

  lemma OpFailsOnce(wf: Workflow, db: Db, leaf: Leaf, t: Tick)
    requires IsLeafOf(wf, leaf) && LogsOk(wf, db.logs) && FailedPaths(db.logs) == []
    ensures var (next, o) := LeafOp(IndexOf(wf), db, leaf, t);
            FailsOnce(next) && (o.Proceed? ==> FailedPaths(next.logs) == [])
  {
    var (next, o) := LeafOp(IndexOf(wf), db, leaf, t);
    OpPriced(wf, db, leaf, t);
    if Appended(db, leaf, next, o) {
      AppendFailsOnce(db, leaf, next, o);
    } else if next.logs != db.logs {
      var w := FindWaiting(db.logs, leaf.path);
      FlipKeepsOthers(db.logs, w, next.logs[w], LogFailed);
    }
  }

  lemma AppendFailsOnce(db: Db, leaf: Leaf, next: Db, o: Outcome)
    requires FailedPaths(db.logs) == [] && Appended(db, leaf, next, o) && Priced(db, leaf, next, o)
    ensures FailsOnce(next) && (o.Proceed? ==> FailedPaths(next.logs) == [])
  {
    var row := next.logs[|db.logs|];
    PathsWithAppend(db.logs, row, LogFailed);
    PathsWithAppend(db.logs, row, LogSuccess);
    StartedIs(db.logs);
  }

  lemma {:induction false} WalkFailsOnce(wf: Workflow, db: Db, leaves: seq<Leaf>, env: Env)
    requires DbOk(wf, db) && db.run.status.Running? && FailedPaths(db.logs) == []
    requires forall l | l in leaves :: IsLeafOf(wf, l)
    ensures var (next, o) := RunLeaves(IndexOf(wf), db, leaves, env);
            FailsOnce(next) && (o.Proceed? ==> FailedPaths(next.logs) == [])
    decreases |leaves|
  {
    if leaves != [] {
      var t := env.tick(leaves[0].path);
      var (mid, o) := LeafOp(IndexOf(wf), db, leaves[0], t);
      OpFailsOnce(wf, db, leaves[0], t);
      OpKeeps(wf, db, leaves[0], t);
      if o.Proceed? {
        WalkFailsOnce(wf, mid, leaves[1..], env);
      }
    }
  }

  lemma {:induction false} AlwaysFailsOnce(wf: Workflow, events: seq<Event>)
    requires NoManualRetry(events)
    ensures FailsOnce(After(wf, events).db)
    decreases |events|
  {
    if events != [] {
      var rest, e := events[..|events| - 1], events[|events| - 1];
      var w := After(wf, rest);
      AlwaysFailsOnce(wf, rest);
      AlwaysOk(wf, rest);
      match e
      case AttemptRun(env) =>
        if (w.db.run.status.Pending? || w.db.run.status.Running?) && env.locks && env.loads && wf.steps != [] {
          var started := StartedPaths(w.db.logs);
          PlanWithin(wf.steps, 0, [], Root, started, ForksOf(wf, env));
          WalkFailsOnce(wf, Claimed(w.db), RootPlan(wf.steps, started, ForksOf(wf, env)), env);
        }
      case SatisfyRun(path, _) =>
        StampKeepsPaths(w.db.logs, path, LogSuccess);
        StampKeepsPaths(w.db.logs, path, LogFailed);
      case _ =>
    }
  }

  /* ---- Calls to one step ---- */

  /** How often the step's executor was called, an attempt that died around the call included. */
  function CallsTo(logs: seq<ActionLog>, path: Path): nat {
    if logs == [] then 0
    else
      var last := logs[|logs| - 1];
      CallsTo(logs[..|logs| - 1], path) + (if last.kind.ActionRow? && last.path == path then 1 else 0)
  }

  lemma {:induction false} CallsSplit(wf: Workflow, logs: seq<ActionLog>, path: Path)
    requires forall i :: 0 <= i < |logs| ==> RowOk(wf, logs[i])
    ensures CallsTo(logs, path)
         <= TallyOf(logs).orphans + Times(RetriedPaths(logs), path) + Times(FailedPaths(logs), path) + Times(Committed(logs), path)
  {
    if logs != [] {
      var rest, row := logs[..|logs| - 1], logs[|logs| - 1];
      assert RowOk(wf, row);
      CallsSplit(wf, rest, path);
    }
  }

  lemma {:induction false} DistinctTimes(leaves: seq<Leaf>, k: nat, path: Path)
    requires k <= |leaves| && DistinctPaths(leaves)
    ensures Times(PathsOf(leaves)[..k], path) <= 1
  {
    if k > 0 {
      DistinctTimes(leaves, k - 1, path);
      var before := PathsOf(leaves)[..k - 1];
      assert PathsOf(leaves)[..k] == before + [leaves[k - 1].path];
      if leaves[k - 1].path == path { assert path !in before; }
    }
  }

  /**
   Forks last, conditions free to flip at every attempt: no step's executor is called more than four times, plus
   once per crash.
   */
  lemma CallsPerStep(wf: Workflow, events: seq<Event>, path: Path)
    requires ForksLast(wf.steps, 0) && NoManualRetry(events)
    ensures CallsTo(After(wf, events).db.logs, path) <= 4 + Crashes(wf, events)
  {
    var db := After(wf, events).db;
    AlwaysOk(wf, events);
    AlwaysWithinBudget(wf, events);
    NoneGranted(events);
    AlwaysBudgeted(wf, events);
    AlwaysFailsOnce(wf, events);
    ForksLastIsSolid(wf.steps, 0);
    AlwaysOnRoute(wf, events);
    CallsSplit(wf, db.logs, path);
    CommittedOnce(wf, db, path);
    FewRows(wf, db, path);
  }

  lemma CommittedOnce(wf: Workflow, db: Db, path: Path)
    requires OnRoute(wf, db)
    ensures Times(Committed(db.logs), path) <= 1
  {
    var c, k :| AlongRoute(wf, db, c, k);
    DistinctTimes(Route(wf, c), k, path);
  }

  lemma FewRows(wf: Workflow, db: Db, path: Path)
    requires ForksLast(wf.steps, 0) && DbBudgeted(wf, db) && FailsOnce(db) && Times(Committed(db.logs), path) <= 1
    ensures Times(RetriedPaths(db.logs), path) + Times(FailedPaths(db.logs), path) + Times(Committed(db.logs), path) <= 4
  {
    var retried, failed, committed := RetriedPaths(db.logs), FailedPaths(db.logs), Committed(db.logs);
    assert path !in retried ==> Times(retried, path) == 0;
    if failed != [] {
      assert failed == [failed[0]];
      assert path !in committed ==> Times(committed, path) == 0;
    }
  }
}
