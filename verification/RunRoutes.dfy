/** Commit order: an attempt extends a committed prefix of its plan, leaf by leaf. */
module RunRoutes {
  import opened StepTree
  import opened RunStore
  import opened RunLogs

  /** The paths with a success row, in row order. */
  function Committed(logs: seq<ActionLog>): seq<Path> {
    PathsWith(logs, LogSuccess)
  }

  /** The paths with a waiting row, in row order. */
  function ParkedPaths(logs: seq<ActionLog>): seq<Path> {
    PathsWith(logs, LogWaiting)
  }

  function PathsWith(logs: seq<ActionLog>, status: LogStatus): seq<Path> {
    if logs == [] then []
    else
      var last := logs[|logs| - 1];
      PathsWith(logs[..|logs| - 1], status) + (if last.status == status then [last.path] else [])
  }

  lemma {:induction false} PathsWithMember(logs: seq<ActionLog>, status: LogStatus, path: Path)
    ensures path in PathsWith(logs, status)
       <==> exists i | 0 <= i < |logs| :: logs[i].status == status && logs[i].path == path
  {
    if logs != [] {
      var n := |logs| - 1;
      PathsWithMember(logs[..n], status, path);
      if i :| 0 <= i < |logs| && logs[i].status == status && logs[i].path == path {
        if i < n { assert logs[..n][i].status == status && logs[..n][i].path == path; }
      }
      if path in PathsWith(logs[..n], status) {
        var i :| 0 <= i < n && logs[..n][i].status == status && logs[..n][i].path == path;
        assert logs[i].status == status && logs[i].path == path;
      }
    }
  }

  lemma PathsWithAppend(logs: seq<ActionLog>, row: ActionLog, status: LogStatus)
    ensures PathsWith(logs + [row], status) == PathsWith(logs, status) + (if row.status == status then [row.path] else [])
  {
    assert (logs + [row])[..|logs|] == logs;
  }

  /** No success row follows a waiting row. */
  predicate WaitingIsNewest(logs: seq<ActionLog>) {
    forall i, j :: 0 <= i < j < |logs| && logs[i].status.LogWaiting? ==> !logs[j].status.LogSuccess?
  }

  lemma {:induction false} NoneWith(logs: seq<ActionLog>, status: LogStatus)
    requires forall i :: 0 <= i < |logs| ==> logs[i].status != status
    ensures PathsWith(logs, status) == []
  {
    if logs != [] {
      NoneWith(logs[..|logs| - 1], status);
    }
  }

  /** Finishing the only parked row appends its path to the committed ones. */
  lemma {:induction false} FlipCommits(logs: seq<ActionLog>, w: nat, row: ActionLog)
    requires w < |logs| && logs[w].status.LogWaiting? && row.status.LogSuccess? && row.path == logs[w].path
    requires forall j :: w < j < |logs| ==> !logs[j].status.LogSuccess?
    ensures Committed(logs[w := row]) == Committed(logs) + [row.path]
    ensures |ParkedPaths(logs)| == 1 ==> ParkedPaths(logs[w := row]) == []
    ensures |ParkedPaths(logs)| >= 1 && |ParkedPaths(logs[w := row])| == |ParkedPaths(logs)| - 1
    decreases |logs|
  {
    var n := |logs| - 1;
    if w < n {
      assert logs[w := row][..n] == logs[..n][w := row];
      FlipCommits(logs[..n], w, row);
    } else {
      assert logs[w := row][..n] == logs[..n];
    }
  }

  lemma StartedIs(logs: seq<ActionLog>)
    ensures forall p :: p in StartedPaths(logs) <==> p in Committed(logs) || p in ParkedPaths(logs)
    ensures forall p :: IsDone(logs, p) <==> p in Committed(logs)
    ensures forall p :: FindWaiting(logs, p) >= 0 <==> p in ParkedPaths(logs)
  {
    forall p
      ensures p in StartedPaths(logs) <==> p in Committed(logs) || p in ParkedPaths(logs)
      ensures IsDone(logs, p) <==> p in Committed(logs)
      ensures FindWaiting(logs, p) >= 0 <==> p in ParkedPaths(logs)
    {
      PathsWithMember(logs, LogSuccess, p);
      PathsWithMember(logs, LogWaiting, p);
    }
  }

  /* ---- A table aligned with a plan ---- */

  /** Exactly the first k leaves of the plan are committed, in order; at most the next one is parked. */
  predicate Aligned(plan: seq<Leaf>, k: nat, logs: seq<ActionLog>) {
    && k <= |plan|
    && DistinctPaths(plan)
    && Committed(logs) == PathsOf(plan)[..k]
    && (ParkedPaths(logs) == [] || (k < |plan| && ParkedPaths(logs) == [plan[k].path]))
    && WaitingIsNewest(logs)
  }

  lemma AppendAligned(db: Db, plan: seq<Leaf>, k: nat, next: Db, o: Outcome)
    requires k < |plan| && Aligned(plan, k, db.logs) && Appended(db, plan[k], next, o)
    ensures Aligned(plan, k + 1, next.logs) || (!o.Proceed? && Aligned(plan, k, next.logs))
  {
    StartedIs(db.logs);
    assert ParkedPaths(db.logs) == [];
    RowAligned(plan, k, db.logs, next.logs[|db.logs|]);
  }

  /** With nothing parked, a row of the next leaf commits it, parks it, or changes nothing. */
  lemma RowAligned(plan: seq<Leaf>, k: nat, logs: seq<ActionLog>, row: ActionLog)
    requires k < |plan| && Aligned(plan, k, logs) && ParkedPaths(logs) == [] && row.path == plan[k].path
    ensures Aligned(plan, if row.status.LogSuccess? then k + 1 else k, logs + [row])
  {
    PathsWithAppend(logs, row, LogSuccess);
    PathsWithAppend(logs, row, LogWaiting);
    NoneWaiting(logs);
    assert PathsOf(plan)[..k + 1] == PathsOf(plan)[..k] + [row.path];
    assert [] + [row.path] == [row.path];
  }

  lemma FlipAligned(db: Db, plan: seq<Leaf>, k: nat, next: Db, o: Outcome)
    requires k < |plan| && Aligned(plan, k, db.logs) && Flipped(db, plan[k], next, o)
    ensures Aligned(plan, k + 1, next.logs)
  {
    var w := FindWaiting(db.logs, plan[k].path);
    StartedIs(db.logs);
    FlipCommits(db.logs, w, next.logs[w]);
    NoneWaiting(next.logs);
    assert PathsOf(plan)[..k + 1] == PathsOf(plan)[..k] + [plan[k].path];
  }

  lemma NoneWaiting(logs: seq<ActionLog>)
    requires ParkedPaths(logs) == []
    ensures forall i :: 0 <= i < |logs| ==> !logs[i].status.LogWaiting?
  {
    forall i | 0 <= i < |logs| ensures !logs[i].status.LogWaiting? {
      PathsWithMember(logs, LogWaiting, logs[i].path);
    }
  }

  lemma OpAligned(index: map<Path, StepId>, db: Db, plan: seq<Leaf>, k: nat, t: Tick)
    requires k < |plan| && Aligned(plan, k, db.logs)
    requires !plan[k].step.Delay? ==> FindWaiting(db.logs, plan[k].path) < 0
    ensures var (next, o) := LeafOp(index, db, plan[k], t);
            Aligned(plan, k + 1, next.logs) || (!o.Proceed? && Aligned(plan, k, next.logs))
  {
    var (next, o) := LeafOp(index, db, plan[k], t);
    OpShape(index, db, plan[k], t);
    if Appended(db, plan[k], next, o) {
      AppendAligned(db, plan, k, next, o);
    } else if Flipped(db, plan[k], next, o) {
      FlipAligned(db, plan, k, next, o);
    } else {
      NotYetDone(db.logs, plan, k);
    }
  }

  lemma NotYetDone(logs: seq<ActionLog>, plan: seq<Leaf>, k: nat)
    requires k < |plan| && Aligned(plan, k, logs)
    ensures !IsDone(logs, plan[k].path)
  {
    StartedIs(logs);
    assert forall i :: 0 <= i < k ==> PathsOf(plan)[i] != plan[k].path;
  }

  /** A walk skips the leaves already committed. */
  lemma {:induction false} SkipsCommitted(index: map<Path, StepId>, db: Db, plan: seq<Leaf>, j: nat, k: nat, env: Env)
    requires j <= k && Aligned(plan, k, db.logs)
    ensures RunLeaves(index, db, plan[j..], env) == RunLeaves(index, db, plan[k..], env)
    decreases k - j
  {
    if j < k {
      StartedIs(db.logs);
      assert PathsOf(plan)[..k][j] == plan[j].path;
      assert LeafOp(index, db, plan[j], env.tick(plan[j].path)) == (db, Proceed);
      assert plan[j..][1..] == plan[j + 1..];
      SkipsCommitted(index, db, plan, j + 1, k, env);
    }
  }

  /** From the first uncommitted leaf on, the walk keeps the table aligned; proceeding to its end commits all of it. */
  lemma {:induction false} RunLeavesAligned(wf: Workflow, db: Db, plan: seq<Leaf>, k: nat, env: Env) returns (k': nat)
    requires DbOk(wf, db) && db.run.status.Running?
    requires Aligned(plan, k, db.logs)
    requires forall l | l in plan :: IsLeafOf(wf, l)
    ensures var (next, o) := RunLeaves(IndexOf(wf), db, plan[k..], env);
            k <= k' && Aligned(plan, k', next.logs) && (o.Proceed? ==> k' == |plan| && ParkedPaths(next.logs) == [])
    decreases |plan| - k
  {
    k' := k;
    if k < |plan| {
      var leaf := plan[k];
      var (mid, o) := LeafOp(IndexOf(wf), db, leaf, env.tick(leaf.path));
      assert plan[k..][0] == leaf && plan[k..][1..] == plan[k + 1..];
      OneLeafAligned(wf, db, plan, k, env.tick(leaf.path));
      if o.Proceed? {
        k' := RunLeavesAligned(wf, mid, plan, k + 1, env);
      } else if Aligned(plan, k + 1, mid.logs) {
        k' := k + 1;
      }
    }
  }

  lemma OneLeafAligned(wf: Workflow, db: Db, plan: seq<Leaf>, k: nat, t: Tick)
    requires DbOk(wf, db) && db.run.status.Running?
    requires k < |plan| && Aligned(plan, k, db.logs) && IsLeafOf(wf, plan[k])
    ensures var (next, o) := LeafOp(IndexOf(wf), db, plan[k], t);
            && (Aligned(plan, k + 1, next.logs) || (!o.Proceed? && Aligned(plan, k, next.logs)))
            && (o.Proceed? ==> DbOk(wf, next) && next.run.status.Running?)
  {
    if !plan[k].step.Delay? { NoWaitingAction(wf, db.logs, plan[k]); }
    OpAligned(IndexOf(wf), db, plan, k, t);
    OpKeeps(wf, db, plan[k], t);
  }

  lemma StampKeepsPaths(logs: seq<ActionLog>, path: Path, status: LogStatus)
    ensures PathsWith(StampRows(logs, path), status) == PathsWith(logs, status)
  {
    SameStatuses(logs, StampRows(logs, path), status);
  }

  lemma {:induction false} SameStatuses(a: seq<ActionLog>, b: seq<ActionLog>, status: LogStatus)
    requires |a| == |b| && forall i :: 0 <= i < |a| ==> a[i].status == b[i].status && a[i].path == b[i].path
    ensures PathsWith(a, status) == PathsWith(b, status)
  {
    if a != [] {
      SameStatuses(a[..|a| - 1], b[..|b| - 1], status);
    }
  }

  /** Every event other than an attempt leaves the alignment as it was. */
  lemma OthersKeepAligned(wf: Workflow, w: World, e: Event, plan: seq<Leaf>, k: nat)
    requires !e.AttemptRun? && Aligned(plan, k, w.db.logs)
    ensures Aligned(plan, k, Step1(wf, w, e).db.logs)
    ensures Committed(Step1(wf, w, e).db.logs) == Committed(w.db.logs)
    ensures ParkedPaths(Step1(wf, w, e).db.logs) == ParkedPaths(w.db.logs)
    ensures Step1(wf, w, e).db.run.status.Completed? ==> w.db.run.status.Completed?
  {
    match e
    case SatisfyRun(path, _) =>
      StampKeepsPaths(w.db.logs, path, LogSuccess);
      StampKeepsPaths(w.db.logs, path, LogWaiting);
    case _ =>
  }

  /* ---- One route, whatever the conditions say ---- */

  /** The route of a walk in which conditions decide as `condition` and nothing has started. */
  function Route(wf: Workflow, condition: Verdicts): seq<Leaf> { RootPlan(wf.steps, {}, Forks(condition, wf.roll)) }

  /** The table is aligned with the route of some decisions, and a completed run has committed all of it. */
  ghost predicate OnRoute(wf: Workflow, db: Db) {
    exists c, k :: AlongRoute(wf, db, c, k)
  }

  ghost predicate AlongRoute(wf: Workflow, db: Db, c: Verdicts, k: nat) {
    && Aligned(Route(wf, c), k, db.logs)
    && (db.run.status.Completed? ==> k == |Route(wf, c)| && ParkedPaths(db.logs) == [])
  }

  /** In a solid tree a route the table is aligned with is still the beginning of the next attempt's plan. */
  lemma NextPlanAligned(wf: Workflow, logs: seq<ActionLog>, c: Verdicts, k: nat, forks: Forks)
    requires Solid(wf.steps, 0, false) && forks.roll == wf.roll && Aligned(Route(wf, c), k, logs)
    ensures Aligned(RootPlan(wf.steps, StartedPaths(logs), forks), k, logs)
  {
    var route, started := Route(wf, c), StartedPaths(logs);
    var plan := RootPlan(wf.steps, started, forks);
    var n := if ParkedPaths(logs) == [] then k else k + 1;
    PlanWithin(wf.steps, 0, [], Root, {}, Forks(c, wf.roll));
    PlanWithin(wf.steps, 0, [], Root, started, forks);
    StartedOnRoute(wf, logs, route, k);
    PlanKeepsWay(wf.steps, 0, [], Root, started, n, false, Forks(c, wf.roll), forks);
    SamePrefixAligned(route, plan, n, k, logs);
  }

  lemma SamePrefixAligned(route: seq<Leaf>, plan: seq<Leaf>, n: nat, k: nat, logs: seq<ActionLog>)
    requires Aligned(route, k, logs) && n == (if ParkedPaths(logs) == [] then k else k + 1)
    requires DistinctPaths(plan) && route[..n] <= plan
    ensures Aligned(plan, k, logs)
  {
    assert forall i :: 0 <= i < n ==> plan[i] == plan[..n][i] == route[..n][i];
    assert PathsOf(plan)[..k] == PathsOf(route)[..k];
  }

  /** Every plan is itself the route of some decisions: the old ones under what has started, the new ones elsewhere. */
  lemma PlanIsOwnRoute(wf: Workflow, logs: seq<ActionLog>, c: Verdicts, k: nat, forks: Forks)
    requires LogsOk(wf, logs) && forks.roll == wf.roll && Aligned(Route(wf, c), k, logs)
    ensures RootPlan(wf.steps, StartedPaths(logs), forks) == Route(wf, Follow(StartedPaths(logs), c, forks.condition))
  {
    var started := StartedPaths(logs);
    PlanWithin(wf.steps, 0, [], Root, {}, Forks(c, wf.roll));
    StartedOnRoute(wf, logs, Route(wf, c), k);
    forall q | q in started ensures exists l | l in Leaves(wf.steps) :: l.path == q {
      var i :| 0 <= i < |logs| && (logs[i].status == LogSuccess || logs[i].status == LogWaiting) && logs[i].path == q;
      assert RowOk(wf, logs[i]);
    }
    PlanFollows(wf.steps, 0, [], Root, started, if ParkedPaths(logs) == [] then k else k + 1, c, forks.condition, wf.roll);
  }

  lemma StartedOnRoute(wf: Workflow, logs: seq<ActionLog>, route: seq<Leaf>, k: nat)
    requires Aligned(route, k, logs)
    requires forall l | l in route :: IsLeafOf(wf, l)
    ensures var n := if ParkedPaths(logs) == [] then k else k + 1;
            forall l | l in Leaves(wf.steps) :: l.path in StartedPaths(logs) <==> l in route[..n]
  {
    var n := if ParkedPaths(logs) == [] then k else k + 1;
    StartedIs(logs);
    if n > k { assert PathsOf(route)[..n] == PathsOf(route)[..k] + [route[k].path]; }
    assert forall p :: p in StartedPaths(logs) <==> p in PathsOf(route)[..n];
    forall l | l in Leaves(wf.steps) ensures l.path in StartedPaths(logs) <==> l in route[..n] {
      if l.path in PathsOf(route)[..n] {
        var i :| 0 <= i < n && PathsOf(route)[i] == l.path;
        SamePathSameLeaf(wf, route[i], l);
        assert route[..n][i] == l;
      }
      if l in route[..n] {
        var i :| 0 <= i < n && route[..n][i] == l;
        assert PathsOf(route)[..n][i] == l.path;
      }
    }
  }

  lemma SamePathSameLeaf(wf: Workflow, l: Leaf, m: Leaf)
    requires IsLeafOf(wf, l) && IsLeafOf(wf, m) && l.path == m.path
    ensures l == m
  {
    LeavesDistinct(wf.steps, 0, [], Root);
  }

  /** One attempt on an aligned table ends aligned, further on or at the same place. */
  lemma AttemptAligned(wf: Workflow, db: Db, env: Env, k: nat) returns (k': nat)
    requires DbOk(wf, db)
    requires Aligned(RootPlan(wf.steps, StartedPaths(db.logs), ForksOf(wf, env)), k, db.logs)
    ensures var plan := RootPlan(wf.steps, StartedPaths(db.logs), ForksOf(wf, env));
            var next := Attempt(wf, db, env);
            && k <= k' && Aligned(plan, k', next.logs)
            && (next == db || (next.run.status.Completed? ==> k' == |plan| && ParkedPaths(next.logs) == []))
  {
    k' := k;
    if (db.run.status.Pending? || db.run.status.Running?) && env.locks && env.loads && wf.steps != [] {
      var plan := RootPlan(wf.steps, StartedPaths(db.logs), ForksOf(wf, env));
      PlanWithin(wf.steps, 0, [], Root, StartedPaths(db.logs), ForksOf(wf, env));
      assert plan[0..] == plan;
      SkipsCommitted(IndexOf(wf), Claimed(db), plan, 0, k, env);
      k' := RunLeavesAligned(wf, Claimed(db), plan, k, env);
      RunLeavesKeeps(wf, Claimed(db), plan, env);
      NeverCompletesInside(wf, Claimed(db), plan, env);
    }
  }

  /** Only the attempt's last write completes the run. */
  lemma {:induction false} NeverCompletesInside(wf: Workflow, db: Db, leaves: seq<Leaf>, env: Env)
    requires !db.run.status.Completed?
    ensures !RunLeaves(IndexOf(wf), db, leaves, env).0.run.status.Completed?
    decreases |leaves|
  {
    if leaves != [] {
      var (mid, o) := LeafOp(IndexOf(wf), db, leaves[0], env.tick(leaves[0].path));
      assert !mid.run.status.Completed?;
      if o.Proceed? {
        NeverCompletesInside(wf, mid, leaves[1..], env);
      }
    }
  }

  lemma {:induction false} AlwaysOnRoute(wf: Workflow, events: seq<Event>)
    requires Solid(wf.steps, 0, false)
    ensures OnRoute(wf, After(wf, events).db)
    decreases |events|
  {
    if events == [] {
      var never := (_, _) => false;
      PlanWithin(wf.steps, 0, [], Root, {}, Forks(never, wf.roll));
      assert AlongRoute(wf, NewRun(), never, 0);
    } else {
      var rest, e := events[..|events| - 1], events[|events| - 1];
      AlwaysOnRoute(wf, rest);
      AlwaysOk(wf, rest);
      StepOnRoute(wf, After(wf, rest), e);
    }
  }

  lemma StepOnRoute(wf: Workflow, w: World, e: Event)
    requires Solid(wf.steps, 0, false) && DbOk(wf, w.db) && OnRoute(wf, w.db)
    ensures OnRoute(wf, Step1(wf, w, e).db)
  {
    var c, k :| AlongRoute(wf, w.db, c, k);
    if e.AttemptRun? {
      NextPlanAligned(wf, w.db.logs, c, k, ForksOf(wf, e.env));
      PlanIsOwnRoute(wf, w.db.logs, c, k, ForksOf(wf, e.env));
      var k' := AttemptAligned(wf, w.db, e.env, k);
      var followed := Follow(StartedPaths(w.db.logs), c, e.env.condition);
      if Attempt(wf, w.db, e.env) != w.db { assert AlongRoute(wf, Step1(wf, w, e).db, followed, k'); }
    } else {
      OthersKeepAligned(wf, w, e, Route(wf, c), k);
      assert AlongRoute(wf, Step1(wf, w, e).db, c, k);
    }
  }
}
