/** Facts about the action-log table: what one step may do to it, and what every attempt and sweep keeps. */
module RunLogs {
  import opened Common
  import opened StepTree
  import opened RunStore

  /* ---- Table invariants, for any tree ---- */

  predicate IsLeafOf(wf: Workflow, leaf: Leaf) { leaf in Leaves(wf.steps) }

  /** The row belongs to a leaf of the tree, of the matching kind. */
  predicate RowOk(wf: Workflow, row: ActionLog) {
    && (exists l | l in Leaves(wf.steps) :: l.path == row.path && (row.kind.DelayRow? <==> l.step.Delay?))
    && (row.status.LogWaiting? ==> row.kind.DelayRow? && row.output.WaitOutput?)
  }

  /** Once a path has a success or a waiting row, no later row is ever written for it. */
  predicate FinalRowIsLast(logs: seq<ActionLog>) {
    forall i, j :: 0 <= i < j < |logs| && logs[i].path == logs[j].path ==>
      !logs[i].status.LogSuccess? && !logs[i].status.LogWaiting?
  }

  predicate LogsOk(wf: Workflow, logs: seq<ActionLog>) {
    (forall i :: 0 <= i < |logs| ==> RowOk(wf, logs[i])) && FinalRowIsLast(logs)
  }

  /** A waiting run is parked on a waiting row and wakes at that row's deadline. */
  predicate WakesAtDeadline(db: Db) {
    db.run.status.Waiting? ==>
      exists i | 0 <= i < |db.logs| ::
        db.logs[i].status.LogWaiting? && db.run.wakeAt == Some(WakeAtFromLog(db.logs[i].output))
  }

  predicate DbOk(wf: Workflow, db: Db) {
    && LogsOk(wf, db.logs)
    && db.run.retryCount <= MAX_RETRIES
    && db.run.completedActions <= DoneKeys(IndexOf(wf), db.logs)
    && WakesAtDeadline(db)
  }

  /* ---- How rows may change ---- */

  predicate RowEvolves(a: ActionLog, b: ActionLog) {
    && a.path == b.path && a.kind == b.kind && a.attemptNo == b.attemptNo
    && (!a.status.LogWaiting? ==> b == a)
    && (a.status.LogWaiting? ==> b.status.LogSuccess? || StillWaiting(a, b))
  }

  predicate StillWaiting(a: ActionLog, b: ActionLog) {
    && b.status.LogWaiting? && a.output.WaitOutput? && b.output.WaitOutput?
    && b.output.wakeAt == a.output.wakeAt
    && (a.output.eventSatisfied ==> b.output.eventSatisfied)
  }

  /** The later table keeps every row; only a waiting row changes, and never its deadline. */
  predicate Evolves(a: seq<ActionLog>, b: seq<ActionLog>) {
    |a| <= |b| && forall i :: 0 <= i < |a| ==> RowEvolves(a[i], b[i])
  }

  lemma EvolvesTransitive(a: seq<ActionLog>, b: seq<ActionLog>, c: seq<ActionLog>)
    requires Evolves(a, b) && Evolves(b, c)
    ensures Evolves(a, c)
  {
    forall i | 0 <= i < |a| ensures RowEvolves(a[i], c[i]) {
      assert RowEvolves(a[i], b[i]) && RowEvolves(b[i], c[i]);
    }
  }

  lemma EvolvesKeepsDone(index: map<Path, StepId>, a: seq<ActionLog>, b: seq<ActionLog>)
    requires Evolves(a, b)
    ensures DoneKeys(index, a) <= DoneKeys(index, b)
    ensures forall p :: IsDone(a, p) ==> IsDone(b, p)
    ensures StartedPaths(a) <= StartedPaths(b)
  {
    forall k | k in DoneKeys(index, a) ensures k in DoneKeys(index, b) {
      var i :| 0 <= i < |a| && a[i].status == LogSuccess && k in KeysAt(index, a[i].path);
      assert RowEvolves(a[i], b[i]);
    }
    forall p | IsDone(a, p) ensures IsDone(b, p) {
      var i :| 0 <= i < |a| && a[i].status == LogSuccess && a[i].path == p;
      assert RowEvolves(a[i], b[i]);
    }
    forall p | p in StartedPaths(a) ensures p in StartedPaths(b) {
      var i :| 0 <= i < |a| && (a[i].status == LogSuccess || a[i].status == LogWaiting) && a[i].path == p;
      assert RowEvolves(a[i], b[i]);
    }
  }

  /* ---- The shape of one step ---- */

  /** The step left the table alone. */
  predicate Unwritten(db: Db, leaf: Leaf, next: Db, o: Outcome) {
    && next.logs == db.logs
    && (o.Proceed? ==> IsDone(db.logs, leaf.path))
  }

  /** The step added one row for its own path, which had neither finished nor parked. */
  predicate Appended(db: Db, leaf: Leaf, next: Db, o: Outcome) {
    && |next.logs| == |db.logs| + 1
    && next.logs == db.logs + [next.logs[|db.logs|]]
    && !IsDone(db.logs, leaf.path) && FindWaiting(db.logs, leaf.path) < 0
    && var row := next.logs[|db.logs|];
    && row.path == leaf.path
    && (row.kind.DelayRow? <==> leaf.step.Delay?)
    && (row.status.LogWaiting? ==> leaf.step.Delay? && row.output.WaitOutput?)
    && (o.Proceed? ==> row.status.LogSuccess?)
  }

  /** The step turned its parked row into a success. */
  predicate Flipped(db: Db, leaf: Leaf, next: Db, o: Outcome) {
    var w := FindWaiting(db.logs, leaf.path);
    && leaf.step.Delay?
    && w >= 0 && !IsDone(db.logs, leaf.path)
    && |next.logs| == |db.logs|
    && next.logs == db.logs[w := next.logs[w]]
    && next.logs[w].status.LogSuccess?
    && RowEvolves(db.logs[w], next.logs[w])
  }

  lemma OpShape(index: map<Path, StepId>, db: Db, leaf: Leaf, t: Tick)
    requires !leaf.step.Delay? ==> FindWaiting(db.logs, leaf.path) < 0
    ensures var (next, o) := LeafOp(index, db, leaf, t);
            Unwritten(db, leaf, next, o) || Appended(db, leaf, next, o) || Flipped(db, leaf, next, o)
  {
    if leaf.step.Delay? { DelayShape(index, db, leaf, t); } else { ActionShape(index, db, leaf, t); }
  }

  lemma ActionShape(index: map<Path, StepId>, db: Db, leaf: Leaf, t: Tick)
    requires !leaf.step.Delay? && FindWaiting(db.logs, leaf.path) < 0
    ensures var (next, o) := ActionOp(index, db, leaf, t); Unwritten(db, leaf, next, o) || Appended(db, leaf, next, o)
  {
  }

  lemma DelayShape(index: map<Path, StepId>, db: Db, leaf: Leaf, t: Tick)
    requires leaf.step.Delay?
    ensures var (next, o) := DelayOp(index, db, leaf, t);
            Unwritten(db, leaf, next, o) || Appended(db, leaf, next, o) || Flipped(db, leaf, next, o)
  {
    var w := FindWaiting(db.logs, leaf.path);
    if !IsDone(db.logs, leaf.path) {
      if w >= 0 { ResumeShape(index, db, leaf, w, t); } else { EnterShape(index, db, leaf, t); }
    }
  }

  lemma ResumeShape(index: map<Path, StepId>, db: Db, leaf: Leaf, w: nat, t: Tick)
    requires leaf.step.Delay? && !IsDone(db.logs, leaf.path) && w == FindWaiting(db.logs, leaf.path)
    ensures var (next, o) := ResumeWait(index, db, leaf, w, t); Unwritten(db, leaf, next, o) || Flipped(db, leaf, next, o)
  {
  }

  lemma EnterShape(index: map<Path, StepId>, db: Db, leaf: Leaf, t: Tick)
    requires leaf.step.Delay? && !IsDone(db.logs, leaf.path) && FindWaiting(db.logs, leaf.path) < 0
    ensures var (next, o) := EnterWait(index, db, leaf, t); Unwritten(db, leaf, next, o) || Appended(db, leaf, next, o)
  {
  }

  lemma ShapeEvolves(db: Db, leaf: Leaf, next: Db, o: Outcome)
    requires Unwritten(db, leaf, next, o) || Appended(db, leaf, next, o) || Flipped(db, leaf, next, o)
    requires forall i :: 0 <= i < |db.logs| && db.logs[i].status.LogWaiting? ==> db.logs[i].output.WaitOutput?
    ensures Evolves(db.logs, next.logs)
    ensures StartedPaths(next.logs) <= StartedPaths(db.logs) + {leaf.path}
    ensures o.Proceed? ==> leaf.path in StartedPaths(next.logs)
  {
    forall p | p in StartedPaths(next.logs) ensures p in StartedPaths(db.logs) + {leaf.path} {
      var i :| 0 <= i < |next.logs| && (next.logs[i].status == LogSuccess || next.logs[i].status == LogWaiting) && next.logs[i].path == p;
    }
  }

  lemma ShapeKeepsLogsOk(wf: Workflow, db: Db, leaf: Leaf, next: Db, o: Outcome)
    requires IsLeafOf(wf, leaf) && LogsOk(wf, db.logs)
    requires Unwritten(db, leaf, next, o) || Appended(db, leaf, next, o) || Flipped(db, leaf, next, o)
    ensures LogsOk(wf, next.logs)
  {
    if Flipped(db, leaf, next, o) {
      var w := FindWaiting(db.logs, leaf.path);
      forall i | 0 <= i < |next.logs| ensures RowOk(wf, next.logs[i]) {
        assert RowOk(wf, db.logs[i]);
      }
    } else if Appended(db, leaf, next, o) {
      var n := |db.logs|;
      forall i | 0 <= i < |next.logs| ensures RowOk(wf, next.logs[i]) {
        if i < n { assert RowOk(wf, db.logs[i]); }
      }
      forall i | 0 <= i < n && next.logs[i].path == leaf.path
        ensures !next.logs[i].status.LogSuccess? && !next.logs[i].status.LogWaiting?
      {
        assert next.logs[i] == db.logs[i];
      }
    }
  }

  /** An action leaf never has a waiting row. */
  lemma NoWaitingAction(wf: Workflow, logs: seq<ActionLog>, leaf: Leaf)
    requires IsLeafOf(wf, leaf) && LogsOk(wf, logs) && !leaf.step.Delay?
    ensures FindWaiting(logs, leaf.path) < 0
  {
    var w := FindWaiting(logs, leaf.path);
    if w >= 0 {
      assert RowOk(wf, logs[w]);
      var l :| l in Leaves(wf.steps) && l.path == leaf.path && l.step.Delay?;
      LeavesDistinct(wf.steps, 0, [], Root);
    }
  }

  /* ---- One step keeps the invariants ---- */

  lemma OpKeeps(wf: Workflow, db: Db, leaf: Leaf, t: Tick)
    requires IsLeafOf(wf, leaf) && DbOk(wf, db) && db.run.status.Running?
    ensures var (next, o) := LeafOp(IndexOf(wf), db, leaf, t);
            && DbOk(wf, next)
            && Evolves(db.logs, next.logs)
            && StartedPaths(next.logs) <= StartedPaths(db.logs) + {leaf.path}
            && (o.Proceed? ==> next.run.status.Running? && leaf.path in StartedPaths(next.logs))
  {
    var index := IndexOf(wf);
    var (next, o) := LeafOp(index, db, leaf, t);
    if !leaf.step.Delay? {
      NoWaitingAction(wf, db.logs, leaf);
    }
    OpShape(index, db, leaf, t);
    assert forall i :: 0 <= i < |db.logs| ==> RowOk(wf, db.logs[i]);
    ShapeEvolves(db, leaf, next, o);
    ShapeKeepsLogsOk(wf, db, leaf, next, o);
    EvolvesKeepsDone(index, db.logs, next.logs);
    OpKeepsRunRow(wf, db, leaf, t);
  }

  lemma OpKeepsRunRow(wf: Workflow, db: Db, leaf: Leaf, t: Tick)
    requires db.run.retryCount <= MAX_RETRIES && db.run.status.Running?
    ensures var (next, o) := LeafOp(IndexOf(wf), db, leaf, t);
            && next.run.retryCount <= MAX_RETRIES
            && (next.run.completedActions == db.run.completedActions || next.run.completedActions == DoneKeys(IndexOf(wf), next.logs))
            && WakesAtDeadline(next)
            && (o.Proceed? ==> next.run.status.Running?)
  {
    if leaf.step.Delay? { DelayWakes(wf, db, leaf, t); }
  }

  /** A delay that leaves the run waiting leaves it waiting for its own row's deadline. */
  lemma DelayWakes(wf: Workflow, db: Db, leaf: Leaf, t: Tick)
    requires leaf.step.Delay? && db.run.status.Running?
    ensures WakesAtDeadline(DelayOp(IndexOf(wf), db, leaf, t).0)
  {
    var next := DelayOp(IndexOf(wf), db, leaf, t).0;
    if next.run.status.Waiting? {
      var w := FindWaiting(db.logs, leaf.path);
      assert next.logs[if w >= 0 then w else |db.logs|].status.LogWaiting?;
    }
  }

  lemma OneLeafRun(index: map<Path, StepId>, db: Db, leaf: Leaf, env: Env)
    ensures RunLeaves(index, db, [leaf], env) == LeafOp(index, db, leaf, env.tick(leaf.path))
  {
    var (next, o) := LeafOp(index, db, leaf, env.tick(leaf.path));
    assert [leaf][1..] == [];
    assert RunLeaves(index, next, [], env) == (next, Proceed);
  }

  /** Runs of leaves compose. */
  lemma {:induction false} RunLeavesConcat(index: map<Path, StepId>, db: Db, a: seq<Leaf>, b: seq<Leaf>, env: Env)
    ensures RunLeaves(index, db, a + b, env) ==
            var (mid, o) := RunLeaves(index, db, a, env);
            if o.Proceed? then RunLeaves(index, mid, b, env) else (mid, o)
    decreases |a|
  {
    if a == [] {
      assert a + b == b;
    } else {
      var (mid, o) := LeafOp(index, db, a[0], env.tick(a[0].path));
      assert (a + b)[0] == a[0] && (a + b)[1..] == a[1..] + b;
      if o.Proceed? {
        RunLeavesConcat(index, mid, a[1..], b, env);
      }
    }
  }

  lemma StartedInParts(leaves: seq<Leaf>, a: set<Path>, b: set<Path>, c: set<Path>)
    requires leaves != [] && b <= a + {leaves[0].path} && forall p | p in c :: p in b || p in PathsOf(leaves[1..])
    ensures forall p | p in c :: p in a || p in PathsOf(leaves)
  {
    assert PathsOf(leaves) == [leaves[0].path] + PathsOf(leaves[1..]);
  }

  lemma {:induction false} RunLeavesKeeps(wf: Workflow, db: Db, leaves: seq<Leaf>, env: Env)
    requires DbOk(wf, db) && db.run.status.Running?
    requires forall l | l in leaves :: IsLeafOf(wf, l)
    ensures var (next, o) := RunLeaves(IndexOf(wf), db, leaves, env);
            && DbOk(wf, next)
            && Evolves(db.logs, next.logs)
            && (forall p | p in StartedPaths(next.logs) :: p in StartedPaths(db.logs) || p in PathsOf(leaves))
            && (o.Proceed? ==> next.run.status.Running?)
    decreases |leaves|
  {
    if leaves == [] {
    } else {
      var (mid, o) := LeafOp(IndexOf(wf), db, leaves[0], env.tick(leaves[0].path));
      OpKeeps(wf, db, leaves[0], env.tick(leaves[0].path));
      assert leaves[0].path == PathsOf(leaves)[0];
      if o.Proceed? {
        var rest := leaves[1..];
        RunLeavesKeeps(wf, mid, rest, env);
        var (next, _) := RunLeaves(IndexOf(wf), mid, rest, env);
        EvolvesTransitive(db.logs, mid.logs, next.logs);
        StartedInParts(leaves, StartedPaths(db.logs), StartedPaths(mid.logs), StartedPaths(next.logs));
      }
    }
  }

  /* ---- Every event keeps them ---- */

  lemma AttemptKeeps(wf: Workflow, db: Db, env: Env)
    requires DbOk(wf, db)
    ensures DbOk(wf, Attempt(wf, db, env))
    ensures Evolves(db.logs, Attempt(wf, db, env).logs)
    ensures var plan := RootPlan(wf.steps, StartedPaths(db.logs), ForksOf(wf, env));
            forall p | p in StartedPaths(Attempt(wf, db, env).logs) :: p in StartedPaths(db.logs) || p in PathsOf(plan)
  {
    assert Evolves(db.logs, db.logs) by {
      assert forall i :: 0 <= i < |db.logs| ==> RowOk(wf, db.logs[i]);
    }
    if (db.run.status.Pending? || db.run.status.Running?) && env.locks && env.loads && wf.steps != [] {
      var plan := RootPlan(wf.steps, StartedPaths(db.logs), ForksOf(wf, env));
      PlanWithin(wf.steps, 0, [], Root, StartedPaths(db.logs), ForksOf(wf, env));
      RunLeavesKeeps(wf, Claimed(db), plan, env);
    }
  }

  lemma StampKeeps(wf: Workflow, logs: seq<ActionLog>, path: Path)
    requires LogsOk(wf, logs)
    ensures LogsOk(wf, StampRows(logs, path))
    ensures Evolves(logs, StampRows(logs, path))
    ensures DoneKeys(IndexOf(wf), StampRows(logs, path)) == DoneKeys(IndexOf(wf), logs)
    ensures StartedPaths(StampRows(logs, path)) == StartedPaths(logs)
  {
    var stamped := StampRows(logs, path);
    forall i | 0 <= i < |logs| ensures RowOk(wf, stamped[i]) && RowEvolves(logs[i], stamped[i]) {
      assert RowOk(wf, logs[i]);
    }
    EvolvesKeepsDone(IndexOf(wf), logs, stamped);
    forall k | k in DoneKeys(IndexOf(wf), stamped) ensures k in DoneKeys(IndexOf(wf), logs) {
      var i :| 0 <= i < |stamped| && stamped[i].status == LogSuccess && k in KeysAt(IndexOf(wf), stamped[i].path);
      assert logs[i].status == LogSuccess && logs[i].path == stamped[i].path;
    }
    forall p | p in StartedPaths(stamped) ensures p in StartedPaths(logs) {
      var i :| 0 <= i < |stamped| && (stamped[i].status == LogSuccess || stamped[i].status == LogWaiting) && stamped[i].path == p;
      assert logs[i].status == stamped[i].status && logs[i].path == p;
    }
  }

  lemma EventKeeps(wf: Workflow, w: World, e: Event)
    requires DbOk(wf, w.db)
    ensures DbOk(wf, Step1(wf, w, e).db)
    ensures Evolves(w.db.logs, Step1(wf, w, e).db.logs)
    ensures !e.AttemptRun? ==> StartedPaths(Step1(wf, w, e).db.logs) == StartedPaths(w.db.logs)
  {
    assert forall i :: 0 <= i < |w.db.logs| ==> RowOk(wf, w.db.logs[i]);
    match e
    case AttemptRun(env) => AttemptKeeps(wf, w.db, env);
    case SatisfyRun(path, _) => StampKeeps(wf, w.db.logs, path);
    case _ =>
  }

  /** In every reachable state the tables satisfy their invariants. */
  lemma {:induction false} AlwaysOk(wf: Workflow, events: seq<Event>)
    ensures DbOk(wf, After(wf, events).db)
    decreases |events|
  {
    if events != [] {
      AlwaysOk(wf, events[..|events| - 1]);
      EventKeeps(wf, After(wf, events[..|events| - 1]), events[|events| - 1]);
    }
  }

  /** Rows only ever evolve along a schedule. */
  lemma {:induction false} AlwaysEvolves(wf: Workflow, before: seq<Event>, later: seq<Event>)
    ensures Evolves(After(wf, before).db.logs, After(wf, before + later).db.logs)
    decreases |later|
  {
    AlwaysOk(wf, before);
    var logs := After(wf, before).db.logs;
    if later == [] {
      assert before + later == before;
      assert forall i :: 0 <= i < |logs| ==> RowOk(wf, logs[i]);
    } else {
      var rest := later[..|later| - 1];
      var all := before + later;
      assert all[..|all| - 1] == before + rest;
      AlwaysEvolves(wf, before, rest);
      AlwaysOk(wf, before + rest);
      EventKeeps(wf, After(wf, before + rest), later[|later| - 1]);
      EvolvesTransitive(logs, After(wf, before + rest).db.logs, After(wf, all).db.logs);
    }
  }
}
