/** What holds in every state a run can reach, under any schedule of attempts, crashes, sweeps, events and retries. */
module RunSafety {
  import opened Common
  import opened StepTree
  import opened RunStore
  import opened RunLogs
  import opened RunRoutes

  /* ---- Committed work is never repeated ---- */

  /** Once a step's success is committed no later row is written for it, and its own row, output included, stays as it is. */
  lemma NeverRerun(wf: Workflow, before: seq<Event>, later: seq<Event>, i: nat)
    requires i < |After(wf, before).db.logs| && After(wf, before).db.logs[i].status.LogSuccess?
    ensures var now, then_ := After(wf, before).db.logs, After(wf, before + later).db.logs;
            && i < |then_| && then_[i] == now[i]
            && forall j :: i < j < |then_| ==> then_[j].path != now[i].path
  {
    AlwaysEvolves(wf, before, later);
    AlwaysOk(wf, before + later);
    assert RowEvolves(After(wf, before).db.logs[i], After(wf, before + later).db.logs[i]);
  }

  /** CompletedActions never names a step that has no success row. */
  lemma CompletedActionsHonest(wf: Workflow, events: seq<Event>, key: Key)
    requires key in After(wf, events).db.run.completedActions
    ensures exists i | 0 <= i < |After(wf, events).db.logs| ::
              && After(wf, events).db.logs[i].status.LogSuccess?
              && key in KeysAt(IndexOf(wf), After(wf, events).db.logs[i].path)
  {
    AlwaysOk(wf, events);
  }

  /* ---- One branch only ---- */

  lemma {:induction false} NothingStartedIsPinned(steps: seq<Step>, i: nat, parent: Path, branch: Branch)
    requires i <= |steps|
    ensures Pinned(steps, i, parent, branch, {})
    decreases steps, 1, |steps| - i
  {
    if i < |steps| {
      if steps[i].IsFork() {
        NothingStartedIsPinned(steps[i].yesSteps, 0, BuildStepPath(parent, branch, i), Yes);
        NothingStartedIsPinned(steps[i].noSteps, 0, BuildStepPath(parent, branch, i), No);
      }
      NothingStartedIsPinned(steps, i + 1, parent, branch);
    }
  }

  /** At no time does any fork, in any tree, hold success or waiting logs in both branches. */
  lemma {:induction false} BranchesPinned(wf: Workflow, events: seq<Event>)
    ensures Pinned(wf.steps, 0, [], Root, StartedPaths(After(wf, events).db.logs))
    decreases |events|
  {
    if events == [] {
      assert StartedPaths([]) == {};
      NothingStartedIsPinned(wf.steps, 0, [], Root);
    } else {
      var w, e := After(wf, events[..|events| - 1]), events[|events| - 1];
      BranchesPinned(wf, events[..|events| - 1]);
      AlwaysOk(wf, events[..|events| - 1]);
      EventKeeps(wf, w, e);
      if e.AttemptRun? {
        PinnedAfterAttempt(wf, w.db, e.env);
      }
    }
  }

  /** What an attempt starts lies on its plan. */
  lemma AttemptStartsOnPlan(wf: Workflow, db: Db, env: Env)
    requires DbOk(wf, db)
    ensures var started, after := StartedPaths(db.logs), StartedPaths(Attempt(wf, db, env).logs);
            forall l | l in Leaves(wf.steps) && l.path in after :: l.path in started || l in RootPlan(wf.steps, started, ForksOf(wf, env))
  {
    var started, after := StartedPaths(db.logs), StartedPaths(Attempt(wf, db, env).logs);
    var plan := RootPlan(wf.steps, started, ForksOf(wf, env));
    AttemptKeeps(wf, db, env);
    PlanWithin(wf.steps, 0, [], Root, started, ForksOf(wf, env));
    forall l | l in Leaves(wf.steps) && l.path in after ensures l.path in started || l in plan {
      if l.path !in started {
        var i :| 0 <= i < |plan| && PathsOf(plan)[i] == l.path;
        SamePathSameLeaf(wf, plan[i], l);
      }
    }
  }

  lemma PinnedAfterAttempt(wf: Workflow, db: Db, env: Env)
    requires DbOk(wf, db) && Pinned(wf.steps, 0, [], Root, StartedPaths(db.logs))
    ensures Pinned(wf.steps, 0, [], Root, StartedPaths(Attempt(wf, db, env).logs))
  {
    AttemptStartsOnPlan(wf, db, env);
    PlanKeepsPinned(wf.steps, 0, [], Root, StartedPaths(db.logs), StartedPaths(Attempt(wf, db, env).logs), ForksOf(wf, env));
  }

  /* ---- One route ---- */

  /**
   In a solid tree, forks last or not, the committed steps are in order the beginning of the route of one walk, whatever
   the conditions said at each attempt; a completed run committed all of it.
   */
  lemma OneRoute(wf: Workflow, events: seq<Event>)
    requires Solid(wf.steps, 0, false)
    ensures exists c: Verdicts ::
              && Committed(After(wf, events).db.logs) <= PathsOf(Route(wf, c))
              && (After(wf, events).db.run.status.Completed? ==> Committed(After(wf, events).db.logs) == PathsOf(Route(wf, c)))
  {
    AlwaysOnRoute(wf, events);
    var db := After(wf, events).db;
    var c, k :| AlongRoute(wf, db, c, k);
    assert Committed(db.logs) <= PathsOf(Route(wf, c));
  }

  /* ---- Parking ---- */

  /** Solid trees: a waiting run has exactly one waiting row, and wakes at that row's deadline. */
  lemma ParkedOnce(wf: Workflow, events: seq<Event>)
    requires Solid(wf.steps, 0, false)
    ensures var db := After(wf, events).db;
            db.run.status.Waiting? ==>
              exists i | 0 <= i < |db.logs| ::
                && db.logs[i].status.LogWaiting?
                && db.run.wakeAt == Some(WakeAtFromLog(db.logs[i].output))
                && forall j | 0 <= j < |db.logs| :: db.logs[j].status.LogWaiting? ==> j == i
  {
    var db := After(wf, events).db;
    AlwaysOk(wf, events);
    AlwaysOnRoute(wf, events);
    if db.run.status.Waiting? {
      var i :| 0 <= i < |db.logs| && db.logs[i].status.LogWaiting? && db.run.wakeAt == Some(WakeAtFromLog(db.logs[i].output));
      forall j | 0 <= j < |db.logs| && db.logs[j].status.LogWaiting? ensures j == i {
        PathsWithMember(db.logs, LogWaiting, db.logs[i].path);
        PathsWithMember(db.logs, LogWaiting, db.logs[j].path);
        assert |ParkedPaths(db.logs)| == 1;
      }
    }
  }

  /** Nothing, neither a re-park nor a crash nor an event, moves a parked row's deadline while it waits. */
  lemma DeadlineFixed(wf: Workflow, before: seq<Event>, later: seq<Event>, i: nat)
    requires i < |After(wf, before).db.logs| && After(wf, before).db.logs[i].status.LogWaiting?
    ensures var now, then_ := After(wf, before).db.logs, After(wf, before + later).db.logs;
            && i < |then_| && then_[i].path == now[i].path
            && (then_[i].status.LogSuccess?
                || (then_[i].status.LogWaiting? && WakeAtFromLog(then_[i].output) == WakeAtFromLog(now[i].output)))
  {
    AlwaysEvolves(wf, before, later);
    assert RowEvolves(After(wf, before).db.logs[i], After(wf, before + later).db.logs[i]);
  }

  /** Why a parked row may finish, and what its output then says. */
  predicate RightlyFinished(row: ActionLog, finished: ActionLog, step: Step, t: Tick) {
    && finished.output.WaitOutput?
    && if step.IsWaitEvent() && EventSatisfiedFromLog(row.output) then
         finished.output.happened == Some(true) && finished.output.timedOut == Some(false)
       else
         && t.now >= WakeAtFromLog(row.output)
         && finished.output.wakeAt == WakeAtFromLog(row.output)
         && (step.IsWaitEvent() ==> finished.output.happened == Some(false) && finished.output.timedOut == Some(true))
  }

  lemma OpFinishesRightly(wf: Workflow, db: Db, leaf: Leaf, t: Tick, i: nat)
    requires IsLeafOf(wf, leaf) && LogsOk(wf, db.logs)
    requires i < |db.logs| && db.logs[i].status.LogWaiting?
    ensures var next := LeafOp(IndexOf(wf), db, leaf, t).0;
            && i < |next.logs|
            && (next.logs[i] == db.logs[i]
                || (next.logs[i].status.LogSuccess? && leaf.path == db.logs[i].path
                    && RightlyFinished(db.logs[i], next.logs[i], leaf.step, t)))
  {
    if !leaf.step.Delay? { NoWaitingAction(wf, db.logs, leaf); }
    OpShape(IndexOf(wf), db, leaf, t);
  }

  lemma {:induction false} WalkFinishesRightly(wf: Workflow, db: Db, leaves: seq<Leaf>, env: Env, i: nat)
    requires DbOk(wf, db) && db.run.status.Running?
    requires forall l | l in leaves :: IsLeafOf(wf, l)
    requires i < |db.logs| && db.logs[i].status.LogWaiting?
    ensures var next := RunLeaves(IndexOf(wf), db, leaves, env).0;
            && i < |next.logs|
            && (next.logs[i].status.LogSuccess? ==>
                  exists l | l in leaves :: l.path == db.logs[i].path && RightlyFinished(db.logs[i], next.logs[i], l.step, env.tick(l.path)))
    decreases |leaves|
  {
    if leaves != [] {
      var leaf, rest := leaves[0], leaves[1..];
      var (mid, o) := LeafOp(IndexOf(wf), db, leaf, env.tick(leaf.path));
      OpFinishesRightly(wf, db, leaf, env.tick(leaf.path), i);
      OpKeeps(wf, db, leaf, env.tick(leaf.path));
      if o.Proceed? {
        if mid.logs[i] == db.logs[i] {
          WalkFinishesRightly(wf, mid, rest, env, i);
        } else {
          RunLeavesKeeps(wf, mid, rest, env);
          assert RowEvolves(mid.logs[i], RunLeaves(IndexOf(wf), mid, rest, env).0.logs[i]);
        }
      }
    }
  }

  /**
   A parked step finishes in an attempt only at or after its deadline, or once an event was stamped on an
   event wait; `happened` says which, and `timedOut` is its negation.
   */
  lemma WaitFinishesRightly(wf: Workflow, events: seq<Event>, env: Env, i: nat)
    requires var logs := After(wf, events).db.logs; i < |logs| && logs[i].status.LogWaiting?
    ensures var db, next := After(wf, events).db, Attempt(wf, After(wf, events).db, env);
            && i < |next.logs|
            && (next.logs[i].status.LogSuccess? ==>
                  exists l | l in Leaves(wf.steps) ::
                    l.path == db.logs[i].path && RightlyFinished(db.logs[i], next.logs[i], l.step, env.tick(l.path)))
  {
    var db := After(wf, events).db;
    AlwaysOk(wf, events);
    AttemptKeeps(wf, db, env);
    if (db.run.status.Pending? || db.run.status.Running?) && env.locks && env.loads && wf.steps != [] {
      var started := StartedPaths(db.logs);
      var plan := RootPlan(wf.steps, started, ForksOf(wf, env));
      PlanWithin(wf.steps, 0, [], Root, started, ForksOf(wf, env));
      WalkFinishesRightly(wf, Claimed(db), plan, env, i);
    }
  }

  /* ---- Event waits ---- */

  predicate IsEventWaitPath(wf: Workflow, path: Path) {
    exists l | l in Leaves(wf.steps) :: l.path == path && l.step.IsWaitEvent()
  }

  /** The registered wait belongs to a step that is still parked with that deadline, or is over. */
  predicate WaitBacked(logs: seq<ActionLog>, path: Path, expiresAt: Time) {
    exists i | 0 <= i < |logs| ::
      && logs[i].path == path
      && (logs[i].status.LogSuccess? || (logs[i].status.LogWaiting? && WakeAtFromLog(logs[i].output) == expiresAt))
  }

  predicate WaitsOk(wf: Workflow, db: Db) {
    && (forall p | p in db.waits :: IsEventWaitPath(wf, p) && WaitBacked(db.logs, p, db.waits[p].expiresAt))
    && (forall i :: 0 <= i < |db.logs| && db.logs[i].status.LogWaiting? && EventSatisfiedFromLog(db.logs[i].output)
         ==> IsEventWaitPath(wf, db.logs[i].path))
  }

  lemma EvolvesKeepsBacked(a: seq<ActionLog>, b: seq<ActionLog>, path: Path, expiresAt: Time)
    requires Evolves(a, b) && WaitBacked(a, path, expiresAt)
    ensures WaitBacked(b, path, expiresAt)
  {
    var i :| 0 <= i < |a| && a[i].path == path
      && (a[i].status.LogSuccess? || (a[i].status.LogWaiting? && WakeAtFromLog(a[i].output) == expiresAt));
    assert RowEvolves(a[i], b[i]);
  }

  /** How one step may touch the event waits: not at all, drop them all, or register its own parked row. */
  lemma OpWaits(index: map<Path, StepId>, db: Db, leaf: Leaf, t: Tick)
    ensures var next := LeafOp(index, db, leaf, t).0;
            || next.waits == db.waits
            || next.waits == map[]
            || (leaf.step.IsWaitEvent()
                && |next.logs| > |db.logs|
                && next.logs[|db.logs|].status.LogWaiting? && next.logs[|db.logs|].path == leaf.path
                && leaf.path in next.waits
                && next.waits[leaf.path].expiresAt == WakeAtFromLog(next.logs[|db.logs|].output)
                && next.waits - {leaf.path} == db.waits - {leaf.path})
    ensures var next := LeafOp(index, db, leaf, t).0;
            forall i :: 0 <= i < |next.logs| && next.logs[i].status.LogWaiting? && EventSatisfiedFromLog(next.logs[i].output)
              ==> i < |db.logs| && next.logs[i] == db.logs[i]
  {
    OpStampsNothing(index, db, leaf, t);
  }

  /** No step stamps a waiting row: what is stamped after it was stamped before. */
  lemma OpStampsNothing(index: map<Path, StepId>, db: Db, leaf: Leaf, t: Tick)
    ensures var next := LeafOp(index, db, leaf, t).0;
            forall i :: 0 <= i < |next.logs| && next.logs[i].status.LogWaiting? && EventSatisfiedFromLog(next.logs[i].output)
              ==> i < |db.logs| && next.logs[i] == db.logs[i]
  {
  }

  lemma OpKeepsWaits(wf: Workflow, db: Db, leaf: Leaf, t: Tick)
    requires IsLeafOf(wf, leaf) && DbOk(wf, db) && db.run.status.Running? && WaitsOk(wf, db)
    ensures WaitsOk(wf, LeafOp(IndexOf(wf), db, leaf, t).0)
  {
    var next := LeafOp(IndexOf(wf), db, leaf, t).0;
    OpWaits(IndexOf(wf), db, leaf, t);
    OpKeeps(wf, db, leaf, t);
    forall p | p in next.waits ensures IsEventWaitPath(wf, p) && WaitBacked(next.logs, p, next.waits[p].expiresAt) {
      if p in db.waits && next.waits[p] == db.waits[p] {
        EvolvesKeepsBacked(db.logs, next.logs, p, db.waits[p].expiresAt);
      } else {
        assert p !in next.waits - {leaf.path} || p in db.waits - {leaf.path};
        assert p == leaf.path;
      }
    }
  }

  lemma {:induction false} RunLeavesKeepsWaits(wf: Workflow, db: Db, leaves: seq<Leaf>, env: Env)
    requires DbOk(wf, db) && db.run.status.Running? && WaitsOk(wf, db)
    requires forall l | l in leaves :: IsLeafOf(wf, l)
    ensures WaitsOk(wf, RunLeaves(IndexOf(wf), db, leaves, env).0)
    decreases |leaves|
  {
    if leaves != [] {
      var t := env.tick(leaves[0].path);
      var (mid, o) := LeafOp(IndexOf(wf), db, leaves[0], t);
      OpKeepsWaits(wf, db, leaves[0], t);
      OpKeeps(wf, db, leaves[0], t);
      if o.Proceed? {
        RunLeavesKeepsWaits(wf, mid, leaves[1..], env);
      }
    }
  }

  lemma EventKeepsWaits(wf: Workflow, w: World, e: Event)
    requires DbOk(wf, w.db) && WaitsOk(wf, w.db) && forall p | p in w.claimed :: IsEventWaitPath(wf, p)
    ensures WaitsOk(wf, Step1(wf, w, e).db)
    ensures forall p | p in Step1(wf, w, e).claimed :: IsEventWaitPath(wf, p)
  {
    var db := w.db;
    match e
    case AttemptRun(env) =>
      if (db.run.status.Pending? || db.run.status.Running?) && env.locks && env.loads && wf.steps != [] {
        var started := StartedPaths(db.logs);
        PlanWithin(wf.steps, 0, [], Root, started, ForksOf(wf, env));
        RunLeavesKeepsWaits(wf, Claimed(db), RootPlan(wf.steps, started, ForksOf(wf, env)), env);
      }
    case SatisfyRun(path, now) =>
      var next := Step1(wf, w, e).db;
      EventKeeps(wf, w, e);
      forall p | p in next.waits ensures WaitBacked(next.logs, p, next.waits[p].expiresAt) {
        EvolvesKeepsBacked(db.logs, next.logs, p, db.waits[p].expiresAt);
      }
    case _ =>
  }

  lemma {:induction false} AlwaysWaitsOk(wf: Workflow, events: seq<Event>)
    ensures WaitsOk(wf, After(wf, events).db)
    ensures forall p | p in After(wf, events).claimed :: IsEventWaitPath(wf, p)
    decreases |events|
  {
    if events != [] {
      AlwaysWaitsOk(wf, events[..|events| - 1]);
      AlwaysOk(wf, events[..|events| - 1]);
      EventKeepsWaits(wf, After(wf, events[..|events| - 1]), events[|events| - 1]);
    }
  }

  /** The step at the path is already over, or still parked with its deadline ahead. */
  predicate OverOrNotDue(logs: seq<ActionLog>, path: Path, now: Time) {
    exists i | 0 <= i < |logs| ::
      logs[i].path == path && (logs[i].status.LogSuccess? || (logs[i].status.LogWaiting? && now < WakeAtFromLog(logs[i].output)))
  }

  /** An event can claim a wait only at an event-wait step, and only before the parked row's deadline (or once the step is over). */
  lemma ClaimsBeforeDeadline(wf: Workflow, events: seq<Event>, path: Path, now: Time)
    requires Claimable(After(wf, events).db, path, now)
    ensures IsEventWaitPath(wf, path) && OverOrNotDue(After(wf, events).db.logs, path, now)
  {
    AlwaysWaitsOk(wf, events);
    var db := After(wf, events).db;
    var i :| 0 <= i < |db.logs| && db.logs[i].path == path
      && (db.logs[i].status.LogSuccess? || (db.logs[i].status.LogWaiting? && WakeAtFromLog(db.logs[i].output) == db.waits[path].expiresAt));
  }
}
