/** Waits over whole schedules: how long they last, what wakes them, and that a woken wait finishes. */
module RunTiming {
  import opened Common
  import opened StepTree
  import opened RunStore
  import opened RunLogs
  import opened RunRoutes
  import opened RunSafety

  /** The deadline is the configured one for a step met at the tick's clock, and lies ahead of it. */
  predicate LastsAsConfigured(step: Step, t: Tick, deadline: Time) {
    && step.Delay? && step.delay.Some? && deadline > t.now
    && var d := step.delay.value;
       if d.waitEvent != "" then deadline == t.now + d.timeoutSec
       else if d.untilField != "" then t.until == Some(deadline)
       else deadline == t.now + d.durationSec
  }

  lemma OpParksAsConfigured(index: map<Path, StepId>, db: Db, leaf: Leaf, t: Tick)
    requires !leaf.step.Delay? ==> FindWaiting(db.logs, leaf.path) < 0
    ensures var next := LeafOp(index, db, leaf, t).0;
            forall i :: |db.logs| <= i < |next.logs| && next.logs[i].status.LogWaiting? ==>
              next.logs[i].path == leaf.path && LastsAsConfigured(leaf.step, t, WakeAtFromLog(next.logs[i].output))
  {
    OpShape(index, db, leaf, t);
  }

  lemma {:induction false} WalkParksAsConfigured(wf: Workflow, db: Db, leaves: seq<Leaf>, env: Env, i: nat)
    requires DbOk(wf, db) && db.run.status.Running?
    requires forall l | l in leaves :: IsLeafOf(wf, l)
    requires var next := RunLeaves(IndexOf(wf), db, leaves, env).0;
             |db.logs| <= i < |next.logs| && next.logs[i].status.LogWaiting?
    ensures var next := RunLeaves(IndexOf(wf), db, leaves, env).0;
            exists l | l in leaves ::
              l.path == next.logs[i].path && LastsAsConfigured(l.step, env.tick(l.path), WakeAtFromLog(next.logs[i].output))
    decreases |leaves|
  {
    var leaf, rest := leaves[0], leaves[1..];
    var (mid, o) := LeafOp(IndexOf(wf), db, leaf, env.tick(leaf.path));
    if !leaf.step.Delay? { NoWaitingAction(wf, db.logs, leaf); }
    OpParksAsConfigured(IndexOf(wf), db, leaf, env.tick(leaf.path));
    OpKeeps(wf, db, leaf, env.tick(leaf.path));
    if o.Proceed? {
      RunLeavesKeeps(wf, mid, rest, env);
      if i < |mid.logs| {
        assert RowEvolves(mid.logs[i], RunLeaves(IndexOf(wf), mid, rest, env).0.logs[i]);
        OpShape(IndexOf(wf), db, leaf, env.tick(leaf.path));
        assert false;
      } else {
        WalkParksAsConfigured(wf, mid, rest, env, i);
      }
    }
  }

  lemma AttemptParksAsConfigured(wf: Workflow, db: Db, env: Env, i: nat)
    requires DbOk(wf, db)
    requires var next := Attempt(wf, db, env); |db.logs| <= i < |next.logs| && next.logs[i].status.LogWaiting?
    ensures var next := Attempt(wf, db, env);
            exists l | l in Leaves(wf.steps) ::
              l.path == next.logs[i].path && LastsAsConfigured(l.step, env.tick(l.path), WakeAtFromLog(next.logs[i].output))
  {
    var started := StartedPaths(db.logs);
    var plan := RootPlan(wf.steps, started, ForksOf(wf, env));
    PlanWithin(wf.steps, 0, [], Root, started, ForksOf(wf, env));
    WalkParksAsConfigured(wf, Claimed(db), plan, env, i);
  }

  /**
   A wait lasts as long as it was configured to. Whatever comes between the attempt that parks a step and the one that
   finishes it, the second runs at or after the deadline the first worked out from the step and its own clock, or an
   event was stamped on the event wait.
   */
  lemma DelayHonoured(wf: Workflow, before: seq<Event>, parking: Env, later: seq<Event>, finishing: Env, i: nat)
    requires var parked := After(wf, before + [AttemptRun(parking)]).db.logs;
             |After(wf, before).db.logs| <= i < |parked| && parked[i].status.LogWaiting?
    requires var still := After(wf, before + [AttemptRun(parking)] + later).db;
             && i < |still.logs| && still.logs[i].status.LogWaiting?
             && i < |Attempt(wf, still, finishing).logs| && Attempt(wf, still, finishing).logs[i].status.LogSuccess?
    ensures var parked := After(wf, before + [AttemptRun(parking)]).db.logs;
            var still := After(wf, before + [AttemptRun(parking)] + later).db.logs;
            exists l, deadline | l in Leaves(wf.steps) ::
              && l.path == parked[i].path
              && LastsAsConfigured(l.step, parking.tick(l.path), deadline)
              && (finishing.tick(l.path).now >= deadline || (l.step.IsWaitEvent() && EventSatisfiedFromLog(still[i].output)))
  {
    var first := before + [AttemptRun(parking)];
    var db0, parked, still := After(wf, before).db, After(wf, first).db, After(wf, first + later).db;
    assert first[..|first| - 1] == before;
    AlwaysOk(wf, before);
    AttemptParksAsConfigured(wf, db0, parking, i);
    DeadlineFixed(wf, first, later, i);
    WaitFinishesRightly(wf, first + later, finishing, i);
    var l :| l in Leaves(wf.steps) && l.path == parked.logs[i].path
      && LastsAsConfigured(l.step, parking.tick(l.path), WakeAtFromLog(parked.logs[i].output));
    var m :| m in Leaves(wf.steps) && m.path == still.logs[i].path
      && RightlyFinished(still.logs[i], Attempt(wf, still, finishing).logs[i], m.step, finishing.tick(m.path));
    SamePathSameLeaf(wf, l, m);
  }

  /* ---- What wakes a parked run ---- */

  /** Solid trees: the clock sweep wakes a parked run exactly when its parked step is due, and changes no log. */
  lemma SweepWakesExactlyDue(wf: Workflow, events: seq<Event>, now: Time, i: nat)
    requires Solid(wf.steps, 0, false) && After(wf, events).db.run.status.Waiting?
    requires i < |After(wf, events).db.logs| && After(wf, events).db.logs[i].status.LogWaiting?
    ensures var db, next := After(wf, events).db, After(wf, events + [SweepWake(now)]).db;
            && next.logs == db.logs
            && (next.run.status.Pending? <==> WakeAtFromLog(db.logs[i].output) <= now)
            && next == if next.run.status.Pending?
                       then db.(run := db.run.(status := Pending, nextRetryAt := Some(now), wakeAt := None)) else db
  {
    ParkedOnce(wf, events);
    assert (events + [SweepWake(now)])[..|events|] == events;
  }

  /** An event that may claim the parked step's wait, once acted on, wakes the run and stamps that step's row, whatever its deadline. */
  lemma EventWakesAndStamps(wf: Workflow, events: seq<Event>, now: Time, i: nat)
    requires var db := After(wf, events).db;
             && db.run.status.Waiting? && i < |db.logs| && db.logs[i].status.LogWaiting?
             && Claimable(db, db.logs[i].path, now)
    ensures var db := After(wf, events).db;
            var next := After(wf, events + [ClaimEvent(db.logs[i].path, now), SatisfyRun(db.logs[i].path, now)]).db;
            && next.run.status.Pending? && |next.logs| == |db.logs|
            && next.logs[i].status.LogWaiting? && EventSatisfiedFromLog(next.logs[i].output)
            && WakeAtFromLog(next.logs[i].output) == WakeAtFromLog(db.logs[i].output)
  {
    var db := After(wf, events).db;
    var claim, satisfy := ClaimEvent(db.logs[i].path, now), SatisfyRun(db.logs[i].path, now);
    var one, two := events + [claim], events + [claim, satisfy];
    assert two[..|two| - 1] == one && one[..|one| - 1] == events;
    AlwaysOk(wf, events);
    assert RowOk(wf, db.logs[i]);
    var claimed := After(wf, one);
    assert claimed.db == ClaimWait(db, db.logs[i].path) && db.logs[i].path in claimed.claimed;
    assert After(wf, two) == Step1(wf, claimed, satisfy);
  }

  /** The step has started and no wait of it is open: no event will be claimed for it. */
  predicate Spent(db: Db, path: Path) {
    path in StartedPaths(db.logs) && (path in db.waits ==> db.waits[path].satisfied)
  }

  lemma OpKeepsSpent(wf: Workflow, db: Db, leaf: Leaf, t: Tick, path: Path)
    requires IsLeafOf(wf, leaf) && DbOk(wf, db) && db.run.status.Running? && Spent(db, path)
    ensures Spent(LeafOp(IndexOf(wf), db, leaf, t).0, path)
  {
    var (next, o) := LeafOp(IndexOf(wf), db, leaf, t);
    if !leaf.step.Delay? { NoWaitingAction(wf, db.logs, leaf); }
    OpShape(IndexOf(wf), db, leaf, t);
    OpWaits(IndexOf(wf), db, leaf, t);
    OpKeeps(wf, db, leaf, t);
    EvolvesKeepsDone(IndexOf(wf), db.logs, next.logs);
    StartedIs(db.logs);
    if path in next.waits && path != leaf.path && next.waits != db.waits {
      assert path in next.waits - {leaf.path};
    }
  }

  lemma {:induction false} WalkKeepsSpent(wf: Workflow, db: Db, leaves: seq<Leaf>, env: Env, path: Path)
    requires DbOk(wf, db) && db.run.status.Running? && Spent(db, path) && forall l | l in leaves :: IsLeafOf(wf, l)
    ensures Spent(RunLeaves(IndexOf(wf), db, leaves, env).0, path)
    decreases |leaves|
  {
    if leaves != [] {
      var t := env.tick(leaves[0].path);
      var (mid, o) := LeafOp(IndexOf(wf), db, leaves[0], t);
      OpKeepsSpent(wf, db, leaves[0], t, path);
      OpKeeps(wf, db, leaves[0], t);
      if o.Proceed? {
        WalkKeepsSpent(wf, mid, leaves[1..], env, path);
      }
    }
  }

  lemma StepKeepsSpent(wf: Workflow, w: World, e: Event, path: Path)
    requires DbOk(wf, w.db) && Spent(w.db, path)
    ensures Spent(Step1(wf, w, e).db, path)
  {
    EventKeeps(wf, w, e);
    match e
    case AttemptRun(env) =>
      if (w.db.run.status.Pending? || w.db.run.status.Running?) && env.locks && env.loads && wf.steps != [] {
        var started := StartedPaths(w.db.logs);
        PlanWithin(wf.steps, 0, [], Root, started, ForksOf(wf, env));
        WalkKeepsSpent(wf, Claimed(w.db), RootPlan(wf.steps, started, ForksOf(wf, env)), env, path);
      }
    case _ =>
  }

  /** Once an event has been claimed for a step, no other ever will be. */
  lemma {:induction false} ClaimedOnce(wf: Workflow, before: seq<Event>, later: seq<Event>, path: Path)
    requires Spent(After(wf, before).db, path)
    ensures Spent(After(wf, before + later).db, path) && forall now :: !Claimable(After(wf, before + later).db, path, now)
    decreases |later|
  {
    if later == [] {
      assert before + later == before;
    } else {
      var rest := later[..|later| - 1];
      assert (before + later)[..|before + later| - 1] == before + rest;
      ClaimedOnce(wf, before, rest, path);
      AlwaysOk(wf, before + rest);
      StepKeepsSpent(wf, After(wf, before + rest), later[|later| - 1], path);
    }
  }

  lemma {:induction false} ClaimedIsSpent(wf: Workflow, events: seq<Event>, path: Path)
    requires path in After(wf, events).claimed
    ensures Spent(After(wf, events).db, path)
    decreases |events|
  {
    var rest, e := events[..|events| - 1], events[|events| - 1];
    var w := After(wf, rest);
    AlwaysOk(wf, rest);
    if path in w.claimed {
      ClaimedIsSpent(wf, rest, path);
      StepKeepsSpent(wf, w, e, path);
    } else {
      AlwaysWaitsOk(wf, rest);
      assert WaitBacked(w.db.logs, path, w.db.waits[path].expiresAt);
    }
  }

  /** A walk stamps no row. */
  lemma {:induction false} WalkStampsNothing(wf: Workflow, db: Db, leaves: seq<Leaf>, env: Env, i: nat)
    requires DbOk(wf, db) && db.run.status.Running? && forall l | l in leaves :: IsLeafOf(wf, l)
    requires var next := RunLeaves(IndexOf(wf), db, leaves, env).0;
             i < |next.logs| && next.logs[i].status.LogWaiting? && EventSatisfiedFromLog(next.logs[i].output)
    ensures i < |db.logs| && RunLeaves(IndexOf(wf), db, leaves, env).0.logs[i] == db.logs[i]
    decreases |leaves|
  {
    if leaves != [] {
      var t := env.tick(leaves[0].path);
      var (mid, o) := LeafOp(IndexOf(wf), db, leaves[0], t);
      OpStampsNothing(IndexOf(wf), db, leaves[0], t);
      OpKeeps(wf, db, leaves[0], t);
      if o.Proceed? {
        WalkStampsNothing(wf, mid, leaves[1..], env, i);
      }
    }
  }

  /** While a claimed event has not been acted on, its step's row is not stamped. */
  lemma {:induction false} ClaimedIsUnstamped(wf: Workflow, events: seq<Event>, i: nat)
    requires var w := After(wf, events);
             i < |w.db.logs| && w.db.logs[i].status.LogWaiting? && EventSatisfiedFromLog(w.db.logs[i].output)
    ensures Spent(After(wf, events).db, After(wf, events).db.logs[i].path)
    ensures After(wf, events).db.logs[i].path !in After(wf, events).claimed
    decreases |events|
  {
    var rest, e := events[..|events| - 1], events[|events| - 1];
    var w, next := After(wf, rest), After(wf, events);
    var path := next.db.logs[i].path;
    AlwaysOk(wf, rest);
    EventKeeps(wf, w, e);
    match e
    case SatisfyRun(p, _) =>
      if p in w.claimed { ClaimedIsSpent(wf, rest, p); }
      if p != path || p !in w.claimed {
        ClaimedIsUnstamped(wf, rest, i);
      }
      StepKeepsSpent(wf, w, e, path);
    case AttemptRun(env) =>
      if (w.db.run.status.Pending? || w.db.run.status.Running?) && env.locks && env.loads && wf.steps != [] {
        var started := StartedPaths(w.db.logs);
        PlanWithin(wf.steps, 0, [], Root, started, ForksOf(wf, env));
        WalkStampsNothing(wf, Claimed(w.db), RootPlan(wf.steps, started, ForksOf(wf, env)), env, i);
      }
      ClaimedIsUnstamped(wf, rest, i);
      StepKeepsSpent(wf, w, e, path);
    case _ =>
      ClaimedIsUnstamped(wf, rest, i);
      StepKeepsSpent(wf, w, e, path);
  }

  /**
   When a claimed event on a parked step is acted on, it is honoured exactly when the run is still waiting. Had anything
   else woken the run meanwhile, the row stays unstamped, and no event will ever be claimed for the step again: it will
   time out.
   */
  lemma ClaimHonouredExactly(wf: Workflow, events: seq<Event>, now: Time, i: nat, later: seq<Event>)
    requires var w := After(wf, events);
             i < |w.db.logs| && w.db.logs[i].status.LogWaiting? && w.db.logs[i].path in w.claimed
    ensures var w, acted := After(wf, events), events + [SatisfyRun(After(wf, events).db.logs[i].path, now)];
            && |After(wf, acted).db.logs| == |w.db.logs|
            && (EventSatisfiedFromLog(After(wf, acted).db.logs[i].output) <==> w.db.run.status.Waiting?)
            && forall t :: !Claimable(After(wf, acted + later).db, w.db.logs[i].path, t)
  {
    var w := After(wf, events);
    var path := w.db.logs[i].path;
    var acted := events + [SatisfyRun(path, now)];
    assert acted[..|events|] == events;
    AlwaysOk(wf, events);
    assert RowOk(wf, w.db.logs[i]);
    if EventSatisfiedFromLog(w.db.logs[i].output) { ClaimedIsUnstamped(wf, events, i); }
    ClaimedIsSpent(wf, events, path);
    StepKeepsSpent(wf, w, SatisfyRun(path, now), path);
    ClaimedOnce(wf, acted, later, path);
  }

  /* ---- A woken wait finishes ---- */

  /** The parked row may finish now: its event is stamped, or its deadline has come. */
  predicate MayFinish(row: ActionLog, step: Step, t: Tick) {
    t.now >= WakeAtFromLog(row.output) || (step.IsWaitEvent() && EventSatisfiedFromLog(row.output))
  }

  lemma OpFinishesParked(index: map<Path, StepId>, db: Db, leaf: Leaf, t: Tick, i: nat)
    requires leaf.step.Delay? && t.writes > 0 && FinalRowIsLast(db.logs)
    requires i < |db.logs| && db.logs[i].status.LogWaiting? && db.logs[i].path == leaf.path
    requires MayFinish(db.logs[i], leaf.step, t)
    ensures var next := LeafOp(index, db, leaf, t).0; |next.logs| == |db.logs| && next.logs[i].status.LogSuccess?
  {
    assert FindWaiting(db.logs, leaf.path) == i;
    assert !IsDone(db.logs, leaf.path);
  }

  /**
   Solid trees: the next attempt of a woken run finishes its parked step, if that is due or stamped by then, the run
   and its version load, and the first write at the step lands. Conditions may say what they like.
   */
  lemma WokenRunFinishesWait(wf: Workflow, events: seq<Event>, env: Env, i: nat)
    requires Solid(wf.steps, 0, false) && env.locks && env.loads
    requires var db := After(wf, events).db;
             && (db.run.status.Pending? || db.run.status.Running?) && i < |db.logs| && db.logs[i].status.LogWaiting?
             && env.tick(db.logs[i].path).writes > 0
             && exists l | l in Leaves(wf.steps) :: l.path == db.logs[i].path && MayFinish(db.logs[i], l.step, env.tick(l.path))
    ensures var next := Attempt(wf, After(wf, events).db, env); i < |next.logs| && next.logs[i].status.LogSuccess?
  {
    var db, started := After(wf, events).db, StartedPaths(After(wf, events).db.logs);
    var plan := RootPlan(wf.steps, started, ForksOf(wf, env));
    AlwaysOk(wf, events);
    PlanWithin(wf.steps, 0, [], Root, started, ForksOf(wf, env));
    var k := ParkedIsNext(wf, events, ForksOf(wf, env), i);
    var leaf :| leaf in Leaves(wf.steps) && leaf.path == db.logs[i].path && MayFinish(db.logs[i], leaf.step, env.tick(leaf.path));
    SamePathSameLeaf(wf, plan[k], leaf);
    assert plan[0..] == plan;
    SkipsCommitted(IndexOf(wf), Claimed(db), plan, 0, k, env);
    ParkedLeafFinishes(wf, Claimed(db), plan[k..], env, i);
  }

  /** Solid trees: every later plan has the parked step as the first one not committed. */
  lemma ParkedIsNext(wf: Workflow, events: seq<Event>, forks: Forks, i: nat) returns (k: nat)
    requires Solid(wf.steps, 0, false) && forks.roll == wf.roll
    requires i < |After(wf, events).db.logs| && After(wf, events).db.logs[i].status.LogWaiting?
    ensures var logs := After(wf, events).db.logs;
            var plan := RootPlan(wf.steps, StartedPaths(logs), forks);
            k < |plan| && Aligned(plan, k, logs) && plan[k].path == logs[i].path && plan[k].step.Delay? && IsLeafOf(wf, plan[k])
  {
    var logs := After(wf, events).db.logs;
    AlwaysOk(wf, events);
    AlwaysOnRoute(wf, events);
    var c, n :| AlongRoute(wf, After(wf, events).db, c, n);
    k := n;
    NextPlanAligned(wf, logs, c, k, forks);
    PlanWithin(wf.steps, 0, [], Root, StartedPaths(logs), forks);
    PathsWithMember(logs, LogWaiting, logs[i].path);
    assert RowOk(wf, logs[i]);
    var leaf :| leaf in Leaves(wf.steps) && leaf.path == logs[i].path && leaf.step.Delay?;
    SamePathSameLeaf(wf, RootPlan(wf.steps, StartedPaths(logs), forks)[k], leaf);
  }

  /** A walk that starts at the parked leaf finishes its row for good. */
  lemma ParkedLeafFinishes(wf: Workflow, db: Db, leaves: seq<Leaf>, env: Env, i: nat)
    requires DbOk(wf, db) && db.run.status.Running? && leaves != [] && forall l | l in leaves :: IsLeafOf(wf, l)
    requires i < |db.logs| && db.logs[i].status.LogWaiting? && db.logs[i].path == leaves[0].path
    requires leaves[0].step.Delay? && env.tick(leaves[0].path).writes > 0
    requires MayFinish(db.logs[i], leaves[0].step, env.tick(leaves[0].path))
    ensures var next := RunLeaves(IndexOf(wf), db, leaves, env).0; i < |next.logs| && next.logs[i].status.LogSuccess?
  {
    var leaf, rest := leaves[0], leaves[1..];
    var (mid, o) := LeafOp(IndexOf(wf), db, leaf, env.tick(leaf.path));
    OpFinishesParked(IndexOf(wf), db, leaf, env.tick(leaf.path), i);
    OpKeeps(wf, db, leaf, env.tick(leaf.path));
    if o.Proceed? {
      RunLeavesKeeps(wf, mid, rest, env);
      assert RowEvolves(mid.logs[i], RunLeaves(IndexOf(wf), mid, rest, env).0.logs[i]);
    }
  }
}
