/** Event waits from registration to result: an event in time is claimed, wakes the run, and the step ends as happened. */
module RunEvents {
  import opened Common
  import opened StepTree
  import opened RunStore
  import opened RunLogs
  import opened RunRoutes
  import opened RunSafety
  import opened RunTiming

  /** The parked row i has its wait registered under its own deadline, and no event has been claimed for it. */
  predicate OpenWait(db: Db, i: nat) {
    && i < |db.logs| && db.logs[i].status.LogWaiting?
    && db.logs[i].path in db.waits
    && db.waits[db.logs[i].path] == EventWait(WakeAtFromLog(db.logs[i].output), false)
  }

  /* ---- Parking registers the wait ---- */

  lemma OpRegisters(wf: Workflow, db: Db, leaf: Leaf, t: Tick)
    requires IsLeafOf(wf, leaf) && LogsOk(wf, db.logs) && WaitsOk(wf, db)
    requires leaf.step.IsWaitEvent() && t.writes >= 3 && t.hasContact
    ensures var next := LeafOp(IndexOf(wf), db, leaf, t).0;
            |next.logs| > |db.logs| && next.logs[|db.logs|].status.LogWaiting? ==> OpenWait(next, |db.logs|)
  {
    assert leaf.path in db.waits ==> WaitBacked(db.logs, leaf.path, db.waits[leaf.path].expiresAt);
    OpShape(IndexOf(wf), db, leaf, t);
  }

  lemma {:induction false} WalkRegisters(wf: Workflow, db: Db, leaves: seq<Leaf>, env: Env, i: nat)
    requires DbOk(wf, db) && db.run.status.Running? && WaitsOk(wf, db) && forall l | l in leaves :: IsLeafOf(wf, l)
    requires var next := RunLeaves(IndexOf(wf), db, leaves, env).0;
             && |db.logs| <= i < |next.logs| && next.logs[i].status.LogWaiting?
             && IsEventWaitPath(wf, next.logs[i].path)
             && env.tick(next.logs[i].path).writes >= 3 && env.tick(next.logs[i].path).hasContact
    ensures OpenWait(RunLeaves(IndexOf(wf), db, leaves, env).0, i)
    decreases |leaves|
  {
    var leaf, rest := leaves[0], leaves[1..];
    var t := env.tick(leaf.path);
    var (mid, o) := LeafOp(IndexOf(wf), db, leaf, t);
    if !leaf.step.Delay? { NoWaitingAction(wf, db.logs, leaf); }
    OpKeeps(wf, db, leaf, t);
    if o.Proceed? {
      OpKeepsWaits(wf, db, leaf, t);
      RunLeavesKeeps(wf, mid, rest, env);
      if i < |mid.logs| {
        assert RowEvolves(mid.logs[i], RunLeaves(IndexOf(wf), mid, rest, env).0.logs[i]);
        OpShape(IndexOf(wf), db, leaf, t);
        assert false;
      } else {
        WalkRegisters(wf, mid, rest, env, i);
      }
    } else {
      OpShape(IndexOf(wf), db, leaf, t);
      var l :| l in Leaves(wf.steps) && l.path == leaf.path && l.step.IsWaitEvent();
      SamePathSameLeaf(wf, l, leaf);
      OpRegisters(wf, db, leaf, t);
    }
  }

  /** An attempt that parks an event wait of a contact, all writes landing, leaves the wait open under the parked row's deadline. */
  lemma ParkingRegisters(wf: Workflow, before: seq<Event>, env: Env, i: nat)
    requires Registers(wf, before, env, i)
    ensures OpenWait(After(wf, before + [AttemptRun(env)]).db, i)
  {
    var db, started := After(wf, before).db, StartedPaths(After(wf, before).db.logs);
    assert (before + [AttemptRun(env)])[..|before|] == before;
    AlwaysOk(wf, before);
    AlwaysWaitsOk(wf, before);
    PlanWithin(wf.steps, 0, [], Root, started, ForksOf(wf, env));
    WalkRegisters(wf, Claimed(db), RootPlan(wf.steps, started, ForksOf(wf, env)), env, i);
  }

  /** The attempt adds row i, parking an event wait for a contact, and every write at it lands. */
  predicate Registers(wf: Workflow, before: seq<Event>, env: Env, i: nat) {
    var logs := After(wf, before + [AttemptRun(env)]).db.logs;
    && |After(wf, before).db.logs| <= i < |logs| && logs[i].status.LogWaiting?
    && IsEventWaitPath(wf, logs[i].path)
    && env.tick(logs[i].path).writes >= 3 && env.tick(logs[i].path).hasContact
  }

  /* ---- What keeps it open ---- */

  /** No event has been claimed for the wait at the path. */
  predicate Unsatisfied(db: Db, path: Path) { path in db.waits ==> !db.waits[path].satisfied }

  lemma {:induction false} WalkClaimsNothing(index: map<Path, StepId>, db: Db, leaves: seq<Leaf>, env: Env, path: Path)
    requires Unsatisfied(db, path)
    ensures Unsatisfied(RunLeaves(index, db, leaves, env).0, path)
    decreases |leaves|
  {
    if leaves != [] {
      var (mid, o) := LeafOp(index, db, leaves[0], env.tick(leaves[0].path));
      assert Unsatisfied(mid, path);
      if o.Proceed? { WalkClaimsNothing(index, mid, leaves[1..], env, path); }
    }
  }

  lemma StepClaimsNothing(wf: Workflow, w: World, e: Event, path: Path)
    requires Unsatisfied(w.db, path) && path !in Step1(wf, w, e).claimed
    ensures Unsatisfied(Step1(wf, w, e).db, path)
  {
    match e
    case AttemptRun(env) =>
      if (w.db.run.status.Pending? || w.db.run.status.Running?) && env.locks && env.loads && wf.steps != [] {
        var plan := RootPlan(wf.steps, StartedPaths(w.db.logs), ForksOf(wf, env));
        WalkClaimsNothing(IndexOf(wf), Claimed(w.db), plan, env, path);
      }
    case _ =>
  }

  /** The path is not among the claimed ones at any point of `later`. */
  predicate NeverClaimed(wf: Workflow, before: seq<Event>, later: seq<Event>, path: Path) {
    forall j | 0 <= j <= |later| :: path !in After(wf, before + later[..j]).claimed
  }

  lemma NeverClaimedBefore(wf: Workflow, before: seq<Event>, later: seq<Event>, path: Path)
    requires later != [] && NeverClaimed(wf, before, later, path)
    ensures NeverClaimed(wf, before, later[..|later| - 1], path)
    ensures path !in After(wf, before + later).claimed
  {
    var rest := later[..|later| - 1];
    forall j | 0 <= j <= |rest| ensures path !in After(wf, before + rest[..j]).claimed {
      assert rest[..j] == later[..j];
    }
    assert later[..|later|] == later;
  }

  lemma {:induction false} StaysUnsatisfied(wf: Workflow, before: seq<Event>, later: seq<Event>, path: Path)
    requires Unsatisfied(After(wf, before).db, path) && NeverClaimed(wf, before, later, path)
    ensures Unsatisfied(After(wf, before + later).db, path)
    decreases |later|
  {
    if later == [] {
      assert before + later == before;
    } else {
      var rest := later[..|later| - 1];
      NeverClaimedBefore(wf, before, later, path);
      assert (before + later)[..|before + later| - 1] == before + rest;
      StaysUnsatisfied(wf, before, rest, path);
      StepClaimsNothing(wf, After(wf, before + rest), later[|later| - 1], path);
    }
  }

  /** In a solid tree an attempt that leaves the parked row waiting leaves every registration alone. */
  lemma ParkedAttemptKeepsWaits(wf: Workflow, events: seq<Event>, env: Env, i: nat)
    requires Solid(wf.steps, 0, false)
    requires i < |After(wf, events).db.logs| && After(wf, events).db.logs[i].status.LogWaiting?
    requires i < |Attempt(wf, After(wf, events).db, env).logs| && Attempt(wf, After(wf, events).db, env).logs[i].status.LogWaiting?
    ensures Attempt(wf, After(wf, events).db, env).waits == After(wf, events).db.waits
  {
    var db := After(wf, events).db;
    if (db.run.status.Pending? || db.run.status.Running?) && env.locks && env.loads && wf.steps != [] {
      var started := StartedPaths(db.logs);
      var plan := RootPlan(wf.steps, started, ForksOf(wf, env));
      var k := ParkedIsNext(wf, events, ForksOf(wf, env), i);
      AlwaysOk(wf, events);
      PlanWithin(wf.steps, 0, [], Root, started, ForksOf(wf, env));
      assert plan[0..] == plan;
      SkipsCommitted(IndexOf(wf), Claimed(db), plan, 0, k, env);
      ParkedLeafKeepsWaits(wf, Claimed(db), plan[k..], env, i);
    }
  }

  lemma ParkedLeafKeepsWaits(wf: Workflow, db: Db, leaves: seq<Leaf>, env: Env, i: nat)
    requires DbOk(wf, db) && db.run.status.Running? && leaves != [] && forall l | l in leaves :: IsLeafOf(wf, l)
    requires i < |db.logs| && db.logs[i].status.LogWaiting? && db.logs[i].path == leaves[0].path && leaves[0].step.Delay?
    requires var next := RunLeaves(IndexOf(wf), db, leaves, env).0; i < |next.logs| && next.logs[i].status.LogWaiting?
    ensures RunLeaves(IndexOf(wf), db, leaves, env).0.waits == db.waits
  {
    var leaf, t := leaves[0], env.tick(leaves[0].path);
    assert FindWaiting(db.logs, leaf.path) == i;
    if t.writes > 0 && MayFinish(db.logs[i], leaf.step, t) {
      ParkedLeafFinishes(wf, db, leaves, env, i);
    }
  }

  /** In a solid tree the wait stays registered while its row waits. */
  lemma {:induction false} StaysRegistered(wf: Workflow, before: seq<Event>, later: seq<Event>, i: nat)
    requires Solid(wf.steps, 0, false) && OpenWait(After(wf, before).db, i)
    requires i < |After(wf, before + later).db.logs| && After(wf, before + later).db.logs[i].status.LogWaiting?
    ensures After(wf, before + later).db.logs[i].path == After(wf, before).db.logs[i].path
    ensures After(wf, before).db.logs[i].path in After(wf, before + later).db.waits
    decreases |later|
  {
    DeadlineFixed(wf, before, later, i);
    if later == [] {
      assert before + later == before;
    } else {
      var rest, e := later[..|later| - 1], later[|later| - 1];
      assert (before + later)[..|before + later| - 1] == before + rest;
      DeadlineFixed(wf, before, rest, i);
      StillWaited(wf, before + rest, e, i);
      StaysRegistered(wf, before, rest, i);
      if e.AttemptRun? { ParkedAttemptKeepsWaits(wf, before + rest, e.env, i); }
    }
  }

  /** A row that waits after an event waited before it. */
  lemma StillWaited(wf: Workflow, events: seq<Event>, e: Event, i: nat)
    requires var next := Step1(wf, After(wf, events), e).db; i < |next.logs| && next.logs[i].status.LogWaiting?
    requires i < |After(wf, events).db.logs|
    ensures After(wf, events).db.logs[i].status.LogWaiting?
  {
    AlwaysOk(wf, events);
    EventKeeps(wf, After(wf, events), e);
    assert RowEvolves(After(wf, events).db.logs[i], Step1(wf, After(wf, events), e).db.logs[i]);
  }

  /* ---- Main results ---- */

  /** Row i was parked and registered after `before`; since then it has only waited, and no event has been claimed for it. */
  predicate StillAwaited(wf: Workflow, before: seq<Event>, parking: Env, later: seq<Event>, i: nat) {
    var first := before + [AttemptRun(parking)];
    && Registers(wf, before, parking, i)
    && i < |After(wf, first + later).db.logs| && After(wf, first + later).db.logs[i].status.LogWaiting?
    && NeverClaimed(wf, first, later, After(wf, first).db.logs[i].path)
  }

  /** Any tree: an event for an awaited step is claimed exactly when its wait is registered and its deadline lies ahead. */
  lemma ClaimedExactly(wf: Workflow, before: seq<Event>, parking: Env, later: seq<Event>, i: nat, now: Time)
    requires StillAwaited(wf, before, parking, later, i)
    ensures var all := before + [AttemptRun(parking)] + later;
            var db, row := After(wf, all).db, After(wf, all).db.logs[i];
            row.path in After(wf, all + [ClaimEvent(row.path, now)]).claimed
            <==> row.path in db.waits && now < WakeAtFromLog(row.output)
  {
    var first := before + [AttemptRun(parking)];
    var all := first + later;
    var w, row := After(wf, all), After(wf, all).db.logs[i];
    ParkingRegisters(wf, before, parking, i);
    DeadlineFixed(wf, first, later, i);
    assert later[..|later|] == later;
    assert row.path !in w.claimed;
    StaysUnsatisfied(wf, first, later, row.path);
    WaitHasDeadline(wf, all, i);
    assert (all + [ClaimEvent(row.path, now)])[..|all|] == all;
  }

  /** A wait registered for a parked row expires at the row's deadline. */
  lemma WaitHasDeadline(wf: Workflow, events: seq<Event>, i: nat)
    requires i < |After(wf, events).db.logs| && After(wf, events).db.logs[i].status.LogWaiting?
    ensures var db := After(wf, events).db;
            db.logs[i].path in db.waits ==> db.waits[db.logs[i].path].expiresAt == WakeAtFromLog(db.logs[i].output)
  {
    var db, path := After(wf, events).db, After(wf, events).db.logs[i].path;
    AlwaysOk(wf, events);
    AlwaysWaitsOk(wf, events);
    assert path in db.waits ==> WaitBacked(db.logs, path, db.waits[path].expiresAt);
  }

  /** Solid trees: an event for an awaited step is claimed exactly when it comes before the parked row's deadline. */
  lemma EventInTimeIsClaimed(wf: Workflow, before: seq<Event>, parking: Env, later: seq<Event>, i: nat, now: Time)
    requires Solid(wf.steps, 0, false) && StillAwaited(wf, before, parking, later, i)
    ensures var all := before + [AttemptRun(parking)] + later;
            var row := After(wf, all).db.logs[i];
            row.path in After(wf, all + [ClaimEvent(row.path, now)]).claimed <==> now < WakeAtFromLog(row.output)
  {
    ParkingRegisters(wf, before, parking, i);
    StaysRegistered(wf, before + [AttemptRun(parking)], later, i);
    ClaimedExactly(wf, before, parking, later, i, now);
  }

  /**
   Solid trees: an event before the deadline, acted on while the run still waits, wakes it, and the next attempt whose
   first write at the step lands ends the step with happened = true, however far off its deadline.
   */
  lemma EventInTimeHappens(wf: Workflow, before: seq<Event>, parking: Env, later: seq<Event>, i: nat, now: Time, finishing: Env)
    requires Solid(wf.steps, 0, false) && StillAwaited(wf, before, parking, later, i)
    requires var w := After(wf, before + [AttemptRun(parking)] + later);
             && now < WakeAtFromLog(w.db.logs[i].output) && w.db.run.status.Waiting?
             && finishing.locks && finishing.loads && finishing.tick(w.db.logs[i].path).writes > 0
    ensures var all := before + [AttemptRun(parking)] + later;
            var path := After(wf, all).db.logs[i].path;
            var woken := all + [ClaimEvent(path, now), SatisfyRun(path, now)];
            var ended := Attempt(wf, After(wf, woken).db, finishing);
            && After(wf, woken).db.run.status.Pending?
            && i < |ended.logs| && ended.logs[i].status.LogSuccess? && ended.logs[i].output.WaitOutput?
            && ended.logs[i].output.happened == Some(true) && ended.logs[i].output.timedOut == Some(false)
  {
    var first := before + [AttemptRun(parking)];
    var all := first + later;
    var path := After(wf, all).db.logs[i].path;
    var woken := all + [ClaimEvent(path, now), SatisfyRun(path, now)];
    EventInTimeIsClaimed(wf, before, parking, later, i, now);
    assert (all + [ClaimEvent(path, now)])[..|all|] == all;
    assert later[..|later|] == later && path !in After(wf, all).claimed by { DeadlineFixed(wf, first, later, i); }
    assert Claimable(After(wf, all).db, path, now);
    EventWakesAndStamps(wf, all, now, i);
    DeadlineFixed(wf, first, later, i);
    DeadlineFixed(wf, all, [ClaimEvent(path, now), SatisfyRun(path, now)], i);
    var l :| l in Leaves(wf.steps) && l.path == path && l.step.IsWaitEvent();
    assert MayFinish(After(wf, woken).db.logs[i], l.step, finishing.tick(l.path));
    WokenRunFinishesWait(wf, woken, finishing, i);
    WaitFinishesRightly(wf, woken, finishing, i);
    var db, ended := After(wf, woken).db, Attempt(wf, After(wf, woken).db, finishing);
    var m :| m in Leaves(wf.steps) && m.path == db.logs[i].path && RightlyFinished(db.logs[i], ended.logs[i], m.step, finishing.tick(m.path));
    SamePathSameLeaf(wf, l, m);
  }
}
