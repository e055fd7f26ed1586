/** Resuming refines an uninterrupted run, when every fork decides the same way each time it is asked. */
module RunResume {
  import opened Conditions
  import opened StepTree
  import opened RunStore
  import opened RunLogs
  import opened RunRoutes

  /** Every attempt of the schedule evaluates each condition as `condition` does. */
  ghost predicate SameConditions(events: seq<Event>, condition: (Path, ConditionGroup) -> bool) {
    forall i :: 0 <= i < |events| && events[i].AttemptRun? ==> events[i].env.condition == condition
  }

  /** Nothing fails, dies or has to wait in this environment. */
  ghost predicate Smooth(env: Env) {
    && env.locks && env.loads && env.finishLands
    && forall p :: env.tick(p).writes >= 3 && env.tick(p).exec.Succeeded?
  }

  /** A delay that is over as soon as it is met. */
  predicate OverAtOnce(leaf: Leaf, env: Env) {
    leaf.step.Delay? ==>
      var (wakeAt, resolved) := ResolveDelayWakeAt(leaf.step.delay, env.tick(leaf.path));
      !(resolved && wakeAt > env.tick(leaf.path).now)
  }

  lemma {:induction false} AlwaysOnFreshPlan(wf: Workflow, events: seq<Event>, condition: (Path, ConditionGroup) -> bool) returns (k: nat)
    requires SameConditions(events, condition)
    ensures var plan := RootPlan(wf.steps, {}, Forks(condition, wf.roll));
            var db := After(wf, events).db;
            && Aligned(plan, k, db.logs)
            && (db.run.status.Completed? ==> k == |plan| && ParkedPaths(db.logs) == [])
    decreases |events|
  {
    var forks := Forks(condition, wf.roll);
    var plan := RootPlan(wf.steps, {}, forks);
    PlanWithin(wf.steps, 0, [], Root, {}, forks);
    k := 0;
    if events != [] {
      var rest, e := events[..|events| - 1], events[|events| - 1];
      var w := After(wf, rest);
      k := AlwaysOnFreshPlan(wf, rest, condition);
      AlwaysOk(wf, rest);
      if e.AttemptRun? {
        StillFreshPlan(wf, w.db.logs, k, forks);
        k := AttemptAligned(wf, w.db, e.env, k);
      } else {
        OthersKeepAligned(wf, w, e, plan, k);
      }
    }
  }

  /** Progress along the fresh plan leaves the plan of the next attempt the fresh one. */
  lemma StillFreshPlan(wf: Workflow, logs: seq<ActionLog>, k: nat, forks: Forks)
    requires Aligned(RootPlan(wf.steps, {}, forks), k, logs)
    ensures RootPlan(wf.steps, StartedPaths(logs), forks) == RootPlan(wf.steps, {}, forks)
  {
    var plan := RootPlan(wf.steps, {}, forks);
    PlanWithin(wf.steps, 0, [], Root, {}, forks);
    StartedOnRoute(wf, logs, plan, k);
    PlanStable(wf.steps, 0, [], Root, StartedPaths(logs), forks);
  }

  /** A walk in which every step completes at once proceeds to its end. */
  lemma {:induction false} SmoothWalkProceeds(wf: Workflow, db: Db, leaves: seq<Leaf>, env: Env)
    requires Smooth(env) && DbOk(wf, db) && db.run.status.Running?
    requires DistinctPaths(leaves)
    requires forall l | l in leaves :: IsLeafOf(wf, l) && OverAtOnce(l, env) && FindWaiting(db.logs, l.path) < 0
    ensures RunLeaves(IndexOf(wf), db, leaves, env).1.Proceed?
    decreases |leaves|
  {
    if leaves != [] {
      var leaf, rest := leaves[0], leaves[1..];
      var (mid, o) := LeafOp(IndexOf(wf), db, leaf, env.tick(leaf.path));
      assert o.Proceed?;
      OpKeeps(wf, db, leaf, env.tick(leaf.path));
      OpShape(IndexOf(wf), db, leaf, env.tick(leaf.path));
      forall l | l in rest ensures FindWaiting(mid.logs, l.path) < 0 {
        var i :| 0 <= i < |rest| && rest[i] == l;
        assert leaves[0].path != leaves[i + 1].path;
        ShapeParksOnlyItself(db, leaf, mid, o, l.path);
      }
      SmoothWalkProceeds(wf, mid, rest, env);
    }
  }

  lemma ShapeParksOnlyItself(db: Db, leaf: Leaf, next: Db, o: Outcome, path: Path)
    requires Unwritten(db, leaf, next, o) || Appended(db, leaf, next, o) || Flipped(db, leaf, next, o)
    requires path != leaf.path && FindWaiting(db.logs, path) < 0
    ensures FindWaiting(next.logs, path) < 0
  {
    var w := FindWaiting(next.logs, path);
  }

  /** One uninterrupted attempt commits the whole fresh plan and completes. */
  lemma UninterruptedRun(wf: Workflow, env: Env)
    requires wf.steps != [] && Smooth(env) && forall l | l in Leaves(wf.steps) :: OverAtOnce(l, env)
    ensures var db := Attempt(wf, NewRun(), env);
            && db.run.status.Completed?
            && Committed(db.logs) == PathsOf(RootPlan(wf.steps, {}, ForksOf(wf, env)))
  {
    var plan := RootPlan(wf.steps, {}, ForksOf(wf, env));
    assert StartedPaths(NewRun().logs) == {};
    PlanWithin(wf.steps, 0, [], Root, {}, ForksOf(wf, env));
    SmoothWalkProceeds(wf, Claimed(NewRun()), plan, env);
    assert Aligned(plan, 0, NewRun().logs);
    var k := AttemptAligned(wf, NewRun(), env, 0);
  }

  /**
   Resuming refines an uninterrupted run. `whole` is any schedule that completes the run; RunRounds has one for every
   tree, in which nothing fails or dies. Whatever crashes, parks, retries and early wakes interrupt `events`, as long
   as its conditions decide as those of `whole`, it commits a prefix of what `whole` commits, in the same order, and
   all of it once completed.
   */
  lemma ResumeRefinesUninterrupted(wf: Workflow, events: seq<Event>, whole: seq<Event>, condition: (Path, ConditionGroup) -> bool)
    requires SameConditions(events, condition) && SameConditions(whole, condition)
    requires After(wf, whole).db.run.status.Completed?
    ensures var db, done := After(wf, events).db, After(wf, whole).db;
            && Committed(db.logs) <= Committed(done.logs)
            && (db.run.status.Completed? ==> Committed(db.logs) == Committed(done.logs))
  {
    var k := AlwaysOnFreshPlan(wf, events, condition);
    var n := AlwaysOnFreshPlan(wf, whole, condition);
  }

  /* ---- Splits decide the same way by construction ---- */

  /** The only forks are splits. */
  predicate NoConditions(steps: seq<Step>, i: nat)
    requires i <= |steps|
    decreases steps, 1, |steps| - i
  {
    i == |steps|
    || (!steps[i].Condition?
        && (steps[i].IsFork() ==> NoConditions(steps[i].yesSteps, 0) && NoConditions(steps[i].noSteps, 0))
        && NoConditions(steps, i + 1))
  }

  lemma {:induction false} PlanIgnoresConditions(steps: seq<Step>, i: nat, parent: Path, branch: Branch, started: set<Path>, f: Forks, g: Forks)
    requires i <= |steps| && NoConditions(steps, i) && f.roll == g.roll
    ensures Plan(steps, i, parent, branch, started, f) == Plan(steps, i, parent, branch, started, g)
    decreases steps, 1, |steps| - i
  {
    if i < |steps| {
      var path := BuildStepPath(parent, branch, i);
      if steps[i].IsFork() {
        PlanIgnoresConditions(steps[i].yesSteps, 0, path, Yes, started, f, g);
        PlanIgnoresConditions(steps[i].noSteps, 0, path, No, started, f, g);
      }
      PlanIgnoresConditions(steps, i + 1, parent, branch, started, f, g);
    }
  }

  /** The schedule with every attempt's conditions replaced. */
  function WithCondition(events: seq<Event>, condition: (Path, ConditionGroup) -> bool): seq<Event> {
    seq(|events|, i requires 0 <= i < |events| =>
      match events[i]
      case AttemptRun(env) => AttemptRun(env.(condition := condition))
      case e => e)
  }

  /** The same leaves walked under the same ticks: what a walk does never depends on the conditions. */
  lemma {:induction false} WalkIgnoresConditions(index: map<Path, StepId>, db: Db, leaves: seq<Leaf>, env: Env,
                                                 condition: (Path, ConditionGroup) -> bool)
    ensures RunLeaves(index, db, leaves, env) == RunLeaves(index, db, leaves, env.(condition := condition))
    decreases |leaves|
  {
    if leaves != [] {
      var (mid, o) := LeafOp(index, db, leaves[0], env.tick(leaves[0].path));
      if o.Proceed? {
        WalkIgnoresConditions(index, mid, leaves[1..], env, condition);
      }
    }
  }

  lemma {:induction false} AfterIgnoresConditions(wf: Workflow, events: seq<Event>, condition: (Path, ConditionGroup) -> bool)
    requires NoConditions(wf.steps, 0)
    ensures After(wf, WithCondition(events, condition)) == After(wf, events)
    decreases |events|
  {
    if events != [] {
      var rest, e := events[..|events| - 1], events[|events| - 1];
      assert WithCondition(events, condition)[..|events| - 1] == WithCondition(rest, condition);
      AfterIgnoresConditions(wf, rest, condition);
      if e.AttemptRun? {
        var db := After(wf, rest).db;
        var started, same := StartedPaths(db.logs), e.env.(condition := condition);
        PlanIgnoresConditions(wf.steps, 0, [], Root, started, ForksOf(wf, e.env), ForksOf(wf, same));
        WalkIgnoresConditions(IndexOf(wf), Claimed(db), RootPlan(wf.steps, started, ForksOf(wf, same)), e.env, condition);
      }
    }
  }

  /** Trees whose only forks are splits need no hypothesis on conditions: every schedule refines every completed one. */
  lemma SplitsRefineUninterrupted(wf: Workflow, events: seq<Event>, whole: seq<Event>)
    requires NoConditions(wf.steps, 0) && After(wf, whole).db.run.status.Completed?
    ensures var db, done := After(wf, events).db, After(wf, whole).db;
            && Committed(db.logs) <= Committed(done.logs)
            && (db.run.status.Completed? ==> Committed(db.logs) == Committed(done.logs))
  {
    var never := (_, _) => false;
    AfterIgnoresConditions(wf, events, never);
    AfterIgnoresConditions(wf, whole, never);
    ResumeRefinesUninterrupted(wf, WithCondition(events, never), WithCondition(whole, never), never);
  }
}
