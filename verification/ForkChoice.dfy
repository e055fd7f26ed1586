/** Which way a fork sends a run (split.go, and the condition and split cases of executeStepsWithState). */
module ForkChoice {
  import opened Common
  import opened Conditions
  import opened StepTree
  import opened RunStore
  import opened RunLogs
  import opened RunRoutes
  import opened RunSafety

  /** The share of runs a split sends to its yes side, in percent: half when none is configured. */
  function Share(step: Step): int
    requires step.Split?
  {
    if step.percentA.Some? then step.percentA.value else 50
  }

  /** What a fork decides while nothing under it has started. */
  predicate SaysYes(step: Step, path: Path, forks: Forks)
    requires step.IsFork()
  {
    if step.Split? then forks.roll(step.id) < Share(step)
    else step.condition.Some? && forks.condition(path, step.condition.value)
  }

  /** The plan through a fork nobody has entered is the plan of the side it decides for, and holds no leaf of the other. */
  lemma FreshForkPlan(step: Step, path: Path, started: set<Path>, forks: Forks)
    requires step.IsFork() && !Touched(StepLeaves(step, path), started)
    ensures StepPlan(step, path, started, forks)
         == if SaysYes(step, path, forks) then Plan(step.yesSteps, 0, path, Yes, started, forks)
            else Plan(step.noSteps, 0, path, No, started, forks)
    ensures var other := if SaysYes(step, path, forks) then AllLeaves(step.noSteps, 0, path, No) else AllLeaves(step.yesSteps, 0, path, Yes);
            forall l | l in StepPlan(step, path, started, forks) :: l !in other
  {
    var yes, no := AllLeaves(step.yesSteps, 0, path, Yes), AllLeaves(step.noSteps, 0, path, No);
    assert forall l | l in yes :: l in StepLeaves(step, path);
    assert forall l | l in no :: l in StepLeaves(step, path);
    PlanWithin(step.yesSteps, 0, path, Yes, started, forks);
    PlanWithin(step.noSteps, 0, path, No, started, forks);
    BranchesApart(step, path);
  }

  /** A fork with progress keeps its side, whatever it would decide now. */
  lemma StartedForkPlan(step: Step, path: Path, started: set<Path>, forks: Forks)
    requires step.IsFork()
    ensures Touched(AllLeaves(step.yesSteps, 0, path, Yes), started)
        ==> StepPlan(step, path, started, forks) == Plan(step.yesSteps, 0, path, Yes, started, forks)
    ensures !Touched(AllLeaves(step.yesSteps, 0, path, Yes), started) && Touched(AllLeaves(step.noSteps, 0, path, No), started)
        ==> StepPlan(step, path, started, forks) == Plan(step.noSteps, 0, path, No, started, forks)
  {
    assert Plan(step.yesSteps, 0, path, Yes, started, forks) == Plan(step.yesSteps, 0, path, Yes, started, forks);
  }

  /* ---- Whole runs ---- */

  /** Nothing has started on the side a split's hash rules out, nor on the yes side of a condition without a group. */
  predicate Obeyed(steps: seq<Step>, i: nat, parent: Path, branch: Branch, roll: StepId -> int, s: set<Path>)
    requires i <= |steps|
    decreases steps, 1, |steps| - i
  {
    i == |steps|
    || (StepObeyed(steps[i], BuildStepPath(parent, branch, i), roll, s) && Obeyed(steps, i + 1, parent, branch, roll, s))
  }

  predicate StepObeyed(step: Step, path: Path, roll: StepId -> int, s: set<Path>)
    decreases step, 2
  {
    step.IsFork() ==>
      && (step.Split? && roll(step.id) < Share(step) ==> !Touched(AllLeaves(step.noSteps, 0, path, No), s))
      && (step.Split? && roll(step.id) >= Share(step) ==> !Touched(AllLeaves(step.yesSteps, 0, path, Yes), s))
      && (step.Condition? && step.condition.None? ==> !Touched(AllLeaves(step.yesSteps, 0, path, Yes), s))
      && Obeyed(step.yesSteps, 0, path, Yes, roll, s)
      && Obeyed(step.noSteps, 0, path, No, roll, s)
  }

  lemma {:induction false} NothingStartedIsObeyed(steps: seq<Step>, i: nat, parent: Path, branch: Branch, roll: StepId -> int)
    requires i <= |steps|
    ensures Obeyed(steps, i, parent, branch, roll, {})
    decreases steps, 1, |steps| - i
  {
    if i < |steps| {
      if steps[i].IsFork() {
        NothingStartedIsObeyed(steps[i].yesSteps, 0, BuildStepPath(parent, branch, i), Yes, roll);
        NothingStartedIsObeyed(steps[i].noSteps, 0, BuildStepPath(parent, branch, i), No, roll);
      }
      NothingStartedIsObeyed(steps, i + 1, parent, branch, roll);
    }
  }

  /** Progress made along a plan stays on the sides the splits decide for. */
  lemma {:induction false} PlanObeys(steps: seq<Step>, i: nat, parent: Path, branch: Branch, s: set<Path>, t: set<Path>, forks: Forks)
    requires i <= |steps| && Obeyed(steps, i, parent, branch, forks.roll, s)
    requires forall l | l in AllLeaves(steps, i, parent, branch) && l.path in t
               :: l.path in s || l in Plan(steps, i, parent, branch, s, forks)
    ensures Obeyed(steps, i, parent, branch, forks.roll, t)
    decreases steps, 1, |steps| - i
  {
    if i < |steps| {
      var path := BuildStepPath(parent, branch, i);
      SiblingsApart(steps, i, parent, branch);
      PlanWithin(steps, i + 1, parent, branch, s, forks);
      StepPlanWithin(steps[i], path, s, forks);
      SplitsProgress(StepLeaves(steps[i], path), AllLeaves(steps, i + 1, parent, branch),
                     StepPlan(steps[i], path, s, forks), Plan(steps, i + 1, parent, branch, s, forks), s, t);
      StepPlanObeys(steps[i], path, s, t, forks);
      PlanObeys(steps, i + 1, parent, branch, s, t, forks);
    }
  }

  lemma {:induction false} StepPlanObeys(step: Step, path: Path, s: set<Path>, t: set<Path>, forks: Forks)
    requires StepObeyed(step, path, forks.roll, s)
    requires forall l | l in StepLeaves(step, path) && l.path in t :: l.path in s || l in StepPlan(step, path, s, forks)
    ensures StepObeyed(step, path, forks.roll, t)
    decreases step, 2
  {
    if step.IsFork() {
      BranchesApart(step, path);
      PlanWithin(step.yesSteps, 0, path, Yes, s, forks);
      PlanWithin(step.noSteps, 0, path, No, s, forks);
      PlanObeys(step.yesSteps, 0, path, Yes, s, t, forks);
      PlanObeys(step.noSteps, 0, path, No, s, t, forks);
    }
  }

  /**
   Under any schedule, no step on the side a split's hash rules out is ever committed or parked, and none on the yes side
   of a condition without a group: the hash decides for good, not only while the fork is fresh.
   */
  lemma {:induction false} HashDecidesForGood(wf: Workflow, events: seq<Event>)
    ensures Obeyed(wf.steps, 0, [], Root, wf.roll, StartedPaths(After(wf, events).db.logs))
    decreases |events|
  {
    if events == [] {
      assert StartedPaths([]) == {};
      NothingStartedIsObeyed(wf.steps, 0, [], Root, wf.roll);
    } else {
      var rest, e := events[..|events| - 1], events[|events| - 1];
      var w := After(wf, rest);
      HashDecidesForGood(wf, rest);
      AlwaysOk(wf, rest);
      EventKeeps(wf, w, e);
      if e.AttemptRun? {
        AttemptStartsOnPlan(wf, w.db, e.env);
        PlanObeys(wf.steps, 0, [], Root, StartedPaths(w.db.logs), StartedPaths(Attempt(wf, w.db, e.env).logs), ForksOf(wf, e.env));
      }
    }
  }

  /** How many of the hash values below n send a fresh split to its yes side. */
  function TakenBelow(step: Step, path: Path, condition: (Path, ConditionGroup) -> bool, n: nat): nat
    requires step.Split?
  {
    if n == 0 then 0
    else TakenBelow(step, path, condition, n - 1) + (if TakesYes(step, path, {}, Forks(condition, (_: StepId) => n - 1)) then 1 else 0)
  }

  /** Of the hundred hash values a split sends exactly its share to the yes side. */
  lemma ShareIsExact(step: Step, path: Path, condition: (Path, ConditionGroup) -> bool)
    requires step.Split? && 0 <= Share(step) <= 100
    ensures TakenBelow(step, path, condition, 100) == Share(step)
  {
    CountTaken(step, path, condition, 100);
  }

  lemma {:induction false} CountTaken(step: Step, path: Path, condition: (Path, ConditionGroup) -> bool, n: nat)
    requires step.Split? && 0 <= Share(step)
    ensures TakenBelow(step, path, condition, n) == if n <= Share(step) then n else Share(step)
  {
    if n > 0 {
      CountTaken(step, path, condition, n - 1);
      assert TakesYes(step, path, {}, Forks(condition, (_: StepId) => n - 1)) <==> n - 1 < Share(step);
    }
  }
}
