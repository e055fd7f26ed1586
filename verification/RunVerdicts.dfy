/** The routes of a run whose conditions are evaluated afresh at every attempt, over data that may have changed. */
module RunVerdicts {
  import opened Conditions
  import opened StepTree
  import opened RunStore
  import opened RunLogs
  import opened RunRoutes

  /* ---- The verdicts an attempt's conditions can give ---- */

  /** The steps that come before a fork at this path, on every route through it (forks last). */
  function StepsBefore(path: Path): nat {
    if path == [] then 0 else StepsBefore(path[..|path| - 1]) + path[|path| - 1].index
  }

  /** The conditions after n steps evaluate their groups over this data. */
  ghost predicate DecidedBy(condition: Verdicts, compare: Comparison, n: nat, data: Fields) {
    forall p, g | StepsBefore(p) == n :: condition(p, g) == EvaluateConditions(g, data, compare)
  }

  /** Every condition evaluates its group over the run's data as it is after the steps before it. */
  ghost predicate Evaluates(condition: Verdicts, compare: Comparison) {
    forall n: nat :: Decided(condition, compare, n)
  }

  ghost predicate Decided(condition: Verdicts, compare: Comparison, n: nat) {
    exists data :: DecidedBy(condition, compare, n, data)
  }

  /** Each attempt evaluates its conditions over data of its own. */
  ghost predicate Evaluated(events: seq<Event>, compare: Comparison) {
    forall i :: 0 <= i < |events| && events[i].AttemptRun? ==> Evaluates(events[i].env.condition, compare)
  }

  /** The first n steps were decided by c, what follows by d. */
  function Mix(n: nat, c: Verdicts, d: Verdicts): Verdicts {
    (p, g) => if StepsBefore(p) < n then c(p, g) else d(p, g)
  }

  lemma MixEvaluates(n: nat, c: Verdicts, d: Verdicts, compare: Comparison)
    requires Evaluates(c, compare) && Evaluates(d, compare)
    ensures Evaluates(Mix(n, c, d), compare)
  {
    forall k: nat ensures Decided(Mix(n, c, d), compare, k) {
      assert Decided(c, compare, k) && Decided(d, compare, k);
      var before :| DecidedBy(c, compare, k, before);
      var after :| DecidedBy(d, compare, k, after);
      assert DecidedBy(Mix(n, c, d), compare, k, if k < n then before else after);
    }
  }

  /** With the first n leaves of c's route started, the plan under d is the route of the mixture. */
  lemma {:induction false} PlanMixes(steps: seq<Step>, i: nat, parent: Path, branch: Branch, s: set<Path>, n: nat, m: nat,
                                     c: Verdicts, d: Verdicts, roll: StepId -> int)
    requires i <= |steps| && ForksLast(steps, i)
    requires var route := Plan(steps, i, parent, branch, {}, Forks(c, roll));
             n <= |route| && forall l | l in AllLeaves(steps, i, parent, branch) :: l.path in s <==> l in route[..n]
    requires if n > 0 then m == StepsBefore(parent) + i + n else m <= StepsBefore(parent) + i
    ensures Plan(steps, i, parent, branch, s, Forks(d, roll)) == Plan(steps, i, parent, branch, {}, Forks(Mix(m, c, d), roll))
    decreases steps, 2, |steps| - i
  {
    if i < |steps| {
      var step, path := steps[i], BuildStepPath(parent, branch, i);
      var route := Plan(steps, i, parent, branch, {}, Forks(c, roll));
      assert path[..|path| - 1] == parent;
      if step.IsFork() {
        assert AllLeaves(steps, i, parent, branch) == StepLeaves(step, path);
        assert route == StepPlan(step, path, {}, Forks(c, roll));
        ForkMixes(step, path, s, n, m, c, d, roll);
      } else {
        var rest := Plan(steps, i + 1, parent, branch, {}, Forks(c, roll));
        assert route == [Leaf(path, step)] + rest;
        LaterProgress(steps, i, parent, branch, s, n, route, rest);
        PlanMixes(steps, i + 1, parent, branch, s, if n > 0 then n - 1 else 0, m, c, d, roll);
      }
    }
  }

  lemma LaterProgress(steps: seq<Step>, i: nat, parent: Path, branch: Branch, s: set<Path>, n: nat, route: seq<Leaf>, rest: seq<Leaf>)
    requires i < |steps| && !steps[i].IsFork() && n <= |route|
    requires route == [Leaf(BuildStepPath(parent, branch, i), steps[i])] + rest
    requires forall l | l in AllLeaves(steps, i, parent, branch) :: l.path in s <==> l in route[..n]
    ensures forall l | l in AllLeaves(steps, i + 1, parent, branch) :: l.path in s <==> l in rest[..if n > 0 then n - 1 else 0]
  {
    SiblingsApart(steps, i, parent, branch);
    if n > 0 { assert route[..n] == [route[0]] + rest[..n - 1]; }
    forall l | l in AllLeaves(steps, i + 1, parent, branch) ensures l != route[0] && l in AllLeaves(steps, i, parent, branch) {
      assert route[0] in StepLeaves(steps[i], BuildStepPath(parent, branch, i));
    }
  }

  lemma {:induction false} ForkMixes(step: Step, path: Path, s: set<Path>, n: nat, m: nat,
                                     c: Verdicts, d: Verdicts, roll: StepId -> int)
    requires step.IsFork() && ForksLast(step.yesSteps, 0) && ForksLast(step.noSteps, 0)
    requires var route := StepPlan(step, path, {}, Forks(c, roll));
             n <= |route| && forall l | l in StepLeaves(step, path) :: l.path in s <==> l in route[..n]
    requires if n > 0 then m == StepsBefore(path) + n else m <= StepsBefore(path)
    ensures StepPlan(step, path, s, Forks(d, roll)) == StepPlan(step, path, {}, Forks(Mix(m, c, d), roll))
    decreases step, 3
  {
    var yes := ForkFollows(step, path, s, n, m, c, d, roll);
    PlanWithin(step.yesSteps, 0, path, Yes, {}, Forks(c, roll));
    PlanWithin(step.noSteps, 0, path, No, {}, Forks(c, roll));
    var same := TakesYes(step, path, {}, Forks(c, roll)) == yes;
    BranchesApart(step, path);
    if yes {
      PlanMixes(step.yesSteps, 0, path, Yes, s, if same then n else 0, m, c, d, roll);
    } else {
      PlanMixes(step.noSteps, 0, path, No, s, if same then n else 0, m, c, d, roll);
    }
  }

  /** With progress in it the fork goes on as c decided, else as d decides; so does the mixture. */
  lemma ForkFollows(step: Step, path: Path, s: set<Path>, n: nat, m: nat, c: Verdicts, d: Verdicts, roll: StepId -> int) returns (yes: bool)
    requires step.IsFork()
    requires var route := StepPlan(step, path, {}, Forks(c, roll));
             n <= |route| && forall l | l in StepLeaves(step, path) :: l.path in s <==> l in route[..n]
    requires if n > 0 then m == StepsBefore(path) + n else m <= StepsBefore(path)
    ensures n > 0 ==> yes == TakesYes(step, path, {}, Forks(c, roll))
    ensures yes == TakesYes(step, path, {}, Forks(Mix(m, c, d), roll))
    ensures StepPlan(step, path, s, Forks(d, roll))
         == if yes then Plan(step.yesSteps, 0, path, Yes, s, Forks(d, roll)) else Plan(step.noSteps, 0, path, No, s, Forks(d, roll))
  {
    yes := TakesYes(step, path, {}, if n > 0 then Forks(c, roll) else Forks(d, roll));
    if n > 0 {
      PlanWithin(step.yesSteps, 0, path, Yes, {}, Forks(c, roll));
      PlanWithin(step.noSteps, 0, path, No, {}, Forks(c, roll));
      KeepsToBranch(step, path, if yes then Yes else No, StepPlan(step, path, {}, Forks(c, roll)), n, s, Forks(d, roll));
    } else {
      assert forall l | l in StepLeaves(step, path) :: l.path !in s;
    }
  }

  /** An attempt on a table aligned with a route walks a route that agrees with it so far. */
  lemma NextRoute(wf: Workflow, logs: seq<ActionLog>, k: nat, c: Verdicts, d: Verdicts) returns (mixed: Verdicts)
    requires ForksLast(wf.steps, 0) && Aligned(Route(wf, c), k, logs)
    ensures RootPlan(wf.steps, StartedPaths(logs), Forks(d, wf.roll)) == Route(wf, mixed)
    ensures Aligned(Route(wf, mixed), k, logs)
    ensures forall compare :: Evaluates(c, compare) && Evaluates(d, compare) ==> Evaluates(mixed, compare)
  {
    var n := if ParkedPaths(logs) == [] then k else k + 1;
    mixed := Mix(n, c, d);
    PlanWithin(wf.steps, 0, [], Root, {}, Forks(c, wf.roll));
    StartedOnRoute(wf, logs, Route(wf, c), k);
    PlanMixes(wf.steps, 0, [], Root, StartedPaths(logs), n, n, c, d, wf.roll);
    ForksLastIsSolid(wf.steps, 0);
    NextPlanAligned(wf, logs, c, k, Forks(d, wf.roll));
    forall compare | Evaluates(c, compare) && Evaluates(d, compare) ensures Evaluates(mixed, compare) {
      MixEvaluates(n, c, d, compare);
    }
  }

  /** The table is aligned with a route its conditions can give, and a completed run has committed all of it. */
  ghost predicate OnItsRoute(wf: Workflow, compare: Comparison, db: Db, c: Verdicts, k: nat) {
    && Evaluates(c, compare) && Aligned(Route(wf, c), k, db.logs)
    && (db.run.status.Completed? ==> k == |Route(wf, c)| && ParkedPaths(db.logs) == [])
  }

  lemma AnyVerdicts(compare: Comparison) returns (c: Verdicts)
    ensures Evaluates(c, compare)
  {
    var none: Fields := map[];
    c := (p, g) => EvaluateConditions(g, none, compare);
    forall n: nat ensures Decided(c, compare, n) {
      assert DecidedBy(c, compare, n, none);
    }
  }

  lemma {:induction false} AlwaysOnItsRoute(wf: Workflow, compare: Comparison, events: seq<Event>) returns (c: Verdicts, k: nat)
    requires ForksLast(wf.steps, 0) && Evaluated(events, compare)
    ensures OnItsRoute(wf, compare, After(wf, events).db, c, k)
    decreases |events|
  {
    if events == [] {
      c := AnyVerdicts(compare);
      k := 0;
      PlanWithin(wf.steps, 0, [], Root, {}, Forks(c, wf.roll));
    } else {
      var rest, e := events[..|events| - 1], events[|events| - 1];
      var w := After(wf, rest);
      c, k := AlwaysOnItsRoute(wf, compare, rest);
      AlwaysOk(wf, rest);
      if e.AttemptRun? {
        var before := c;
        c := NextRoute(wf, w.db.logs, k, c, e.env.condition);
        var now := k;
        k := AttemptAligned(wf, w.db, e.env, k);
        if Attempt(wf, w.db, e.env) == w.db { c, k := before, now; }
      } else {
        OthersKeepAligned(wf, w, e, Route(wf, c), k);
      }
    }
  }
}
