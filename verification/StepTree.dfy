/** The steps tree of a workflow version, its structural paths, and the leaves one walk of it visits. */
module StepTree {
  import opened Common
  import opened Conditions

  type StepId = string

  datatype Branch = Root | Yes | No

  datatype Segment = Segment(branch: Branch, index: nat)

  /** A structural step path, e.g. "1|yes|2". StepPaths proves the string form faithful. */
  type Path = seq<Segment>

  function BuildStepPath(parent: Path, branch: Branch, index: nat): Path {
    parent + [Segment(branch, index)]
  }

  datatype DelayParams =
    DelayParams(durationSec: int, untilField: string, waitEvent: string, timeoutSec: int)
  {
    predicate IsWaitEvent() { waitEvent != "" }
    predicate IsWaitUntil() { !IsWaitEvent() && untilField != "" }
  }

  datatype Step =
    | Action(id: StepId)
    | Delay(id: StepId, delay: Option<DelayParams>)
    | Condition(id: StepId, condition: Option<ConditionGroup>, yesSteps: seq<Step>, noSteps: seq<Step>)
    | Split(id: StepId, percentA: Option<int>, yesSteps: seq<Step>, noSteps: seq<Step>)
  {
    predicate IsFork() { Condition? || Split? }
    predicate IsWaitEvent() { Delay? && delay.Some? && delay.value.IsWaitEvent() }
  }

  /** A leaf step (action or delay) with the path it sits at. */
  datatype Leaf = Leaf(path: Path, step: Step)

  /** How forks decide when nothing under them has started. */
  datatype Forks = Forks(condition: (Path, ConditionGroup) -> bool, roll: StepId -> int)

  const DEFAULT_PERCENT_A := 50

  /** splitTakesA and the condition evaluation: the decision of a fork nobody has entered yet. */
  predicate FreshChoice(step: Step, path: Path, forks: Forks)
    requires step.IsFork()
  {
    match step
    case Condition(_, group, _, _) => group.Some? && forks.condition(path, group.value)
    case Split(id, percentA, _, _) => forks.roll(id) < percentA.GetOr(DEFAULT_PERCENT_A)
  }

  /* ---- All leaves, and the leaves one walk visits ---- */

  /** Every leaf of the list from index i on, both branches of each fork, in walk order. */
  function AllLeaves(steps: seq<Step>, i: nat, parent: Path, branch: Branch): seq<Leaf>
    requires i <= |steps|
    decreases steps, 1, |steps| - i
  {
    if i == |steps| then []
    else StepLeaves(steps[i], BuildStepPath(parent, branch, i)) + AllLeaves(steps, i + 1, parent, branch)
  }

  function StepLeaves(step: Step, path: Path): seq<Leaf>
    decreases step, 2
  {
    if step.IsFork() then AllLeaves(step.yesSteps, 0, path, Yes) + AllLeaves(step.noSteps, 0, path, No)
    else [Leaf(path, step)]
  }

  predicate Touched(leaves: seq<Leaf>, started: set<Path>) {
    exists l | l in leaves :: l.path in started
  }

  /** The branch a fork takes: one that already has progress keeps it, otherwise the fork decides afresh. */
  predicate TakesYes(step: Step, path: Path, started: set<Path>, forks: Forks)
    requires step.IsFork()
  {
    Touched(AllLeaves(step.yesSteps, 0, path, Yes), started)
    || (!Touched(AllLeaves(step.noSteps, 0, path, No), started) && FreshChoice(step, path, forks))
  }

  /** The leaves one attempt walks over, in order, given what had started before it. */
  function Plan(steps: seq<Step>, i: nat, parent: Path, branch: Branch, started: set<Path>, forks: Forks): seq<Leaf>
    requires i <= |steps|
    decreases steps, 1, |steps| - i
  {
    if i == |steps| then []
    else StepPlan(steps[i], BuildStepPath(parent, branch, i), started, forks)
         + Plan(steps, i + 1, parent, branch, started, forks)
  }

  function StepPlan(step: Step, path: Path, started: set<Path>, forks: Forks): seq<Leaf>
    decreases step, 2
  {
    if !step.IsFork() then [Leaf(path, step)]
    else if TakesYes(step, path, started, forks) then Plan(step.yesSteps, 0, path, Yes, started, forks)
    else Plan(step.noSteps, 0, path, No, started, forks)
  }

  /** All leaves of a whole workflow, and the plan of a whole attempt. */
  function Leaves(steps: seq<Step>): seq<Leaf> { AllLeaves(steps, 0, [], Root) }

  function RootPlan(steps: seq<Step>, started: set<Path>, forks: Forks): seq<Leaf> {
    Plan(steps, 0, [], Root, started, forks)
  }

  function PathsOf(leaves: seq<Leaf>): (paths: seq<Path>)
    ensures |paths| == |leaves|
    ensures forall i :: 0 <= i < |leaves| ==> paths[i] == leaves[i].path
  {
    seq(|leaves|, i requires 0 <= i < |leaves| => leaves[i].path)
  }

  /* ---- Paths are distinct ---- */

  /** The path lies in the subtree of the list (parent, branch), at index i or later. */
  predicate Under(path: Path, parent: Path, branch: Branch, i: nat) {
    && |path| > |parent|
    && path[..|parent|] == parent
    && path[|parent|].branch == branch
    && path[|parent|].index >= i
  }

  lemma {:induction false} LeavesUnder(steps: seq<Step>, i: nat, parent: Path, branch: Branch)
    requires i <= |steps|
    ensures forall l | l in AllLeaves(steps, i, parent, branch) :: Under(l.path, parent, branch, i)
    decreases steps, 1, |steps| - i
  {
    if i < |steps| {
      var path := BuildStepPath(parent, branch, i);
      StepLeavesUnder(steps[i], path);
      LeavesUnder(steps, i + 1, parent, branch);
      forall l | l in StepLeaves(steps[i], path) ensures Under(l.path, parent, branch, i) {
        assert l.path[..|path|] == path;
        assert l.path[|parent|] == path[|parent|];
        assert l.path[..|parent|] == path[..|parent|] == parent;
      }
    }
  }

  lemma {:induction false} StepLeavesUnder(step: Step, path: Path)
    ensures forall l | l in StepLeaves(step, path) :: |l.path| >= |path| && l.path[..|path|] == path
    decreases step, 2
  {
    if step.IsFork() {
      LeavesUnder(step.yesSteps, 0, path, Yes);
      LeavesUnder(step.noSteps, 0, path, No);
    }
  }

  /** The leaves of one step never share a path with the leaves of a later sibling. */
  lemma SiblingsApart(steps: seq<Step>, i: nat, parent: Path, branch: Branch)
    requires i < |steps|
    ensures forall l, m | l in StepLeaves(steps[i], BuildStepPath(parent, branch, i)) && m in AllLeaves(steps, i + 1, parent, branch)
              :: l.path != m.path
  {
    var path := BuildStepPath(parent, branch, i);
    StepLeavesUnder(steps[i], path);
    LeavesUnder(steps, i + 1, parent, branch);
    forall l, m | l in StepLeaves(steps[i], path) && m in AllLeaves(steps, i + 1, parent, branch)
      ensures l.path != m.path
    {
      assert l.path[..|path|][|parent|] == path[|parent|];
    }
  }

  /** The two branches of a fork never share a path. */
  lemma BranchesApart(step: Step, path: Path)
    requires step.IsFork()
    ensures forall l, m | l in AllLeaves(step.yesSteps, 0, path, Yes) && m in AllLeaves(step.noSteps, 0, path, No)
              :: l.path != m.path
  {
    LeavesUnder(step.yesSteps, 0, path, Yes);
    LeavesUnder(step.noSteps, 0, path, No);
  }

  predicate DistinctPaths(leaves: seq<Leaf>) {
    forall i, j :: 0 <= i < j < |leaves| ==> leaves[i].path != leaves[j].path
  }

  lemma DistinctConcat(a: seq<Leaf>, b: seq<Leaf>)
    requires DistinctPaths(a) && DistinctPaths(b)
    requires forall l, m | l in a && m in b :: l.path != m.path
    ensures DistinctPaths(a + b)
  {
    forall i, j | 0 <= i < j < |a + b| ensures (a + b)[i].path != (a + b)[j].path {
      if i < |a| <= j {
        assert a[i] in a && b[j - |a|] in b;
      }
    }
  }

  lemma {:induction false} LeavesDistinct(steps: seq<Step>, i: nat, parent: Path, branch: Branch)
    requires i <= |steps|
    ensures DistinctPaths(AllLeaves(steps, i, parent, branch))
    decreases steps, 1, |steps| - i
  {
    if i < |steps| {
      var path := BuildStepPath(parent, branch, i);
      StepLeavesDistinct(steps[i], path);
      LeavesDistinct(steps, i + 1, parent, branch);
      SiblingsApart(steps, i, parent, branch);
      DistinctConcat(StepLeaves(steps[i], path), AllLeaves(steps, i + 1, parent, branch));
    }
  }

  lemma {:induction false} StepLeavesDistinct(step: Step, path: Path)
    ensures DistinctPaths(StepLeaves(step, path))
    decreases step, 2
  {
    if step.IsFork() {
      LeavesDistinct(step.yesSteps, 0, path, Yes);
      LeavesDistinct(step.noSteps, 0, path, No);
      BranchesApart(step, path);
      DistinctConcat(AllLeaves(step.yesSteps, 0, path, Yes), AllLeaves(step.noSteps, 0, path, No));
    }
  }

  /* ---- A plan is made of leaves, without repetition ---- */

  lemma {:induction false} PlanWithin(steps: seq<Step>, i: nat, parent: Path, branch: Branch, started: set<Path>, forks: Forks)
    requires i <= |steps|
    ensures forall l | l in Plan(steps, i, parent, branch, started, forks) :: l in AllLeaves(steps, i, parent, branch)
    ensures DistinctPaths(Plan(steps, i, parent, branch, started, forks))
    decreases steps, 1, |steps| - i
  {
    if i < |steps| {
      var path := BuildStepPath(parent, branch, i);
      StepPlanWithin(steps[i], path, started, forks);
      PlanWithin(steps, i + 1, parent, branch, started, forks);
      SiblingsApart(steps, i, parent, branch);
      DistinctConcat(StepPlan(steps[i], path, started, forks), Plan(steps, i + 1, parent, branch, started, forks));
    }
  }

  lemma {:induction false} StepPlanWithin(step: Step, path: Path, started: set<Path>, forks: Forks)
    ensures forall l | l in StepPlan(step, path, started, forks) :: l in StepLeaves(step, path)
    ensures DistinctPaths(StepPlan(step, path, started, forks))
    decreases step, 2
  {
    if step.IsFork() {
      PlanWithin(step.yesSteps, 0, path, Yes, started, forks);
      PlanWithin(step.noSteps, 0, path, No, started, forks);
    }
  }

  lemma {:induction false} AllAreLeaves(steps: seq<Step>, i: nat, parent: Path, branch: Branch)
    requires i <= |steps|
    ensures forall l | l in AllLeaves(steps, i, parent, branch) :: !l.step.IsFork()
    decreases steps, 1, |steps| - i
  {
    if i < |steps| {
      var step := steps[i];
      var path := BuildStepPath(parent, branch, i);
      if step.IsFork() {
        AllAreLeaves(step.yesSteps, 0, path, Yes);
        AllAreLeaves(step.noSteps, 0, path, No);
      }
      AllAreLeaves(steps, i + 1, parent, branch);
    }
  }

  /* ---- A plan depends only on what started inside its own subtree ---- */

  predicate Agree(leaves: seq<Leaf>, s: set<Path>, t: set<Path>) {
    forall l | l in leaves :: l.path in s <==> l.path in t
  }

  lemma {:induction false} PlanLocal(steps: seq<Step>, i: nat, parent: Path, branch: Branch, s: set<Path>, t: set<Path>, forks: Forks)
    requires i <= |steps|
    requires Agree(AllLeaves(steps, i, parent, branch), s, t)
    ensures Plan(steps, i, parent, branch, s, forks) == Plan(steps, i, parent, branch, t, forks)
    decreases steps, 1, |steps| - i
  {
    if i < |steps| {
      StepPlanLocal(steps[i], BuildStepPath(parent, branch, i), s, t, forks);
      PlanLocal(steps, i + 1, parent, branch, s, t, forks);
    }
  }

  lemma {:induction false} StepPlanLocal(step: Step, path: Path, s: set<Path>, t: set<Path>, forks: Forks)
    requires Agree(StepLeaves(step, path), s, t)
    ensures StepPlan(step, path, s, forks) == StepPlan(step, path, t, forks)
    decreases step, 2
  {
    if step.IsFork() {
      PlanLocal(step.yesSteps, 0, path, Yes, s, t, forks);
      PlanLocal(step.noSteps, 0, path, No, s, t, forks);
    }
  }

  /* ---- Fixed decisions: progress on a plan never changes the plan ---- */

  /** If everything started in the subtree lies on the fresh plan, the plan is still the fresh one. */
  lemma {:induction false} PlanStable(steps: seq<Step>, i: nat, parent: Path, branch: Branch, s: set<Path>, forks: Forks)
    requires i <= |steps|
    requires forall l | l in AllLeaves(steps, i, parent, branch) && l.path in s :: l in Plan(steps, i, parent, branch, {}, forks)
    ensures Plan(steps, i, parent, branch, s, forks) == Plan(steps, i, parent, branch, {}, forks)
    decreases steps, 1, |steps| - i
  {
    if i < |steps| {
      var path := BuildStepPath(parent, branch, i);
      SiblingsApart(steps, i, parent, branch);
      PlanWithin(steps, i + 1, parent, branch, {}, forks);
      StepPlanWithin(steps[i], path, {}, forks);
      StepPlanStable(steps[i], path, s, forks);
      PlanStable(steps, i + 1, parent, branch, s, forks);
    }
  }

  lemma {:induction false} StepPlanStable(step: Step, path: Path, s: set<Path>, forks: Forks)
    requires forall l | l in StepLeaves(step, path) && l.path in s :: l in StepPlan(step, path, {}, forks)
    ensures StepPlan(step, path, s, forks) == StepPlan(step, path, {}, forks)
    decreases step, 2
  {
    if step.IsFork() {
      BranchesApart(step, path);
      PlanWithin(step.yesSteps, 0, path, Yes, {}, forks);
      PlanWithin(step.noSteps, 0, path, No, {}, forks);
      if TakesYes(step, path, {}, forks) {
        PlanStable(step.yesSteps, 0, path, Yes, s, forks);
      } else {
        PlanStable(step.noSteps, 0, path, No, s, forks);
      }
    }
  }

  /* ---- One branch only ---- */

  /** No fork from index i on has progress in both of its branches. */
  predicate Pinned(steps: seq<Step>, i: nat, parent: Path, branch: Branch, s: set<Path>)
    requires i <= |steps|
    decreases steps, 1, |steps| - i
  {
    i == |steps|
    || (StepPinned(steps[i], BuildStepPath(parent, branch, i), s) && Pinned(steps, i + 1, parent, branch, s))
  }

  predicate StepPinned(step: Step, path: Path, s: set<Path>)
    decreases step, 2
  {
    step.IsFork() ==>
      && !(Touched(AllLeaves(step.yesSteps, 0, path, Yes), s) && Touched(AllLeaves(step.noSteps, 0, path, No), s))
      && Pinned(step.yesSteps, 0, path, Yes, s)
      && Pinned(step.noSteps, 0, path, No, s)
  }

  /** Progress in two parts that share no path is progress in each. */
  lemma SplitsProgress(a: seq<Leaf>, b: seq<Leaf>, inA: seq<Leaf>, inB: seq<Leaf>, s: set<Path>, t: set<Path>)
    requires forall l, m | l in a && m in b :: l.path != m.path
    requires (forall l | l in inA :: l in a) && (forall l | l in inB :: l in b)
    requires forall l | l in a + b && l.path in t :: l.path in s || l in inA + inB
    ensures forall l | l in a && l.path in t :: l.path in s || l in inA
    ensures forall l | l in b && l.path in t :: l.path in s || l in inB
  {
    forall l | l in a && l.path in t ensures l.path in s || l in inA {
      assert l in a + b;
    }
    forall l | l in b && l.path in t ensures l.path in s || l in inB {
      assert l in a + b;
    }
  }

  /** Progress made along the plan of a pinned tree leaves it pinned, whatever the forks now say. */
  lemma {:induction false} PlanKeepsPinned(steps: seq<Step>, i: nat, parent: Path, branch: Branch, s: set<Path>, t: set<Path>, forks: Forks)
    requires i <= |steps|
    requires Pinned(steps, i, parent, branch, s)
    requires forall l | l in AllLeaves(steps, i, parent, branch) && l.path in t
               :: l.path in s || l in Plan(steps, i, parent, branch, s, forks)
    ensures Pinned(steps, i, parent, branch, t)
    decreases steps, 1, |steps| - i
  {
    if i < |steps| {
      var path := BuildStepPath(parent, branch, i);
      SiblingsApart(steps, i, parent, branch);
      PlanWithin(steps, i + 1, parent, branch, s, forks);
      StepPlanWithin(steps[i], path, s, forks);
      SplitsProgress(StepLeaves(steps[i], path), AllLeaves(steps, i + 1, parent, branch),
                     StepPlan(steps[i], path, s, forks), Plan(steps, i + 1, parent, branch, s, forks), s, t);
      StepPlanKeepsPinned(steps[i], path, s, t, forks);
      PlanKeepsPinned(steps, i + 1, parent, branch, s, t, forks);
    }
  }

  lemma {:induction false} StepPlanKeepsPinned(step: Step, path: Path, s: set<Path>, t: set<Path>, forks: Forks)
    requires StepPinned(step, path, s)
    requires forall l | l in StepLeaves(step, path) && l.path in t :: l.path in s || l in StepPlan(step, path, s, forks)
    ensures StepPinned(step, path, t)
    decreases step, 2
  {
    if step.IsFork() {
      BranchesApart(step, path);
      PlanWithin(step.yesSteps, 0, path, Yes, s, forks);
      PlanWithin(step.noSteps, 0, path, No, s, forks);
      PlanKeepsPinned(step.yesSteps, 0, path, Yes, s, t, forks);
      PlanKeepsPinned(step.noSteps, 0, path, No, s, t, forks);
    }
  }

  /* ---- Forks last: routes from the root to the end ---- */

  /** Every fork is the last step of its list. */
  predicate ForksLast(steps: seq<Step>, i: nat)
    requires i <= |steps|
    decreases steps, 1, |steps| - i
  {
    i == |steps|
    || ((steps[i].IsFork() ==> i == |steps| - 1 && ForksLast(steps[i].yesSteps, 0) && ForksLast(steps[i].noSteps, 0))
        && ForksLast(steps, i + 1))
  }

  /** The leaves are exactly those of one root-to-end path that takes one branch at each fork. */
  predicate IsRoute(steps: seq<Step>, i: nat, parent: Path, branch: Branch, leaves: seq<Leaf>)
    requires i <= |steps| && ForksLast(steps, i)
    decreases steps, 1, |steps| - i
  {
    if i == |steps| then leaves == []
    else
      var step := steps[i];
      var path := BuildStepPath(parent, branch, i);
      if step.IsFork() then
        || IsRoute(step.yesSteps, 0, path, Yes, leaves)
        || IsRoute(step.noSteps, 0, path, No, leaves)
      else
        && leaves != []
        && leaves[0] == Leaf(path, step)
        && IsRoute(steps, i + 1, parent, branch, leaves[1..])
  }

  lemma {:induction false} PlanIsRoute(steps: seq<Step>, i: nat, parent: Path, branch: Branch, s: set<Path>, forks: Forks)
    requires i <= |steps| && ForksLast(steps, i)
    ensures IsRoute(steps, i, parent, branch, Plan(steps, i, parent, branch, s, forks))
    decreases steps, 1, |steps| - i
  {
    if i < |steps| {
      var step := steps[i];
      var path := BuildStepPath(parent, branch, i);
      if step.IsFork() {
        assert Plan(steps, i + 1, parent, branch, s, forks) == [];
        assert Plan(steps, i, parent, branch, s, forks) == StepPlan(step, path, s, forks);
        if TakesYes(step, path, s, forks) {
          PlanIsRoute(step.yesSteps, 0, path, Yes, s, forks);
        } else {
          PlanIsRoute(step.noSteps, 0, path, No, s, forks);
        }
      } else {
        PlanIsRoute(steps, i + 1, parent, branch, s, forks);
        assert Plan(steps, i, parent, branch, s, forks)[1..] == Plan(steps, i + 1, parent, branch, s, forks);
      }
    }
  }

  lemma {:induction false} RouteWithin(steps: seq<Step>, i: nat, parent: Path, branch: Branch, route: seq<Leaf>)
    requires i <= |steps| && ForksLast(steps, i)
    requires IsRoute(steps, i, parent, branch, route)
    ensures forall l | l in route :: l in AllLeaves(steps, i, parent, branch)
    decreases steps, 1, |steps| - i
  {
    if i < |steps| {
      var step := steps[i];
      var path := BuildStepPath(parent, branch, i);
      if step.IsFork() {
        if IsRoute(step.yesSteps, 0, path, Yes, route) {
          RouteWithin(step.yesSteps, 0, path, Yes, route);
        } else {
          RouteWithin(step.noSteps, 0, path, No, route);
        }
      } else {
        RouteWithin(steps, i + 1, parent, branch, route[1..]);
        assert route == [route[0]] + route[1..];
      }
    }
  }

  /** Progress in one branch only: the fork keeps to it. */
  lemma KeepsToBranch(step: Step, path: Path, branch: Branch, route: seq<Leaf>, k: nat, s: set<Path>, forks: Forks)
    requires step.IsFork() && !branch.Root? && 0 < k <= |route|
    requires forall l | l in route[..k] :: l in AllLeaves(if branch.Yes? then step.yesSteps else step.noSteps, 0, path, branch)
    requires forall l | l in StepLeaves(step, path) :: l.path in s <==> l in route[..k]
    ensures StepPlan(step, path, s, forks) == Plan(if branch.Yes? then step.yesSteps else step.noSteps, 0, path, branch, s, forks)
  {
    var mine := AllLeaves(if branch.Yes? then step.yesSteps else step.noSteps, 0, path, branch);
    var first := route[..k][0];
    assert first in route[..k] && first in mine && first in StepLeaves(step, path);
    assert Touched(mine, s);
    BranchesApart(step, path);
    assert branch.No? ==> forall l | l in AllLeaves(step.yesSteps, 0, path, Yes) :: l in StepLeaves(step, path) && l !in route[..k];
  }

  /* ---- Steps after a fork: when progress settles the way through it ---- */

  /** Some way from index i on has a leaf. */
  predicate HasLeaf(steps: seq<Step>, i: nat)
    requires i <= |steps|
    decreases steps, 1, |steps| - i
  {
    i < |steps|
    && ((steps[i].IsFork() ==> HasLeaf(steps[i].yesSteps, 0) || HasLeaf(steps[i].noSteps, 0)) || HasLeaf(steps, i + 1))
  }

  /** Every way from index i on has a leaf. */
  predicate AlwaysLeaf(steps: seq<Step>, i: nat)
    requires i <= |steps|
    decreases steps, 1, |steps| - i
  {
    i < |steps|
    && ((steps[i].IsFork() ==> AlwaysLeaf(steps[i].yesSteps, 0) && AlwaysLeaf(steps[i].noSteps, 0)) || AlwaysLeaf(steps, i + 1))
  }

  /** Every condition that a leaf may follow, here or further out (`more`), has a leaf on every way through both sides. */
  predicate Solid(steps: seq<Step>, i: nat, more: bool)
    requires i <= |steps|
    decreases steps, 1, |steps| - i
  {
    i == |steps| || (StepSolid(steps[i], more || HasLeaf(steps, i + 1)) && Solid(steps, i + 1, more))
  }

  predicate StepSolid(step: Step, more: bool)
    decreases step, 2
  {
    step.IsFork() ==>
      && Solid(step.yesSteps, 0, more) && Solid(step.noSteps, 0, more)
      && (more && step.Condition? ==> AlwaysLeaf(step.yesSteps, 0) && AlwaysLeaf(step.noSteps, 0))
  }

  /** Trees with every fork last in its list are solid: nothing follows any fork. */
  lemma {:induction false} ForksLastIsSolid(steps: seq<Step>, i: nat)
    requires i <= |steps| && ForksLast(steps, i)
    ensures Solid(steps, i, false)
    decreases steps, |steps| - i
  {
    if i < |steps| {
      if steps[i].IsFork() {
        ForksLastIsSolid(steps[i].yesSteps, 0);
        ForksLastIsSolid(steps[i].noSteps, 0);
      } else {
        ForksLastIsSolid(steps, i + 1);
      }
    }
  }

  lemma {:induction false} PlanLeaves(steps: seq<Step>, i: nat, parent: Path, branch: Branch, s: set<Path>, forks: Forks)
    requires i <= |steps|
    ensures Plan(steps, i, parent, branch, s, forks) != [] ==> HasLeaf(steps, i)
    ensures AlwaysLeaf(steps, i) ==> Plan(steps, i, parent, branch, s, forks) != []
    decreases steps, 1, |steps| - i
  {
    if i < |steps| {
      var path := BuildStepPath(parent, branch, i);
      PlanLeaves(steps, i + 1, parent, branch, s, forks);
      assert Plan(steps, i, parent, branch, s, forks) == StepPlan(steps[i], path, s, forks) + Plan(steps, i + 1, parent, branch, s, forks);
      if steps[i].IsFork() {
        PlanLeaves(steps[i].yesSteps, 0, path, Yes, s, forks);
        PlanLeaves(steps[i].noSteps, 0, path, No, s, forks);
      }
    }
  }

  /** What has started among these leaves is exactly the first n of the route. */
  predicate StartedAre(leaves: seq<Leaf>, s: set<Path>, route: seq<Leaf>, n: nat) {
    n <= |route| && forall l | l in leaves :: l.path in s <==> l in route[..n]
  }

  /** Of two parts that share no path, the first started before the second. */
  lemma StartedInTurn(a: seq<Leaf>, b: seq<Leaf>, s: set<Path>, inA: seq<Leaf>, inB: seq<Leaf>, n: nat)
    requires forall l, m | l in a && m in b :: l.path != m.path
    requires (forall l | l in inA :: l in a) && (forall l | l in inB :: l in b)
    requires StartedAre(a + b, s, inA + inB, n)
    ensures StartedAre(a, s, inA, if n < |inA| then n else |inA|)
    ensures StartedAre(b, s, inB, if n < |inA| then 0 else n - |inA|)
  {
    var k := if n < |inA| then n else |inA|;
    assert (inA + inB)[..n] == inA[..k] + inB[..n - k];
    forall l | l in a ensures l.path in s <==> l in inA[..k] {
      assert l in a + b;
    }
    forall l | l in b ensures l.path in s <==> l in inB[..n - k] {
      assert l in a + b;
    }
  }

  /**
   In a solid tree what has started keeps its place at the front of every later plan; and where more is to follow,
   a way that has been gone through to its end is kept as it was.
   */
  lemma {:induction false} PlanKeepsWay(steps: seq<Step>, i: nat, parent: Path, branch: Branch, s: set<Path>, n: nat, more: bool, c: Forks, d: Forks)
    requires i <= |steps| && Solid(steps, i, more) && c.roll == d.roll
    requires StartedAre(AllLeaves(steps, i, parent, branch), s, Plan(steps, i, parent, branch, {}, c), n)
    ensures Plan(steps, i, parent, branch, {}, c)[..n] <= Plan(steps, i, parent, branch, s, d)
    ensures more && n == |Plan(steps, i, parent, branch, {}, c)|
        ==> Plan(steps, i, parent, branch, s, d) == Plan(steps, i, parent, branch, {}, c)
    decreases steps, 2, |steps| - i
  {
    if i < |steps| {
      var step, path := steps[i], BuildStepPath(parent, branch, i);
      var a, b := StepPlan(step, path, {}, c), Plan(steps, i + 1, parent, branch, {}, c);
      var on := more || HasLeaf(steps, i + 1);
      SiblingsApart(steps, i, parent, branch);
      StepPlanWithin(step, path, {}, c);
      PlanWithin(steps, i + 1, parent, branch, {}, c);
      StartedInTurn(StepLeaves(step, path), AllLeaves(steps, i + 1, parent, branch), s, a, b, n);
      PlanLeaves(steps, i + 1, parent, branch, {}, c);
      StepKeepsWay(step, path, s, if n < |a| then n else |a|, on, c, d);
      PlanKeepsWay(steps, i + 1, parent, branch, s, if n < |a| then 0 else n - |a|, more, c, d);
      PrefixInTurn(a, b, StepPlan(step, path, s, d), Plan(steps, i + 1, parent, branch, s, d), n);
    }
  }

  /** A prefix that reaches into the second part needs the first part whole. */
  lemma PrefixInTurn(a: seq<Leaf>, b: seq<Leaf>, a': seq<Leaf>, b': seq<Leaf>, n: nat)
    requires n <= |a| + |b|
    requires if n <= |a| then a[..n] <= a' else a == a' && b[..n - |a|] <= b'
    ensures (a + b)[..n] <= a' + b'
  {
    if n <= |a| {
      assert (a + b)[..n] == a[..n];
    } else {
      assert (a + b)[..n] == a + b[..n - |a|];
    }
  }

  lemma {:induction false} StepKeepsWay(step: Step, path: Path, s: set<Path>, n: nat, more: bool, c: Forks, d: Forks)
    requires StepSolid(step, more) && c.roll == d.roll
    requires StartedAre(StepLeaves(step, path), s, StepPlan(step, path, {}, c), n)
    ensures StepPlan(step, path, {}, c)[..n] <= StepPlan(step, path, s, d)
    ensures more && n == |StepPlan(step, path, {}, c)| ==> StepPlan(step, path, s, d) == StepPlan(step, path, {}, c)
    decreases step, 3
  {
    if step.IsFork() {
      var yes := TakesYes(step, path, {}, c);
      PlanLeaves(step.yesSteps, 0, path, Yes, {}, c);
      PlanLeaves(step.noSteps, 0, path, No, {}, c);
      if n > 0 || (more && n == |StepPlan(step, path, {}, c)|) {
        ForkKeepsSide(step, path, s, n, c, d);
        if yes {
          PlanKeepsWay(step.yesSteps, 0, path, Yes, s, n, more, c, d);
        } else {
          PlanKeepsWay(step.noSteps, 0, path, No, s, n, more, c, d);
        }
      }
    }
  }

  /** A fork with progress, and a split in any case, goes on as it was first decided. */
  lemma ForkKeepsSide(step: Step, path: Path, s: set<Path>, n: nat, c: Forks, d: Forks)
    requires step.IsFork() && c.roll == d.roll && (n > 0 || step.Split?)
    requires StartedAre(StepLeaves(step, path), s, StepPlan(step, path, {}, c), n)
    ensures StepPlan(step, path, s, d)
         == if TakesYes(step, path, {}, c) then Plan(step.yesSteps, 0, path, Yes, s, d) else Plan(step.noSteps, 0, path, No, s, d)
    ensures var side := if TakesYes(step, path, {}, c) then AllLeaves(step.yesSteps, 0, path, Yes) else AllLeaves(step.noSteps, 0, path, No);
            StartedAre(side, s, StepPlan(step, path, {}, c), n)
  {
    var yes := TakesYes(step, path, {}, c);
    PlanWithin(step.yesSteps, 0, path, Yes, {}, c);
    PlanWithin(step.noSteps, 0, path, No, {}, c);
    if n > 0 {
      KeepsToBranch(step, path, if yes then Yes else No, StepPlan(step, path, {}, c), n, s, d);
    } else {
      assert forall l | l in StepLeaves(step, path) :: l.path !in s;
    }
  }

  /* ---- Every later plan is the route of some decisions ---- */

  type Verdicts = (Path, ConditionGroup) -> bool

  predicate ProgressUnder(s: set<Path>, path: Path) { exists q | q in s :: path < q }

  /** Where something has started under a fork c decides, elsewhere d. */
  function Follow(s: set<Path>, c: Verdicts, d: Verdicts): Verdicts {
    (p, g) => if ProgressUnder(s, p) then c(p, g) else d(p, g)
  }

  /** Whatever has started under this list is one of its leaves. */
  predicate Confined(s: set<Path>, leaves: seq<Leaf>, parent: Path, branch: Branch, i: nat) {
    forall q | q in s && Under(q, parent, branch, i) :: exists l | l in leaves :: l.path == q
  }

  predicate StepConfined(s: set<Path>, leaves: seq<Leaf>, path: Path) {
    forall q | q in s && path < q :: exists l | l in leaves :: l.path == q
  }

  lemma ConfinedInTurn(steps: seq<Step>, i: nat, parent: Path, branch: Branch, s: set<Path>)
    requires i < |steps| && Confined(s, AllLeaves(steps, i, parent, branch), parent, branch, i)
    ensures StepConfined(s, StepLeaves(steps[i], BuildStepPath(parent, branch, i)), BuildStepPath(parent, branch, i))
    ensures Confined(s, AllLeaves(steps, i + 1, parent, branch), parent, branch, i + 1)
  {
    var path := BuildStepPath(parent, branch, i);
    LeavesUnder(steps, i + 1, parent, branch);
    StepLeavesUnder(steps[i], path);
    forall q | q in s && path < q ensures exists l | l in StepLeaves(steps[i], path) :: l.path == q {
      assert q[..|parent|] == path[..|parent|] == parent && q[|parent|] == path[|parent|];
      assert Under(q, parent, branch, i) && !Under(q, parent, branch, i + 1);
      var l :| l in AllLeaves(steps, i, parent, branch) && l.path == q;
      assert l in StepLeaves(steps[i], path);
    }
    forall q | q in s && Under(q, parent, branch, i + 1) ensures exists l | l in AllLeaves(steps, i + 1, parent, branch) :: l.path == q {
      assert Under(q, parent, branch, i);
      var l :| l in AllLeaves(steps, i, parent, branch) && l.path == q;
      assert l in AllLeaves(steps, i + 1, parent, branch);
    }
  }

  lemma ConfinedToSides(step: Step, path: Path, s: set<Path>)
    requires step.IsFork() && StepConfined(s, StepLeaves(step, path), path)
    ensures Confined(s, AllLeaves(step.yesSteps, 0, path, Yes), path, Yes, 0)
    ensures Confined(s, AllLeaves(step.noSteps, 0, path, No), path, No, 0)
  {
    LeavesUnder(step.yesSteps, 0, path, Yes);
    LeavesUnder(step.noSteps, 0, path, No);
    forall q | q in s && Under(q, path, Yes, 0) ensures exists l | l in AllLeaves(step.yesSteps, 0, path, Yes) :: l.path == q {
      assert path < q;
      var l :| l in StepLeaves(step, path) && l.path == q;
      assert l !in AllLeaves(step.noSteps, 0, path, No);
    }
    forall q | q in s && Under(q, path, No, 0) ensures exists l | l in AllLeaves(step.noSteps, 0, path, No) :: l.path == q {
      assert path < q;
      var l :| l in StepLeaves(step, path) && l.path == q;
      assert l !in AllLeaves(step.yesSteps, 0, path, Yes);
    }
  }

  /** With the first n leaves of c's route started, the plan under d is the route that follows c where it has progress. */
  lemma {:induction false} PlanFollows(steps: seq<Step>, i: nat, parent: Path, branch: Branch, s: set<Path>, n: nat,
                                       c: Verdicts, d: Verdicts, roll: StepId -> int)
    requires i <= |steps| && Confined(s, AllLeaves(steps, i, parent, branch), parent, branch, i)
    requires StartedAre(AllLeaves(steps, i, parent, branch), s, Plan(steps, i, parent, branch, {}, Forks(c, roll)), n)
    ensures Plan(steps, i, parent, branch, s, Forks(d, roll)) == Plan(steps, i, parent, branch, {}, Forks(Follow(s, c, d), roll))
    decreases steps, 2, |steps| - i
  {
    if i < |steps| {
      var step, path := steps[i], BuildStepPath(parent, branch, i);
      var a, b := StepPlan(step, path, {}, Forks(c, roll)), Plan(steps, i + 1, parent, branch, {}, Forks(c, roll));
      ConfinedInTurn(steps, i, parent, branch, s);
      SiblingsApart(steps, i, parent, branch);
      StepPlanWithin(step, path, {}, Forks(c, roll));
      PlanWithin(steps, i + 1, parent, branch, {}, Forks(c, roll));
      StartedInTurn(StepLeaves(step, path), AllLeaves(steps, i + 1, parent, branch), s, a, b, n);
      StepPlanFollows(step, path, s, if n < |a| then n else |a|, c, d, roll);
      PlanFollows(steps, i + 1, parent, branch, s, if n < |a| then 0 else n - |a|, c, d, roll);
    }
  }

  lemma {:induction false} StepPlanFollows(step: Step, path: Path, s: set<Path>, n: nat, c: Verdicts, d: Verdicts, roll: StepId -> int)
    requires StepConfined(s, StepLeaves(step, path), path)
    requires StartedAre(StepLeaves(step, path), s, StepPlan(step, path, {}, Forks(c, roll)), n)
    ensures StepPlan(step, path, s, Forks(d, roll)) == StepPlan(step, path, {}, Forks(Follow(s, c, d), roll))
    decreases step, 3
  {
    if step.IsFork() {
      ConfinedToSides(step, path, s);
      var yes := SideFollowed(step, path, s, n, c, d, roll);
      var same := TakesYes(step, path, {}, Forks(c, roll)) == yes;
      if yes {
        PlanFollows(step.yesSteps, 0, path, Yes, s, if same then n else 0, c, d, roll);
      } else {
        PlanFollows(step.noSteps, 0, path, No, s, if same then n else 0, c, d, roll);
      }
    }
  }

  lemma SideFollowed(step: Step, path: Path, s: set<Path>, n: nat, c: Verdicts, d: Verdicts, roll: StepId -> int) returns (yes: bool)
    requires step.IsFork() && StepConfined(s, StepLeaves(step, path), path)
    requires StartedAre(StepLeaves(step, path), s, StepPlan(step, path, {}, Forks(c, roll)), n)
    ensures yes == TakesYes(step, path, {}, Forks(Follow(s, c, d), roll))
    ensures StepPlan(step, path, s, Forks(d, roll))
         == if yes then Plan(step.yesSteps, 0, path, Yes, s, Forks(d, roll)) else Plan(step.noSteps, 0, path, No, s, Forks(d, roll))
    ensures var same := TakesYes(step, path, {}, Forks(c, roll)) == yes;
            var side := if yes then AllLeaves(step.yesSteps, 0, path, Yes) else AllLeaves(step.noSteps, 0, path, No);
            var route := if yes then Plan(step.yesSteps, 0, path, Yes, {}, Forks(c, roll)) else Plan(step.noSteps, 0, path, No, {}, Forks(c, roll));
            StartedAre(side, s, route, if same then n else 0)
  {
    var route := StepPlan(step, path, {}, Forks(c, roll));
    if n > 0 {
      yes := TakesYes(step, path, {}, Forks(c, roll));
      ForkKeepsSide(step, path, s, n, Forks(c, roll), Forks(d, roll));
      StepPlanWithin(step, path, {}, Forks(c, roll));
      LeavesUnder(step.yesSteps, 0, path, Yes);
      LeavesUnder(step.noSteps, 0, path, No);
      assert route[..n][0] == route[0] && route[0] in StepLeaves(step, path) && route[0].path in s && path < route[0].path;
    } else {
      yes := TakesYes(step, path, {}, Forks(d, roll));
      assert forall l | l in StepLeaves(step, path) :: l.path !in s;
      assert !ProgressUnder(s, path);
    }
  }
}
